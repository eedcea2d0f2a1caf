/**
 * The playback controller of the player script as a pure state machine:
 * one value holds every field the `MusicPlayer` object keeps (plus the
 * audio element it drives and the two panels it opens), and each user
 * action or media event is a function from the old state to the new one.
 * The lemmas state what the controller promises about these transitions.
 */
module PlayerSpec {
  import opened Wrappers
  import opened Text
  import opened Clock

  /**
   * A track record as the player stores it. The scripts build these from
   * JSON; a missing text field reads as "" here, which every use in the
   * player treats like `undefined` (both are falsy).
   */
  datatype Song = Song(id: int, title: string, artistName: string, audioUrl: string,
                       coverImageUrl: string, duration: int, lyrics: string)

  /** The part of the HTML audio element the controller reads and writes. */
  datatype Audio = Audio(src: string, currentTime: real, duration: JsNumber,
                         volume: real, muted: bool, paused: bool)

  /** An audio element with no source: silent, paused, full volume. */
  const FreshAudio := Audio("", 0.0, NaN, 1.0, false, true)

  /** Repeat modes, as the numbers the script stores in `repeatMode`. */
  const RepeatOff := 0
  const RepeatAll := 1
  const RepeatOne := 2

  /** Every field of the `MusicPlayer` object that a transition reads or writes. */
  datatype Player = Player(
    audio: Audio,
    isPlaying: bool,
    isShuffle: bool,
    repeatMode: int,
    currentIndex: int,
    queue: seq<Song>,
    volume: real,
    isMuted: bool,
    currentSong: Option<Song>,
    queueOpen: bool,
    lyricsOpen: bool)

  /** The two `localStorage` keys, `ml_volume` and `ml_queue`; `None` is a key never written. */
  datatype Stored = Stored(volume: Option<real>, queue: Option<seq<Song>>)

  /** The queue pointer: in range for a non-empty queue, 0 for an empty one. */
  predicate PointerInRange(n: nat, c: int) {
    0 <= c && (n == 0 ==> c == 0) && (n > 0 ==> c < n)
  }

  /** The state invariant every transition keeps. */
  predicate Valid(p: Player) {
    && PointerInRange(|p.queue|, p.currentIndex)
    && 0 <= p.repeatMode < 3
    && 0.0 <= p.volume <= 1.0
    && p.audio.volume == p.volume
    && p.audio.muted == p.isMuted
    && 0.0 <= p.audio.currentTime
    && (p.audio.duration.Num? ==> 0.0 <= p.audio.duration.value)
    && !(p.queueOpen && p.lyricsOpen)
  }

  /** Values the audio element accepts as a volume. */
  predicate StoredValid(st: Stored) {
    st.volume.Some? ==> 0.0 <= st.volume.value <= 1.0
  }

  function Min(x: real, y: real): real {
    if x <= y then x else y
  }

  function Max(x: real, y: real): real {
    if x >= y then x else y
  }

  /** JavaScript `a % n` on integers: the remainder takes the sign of `a`. */
  function IntRemainder(a: int, n: int): (r: int)
    requires n > 0
    ensures a >= 0 ==> 0 <= r < n
  {
    if a >= 0 then a % n else -((-a) % n)
  }

  /** `queue[k]`: `undefined` (here `None`) outside the array. */
  function SongAt(q: seq<Song>, k: int): Option<Song> {
    if 0 <= k < |q| then Some(q[k]) else None
  }

  /** The guard of `playSong`: a song object with a non-empty `audioUrl`. */
  predicate Playable(song: Option<Song>) {
    song.Some? && song.value.audioUrl != ""
  }

  /** The object the constructor builds before it reads storage. */
  function Initial(): Player {
    Player(FreshAudio, false, false, RepeatOff, 0, [], 1.0, false, None, false, false)
  }

  /** `loadFromStorage`: restore whichever of the two keys is present. */
  function LoadFromStorage(p: Player, st: Stored): Player {
    var p1 := if st.volume.Some? then p.(volume := st.volume.value, audio := p.audio.(volume := st.volume.value)) else p;
    if st.queue.Some? then p1.(queue := st.queue.value) else p1
  }

  /** `saveToStorage`: what the two keys hold afterwards. */
  function Save(p: Player): Stored {
    Stored(Some(p.volume), Some(p.queue))
  }

  /**
   * Setting `audio.src` restarts the media element at position 0 with an
   * unknown duration; `play()` then clears its paused flag.
   */
  function LoadAndPlay(a: Audio, url: string): Audio {
    a.(src := url, currentTime := 0.0, duration := NaN, paused := false)
  }

  /** `playSong(song)`. */
  function PlaySong(p: Player, song: Option<Song>): Player {
    if !Playable(song) then p
    else p.(currentSong := song, audio := LoadAndPlay(p.audio, song.value.audioUrl))
  }

  /** `addToQueue(song)`. */
  function AddToQueue(p: Player, song: Option<Song>): Player {
    if song.None? then p else p.(queue := p.queue + [song.value])
  }

  /** `playFromQueue(index)`. */
  function PlayFromQueue(p: Player, index: int): Player {
    if index < 0 || index >= |p.queue| then p
    else PlaySong(p.(currentIndex := index), Some(p.queue[index]))
  }

  /** `queue.splice(i, 1)`. */
  function RemoveAt(q: seq<Song>, i: nat): (r: seq<Song>)
    requires i < |q|
    ensures |r| == |q| - 1
    ensures forall j :: 0 <= j < i ==> r[j] == q[j]
    ensures forall j :: i <= j < |r| ==> r[j] == q[j + 1]
    ensures multiset(r) + multiset{q[i]} == multiset(q)
  {
    assert q == q[..i] + [q[i]] + q[i + 1..];
    q[..i] + q[i + 1..]
  }

  /** The pointer rule of `removeFromQueue`. */
  function IndexAfterRemoval(c: int, i: int): int {
    if c >= i && c > 0 then c - 1 else c
  }

  /** `removeFromQueue(index)`. */
  function RemoveFromQueue(p: Player, index: int): Player {
    if index < 0 || index >= |p.queue| then p
    else p.(queue := RemoveAt(p.queue, index), currentIndex := IndexAfterRemoval(p.currentIndex, index))
  }

  /** `clearQueue()`. */
  function ClearQueue(p: Player): Player {
    p.(queue := [], currentIndex := 0)
  }

  /** `togglePlay()`: pause a playing element, otherwise ask it to play. */
  function TogglePlay(p: Player): Player {
    if p.isPlaying then p.(audio := p.audio.(paused := true)) else p.(audio := p.audio.(paused := false))
  }

  /** `Math.floor(Math.random() * n)`, with `rand` the value `Math.random()` returned. */
  function ShuffleIndex(n: nat, rand: real): int {
    (rand * (n as real)).Floor
  }

  /** The index `playNext` moves to. */
  function NextIndex(p: Player, rand: real): int
    requires |p.queue| > 0
  {
    if p.isShuffle then ShuffleIndex(|p.queue|, rand) else IntRemainder(p.currentIndex + 1, |p.queue|)
  }

  /** The index `playPrevious` moves to. */
  function PreviousIndex(p: Player, rand: real): int
    requires |p.queue| > 0
  {
    if p.isShuffle then ShuffleIndex(|p.queue|, rand)
    else if p.currentIndex > 0 then p.currentIndex - 1
    else |p.queue| - 1
  }

  /** `playNext()`. */
  function PlayNext(p: Player, rand: real): Player {
    if |p.queue| == 0 then p
    else
      var k := NextIndex(p, rand);
      PlaySong(p.(currentIndex := k), SongAt(p.queue, k))
  }

  /** `playPrevious()`: past 3 seconds it only rewinds the current track. */
  function PlayPrevious(p: Player, rand: real): Player {
    if p.audio.currentTime > 3.0 then p.(audio := p.audio.(currentTime := 0.0))
    else if |p.queue| == 0 then p
    else
      var k := PreviousIndex(p, rand);
      PlaySong(p.(currentIndex := k), SongAt(p.queue, k))
  }

  /** `toggleShuffle()`. */
  function ToggleShuffle(p: Player): Player {
    p.(isShuffle := !p.isShuffle)
  }

  /** `toggleRepeat()`: `(repeatMode + 1) % 3`. */
  function ToggleRepeat(p: Player): Player {
    p.(repeatMode := IntRemainder(p.repeatMode + 1, 3))
  }

  /** `toggleMute()`. */
  function ToggleMute(p: Player): Player {
    p.(isMuted := !p.isMuted, audio := p.audio.(muted := !p.isMuted))
  }

  /** `toggleQueue()`: flip the queue panel; opening it closes the lyrics panel. */
  function ToggleQueue(p: Player): Player {
    var open := !p.queueOpen;
    p.(queueOpen := open, lyricsOpen := if open then false else p.lyricsOpen)
  }

  /** `toggleLyrics()`: flip the lyrics panel; opening it closes the queue panel. */
  function ToggleLyrics(p: Player): Player {
    var open := !p.lyricsOpen;
    p.(lyricsOpen := open, queueOpen := if open then false else p.queueOpen)
  }

  /** `Math.max(0, Math.min(1, x))`. */
  function Clamp01(x: real): (v: real)
    ensures 0.0 <= v <= 1.0
    ensures 0.0 <= x <= 1.0 ==> v == x
    ensures x < 0.0 ==> v == 0.0
    ensures x > 1.0 ==> v == 1.0
  {
    Max(0.0, Min(1.0, x))
  }

  /** `setVolume`, given the click position on the slider as a ratio of its width. */
  function SetVolume(p: Player, ratio: real): Player {
    var v := Clamp01(ratio);
    p.(volume := v, audio := p.audio.(volume := v, muted := false), isMuted := false)
  }

  datatype VolumeIcon = MuteIcon | DownIcon | UpIcon

  /** The icon `updateVolumeIcon` shows. */
  function VolumeIconFor(isMuted: bool, volume: real): (icon: VolumeIcon)
    ensures icon == MuteIcon <==> isMuted || volume == 0.0
    ensures icon == DownIcon <==> !isMuted && volume != 0.0 && volume < 0.5
    ensures icon == UpIcon <==> !isMuted && volume != 0.0 && volume >= 0.5
  {
    if isMuted || volume == 0.0 then MuteIcon
    else if volume < 0.5 then DownIcon
    else UpIcon
  }

  /** `onEnded()`: the end-of-track policy of the three repeat modes. */
  function OnEnded(p: Player, rand: real): Player {
    if p.repeatMode == RepeatOne then p.(audio := p.audio.(currentTime := 0.0, paused := false))
    else if |p.queue| > 0 then
      if p.repeatMode == RepeatAll || p.currentIndex < |p.queue| - 1 then PlayNext(p, rand) else p
    else p
  }

  /** `onPlay()`. */
  function OnPlay(p: Player): Player {
    p.(isPlaying := true)
  }

  /** `onPause()`. */
  function OnPause(p: Player): Player {
    p.(isPlaying := false)
  }

  /** The audio element learns the duration of its source (`loadedmetadata`). */
  function OnMetadataLoaded(p: Player, duration: real): Player {
    p.(audio := p.audio.(duration := Num(duration)))
  }

  /** The audio element reports its playback position (`timeupdate`). */
  function OnTimeUpdate(p: Player, time: real): Player {
    p.(audio := p.audio.(currentTime := time))
  }

  /** The keyboard shortcuts `handleKeyboard` dispatches on. */
  datatype KeyCommand =
    | PlayPauseKey | SeekBackKey | SeekForwardKey | VolumeUpKey | VolumeDownKey
    | MuteKey | NextKey | PreviousKey | LyricsKey | QueueKey

  /** The `switch (e.code)` of `handleKeyboard`: `None` for a key it ignores. */
  function KeyCommandFor(code: string): Option<KeyCommand> {
    if code == "Space" then Some(PlayPauseKey)
    else if code == "ArrowLeft" then Some(SeekBackKey)
    else if code == "ArrowRight" then Some(SeekForwardKey)
    else if code == "ArrowUp" then Some(VolumeUpKey)
    else if code == "ArrowDown" then Some(VolumeDownKey)
    else if code == "KeyM" then Some(MuteKey)
    else if code == "KeyN" then Some(NextKey)
    else if code == "KeyP" then Some(PreviousKey)
    else if code == "KeyL" then Some(LyricsKey)
    else if code == "KeyQ" then Some(QueueKey)
    else None
  }

  /** The effect of one shortcut. */
  function ApplyKey(p: Player, cmd: KeyCommand, rand: real): Player {
    match cmd
    case PlayPauseKey => TogglePlay(p)
    case SeekBackKey => p.(audio := p.audio.(currentTime := Max(0.0, p.audio.currentTime - 5.0)))
    case SeekForwardKey =>
      // Math.min(NaN, t) is NaN, and assigning NaN to currentTime throws: nothing changes.
      if p.audio.duration.NaN? then p
      else p.(audio := p.audio.(currentTime := Min(p.audio.duration.value, p.audio.currentTime + 5.0)))
    case VolumeUpKey =>
      var v := Min(1.0, p.volume + 0.1);
      p.(volume := v, audio := p.audio.(volume := v))
    case VolumeDownKey =>
      var v := Max(0.0, p.volume - 0.1);
      p.(volume := v, audio := p.audio.(volume := v))
    case MuteKey => ToggleMute(p)
    case NextKey => PlayNext(p, rand)
    case PreviousKey => PlayPrevious(p, rand)
    case LyricsKey => ToggleLyrics(p)
    case QueueKey => ToggleQueue(p)
  }

  /** `handleKeyboard(e)`, for the key code `code` pressed on an element with tag `targetTag`. */
  function HandleKeyboard(p: Player, targetTag: string, code: string, rand: real): Player {
    if targetTag == "INPUT" || targetTag == "TEXTAREA" then p
    else match KeyCommandFor(code)
      case None => p
      case Some(cmd) => ApplyKey(p, cmd, rand)
  }

  /**
   * What `playAlbum` and `playPlaylist` do with the songs of a successful
   * response: replace the queue, point at `startIndex` unchecked, and play
   * `queue[startIndex]`.
   */
  function PlayCollection(p: Player, songs: seq<Song>, startIndex: int): Player {
    if |songs| == 0 then p
    else PlaySong(ClearQueue(p).(queue := songs, currentIndex := startIndex), SongAt(songs, startIndex))
  }

  /** `formatTime(seconds)`. */
  function FormatTime(seconds: JsNumber): string {
    if seconds.NaN? then "0:00" else MinutesSecondsText(seconds.value)
  }

  /** `lyrics.replace(/\n/g, '<br>')`. */
  function BreakLines(s: string): (r: string)
    ensures '\n' !in r
  {
    if s == [] then []
    else (if s[0] == '\n' then "<br>" else [s[0]]) + BreakLines(s[1..])
  }

  /** The inverse of `BreakLines`: every `<br>` back to a newline. */
  function JoinLines(s: string): string
    decreases |s|
  {
    if s == [] then []
    else if "<br>" <= s then "\n" + JoinLines(s[4..])
    else [s[0]] + JoinLines(s[1..])
  }

  /** The lyrics markup of `updateLyricsPanel`: `None` is the "no lyrics" placeholder. */
  function LyricsBody(lyrics: string): Option<string> {
    if lyrics != "" && !IsBlank(lyrics) then Some(BreakLines(lyrics)) else None
  }

  /** Everything that can happen to a constructed player: a user action or a media event. */
  datatype Event =
    | Play(song: Option<Song>)
    | Enqueue(song: Option<Song>)
    | PlayQueued(index: int)
    | Dequeue(index: int)
    | Clear
    | PlayPause
    | Previous(rand: real)
    | Next(rand: real)
    | Shuffle
    | Repeat
    | Mute
    | QueuePanel
    | LyricsPanel
    | Volume(ratio: real)
    | Ended(rand: real)
    | Playing
    | Pausing
    | Metadata(duration: real)
    | TimeUpdate(time: real)
    | Key(targetTag: string, code: string, rand: real)
    | Collection(songs: seq<Song>, startIndex: int)

  /**
   * The events the environment can produce: `Math.random()` lies in
   * `[0, 1)`, media times are non-negative, and an album or playlist is
   * started at one of its own songs.
   */
  predicate Admissible(e: Event) {
    match e
    case Previous(rand) => 0.0 <= rand < 1.0
    case Next(rand) => 0.0 <= rand < 1.0
    case Ended(rand) => 0.0 <= rand < 1.0
    case Key(_, _, rand) => 0.0 <= rand < 1.0
    case Metadata(d) => 0.0 <= d
    case TimeUpdate(t) => 0.0 <= t
    case Collection(songs, k) => |songs| > 0 ==> 0 <= k < |songs|
    case _ => true
  }

  /** The transition each event causes. */
  function Step(p: Player, e: Event): Player {
    match e
    case Play(song) => PlaySong(p, song)
    case Enqueue(song) => AddToQueue(p, song)
    case PlayQueued(i) => PlayFromQueue(p, i)
    case Dequeue(i) => RemoveFromQueue(p, i)
    case Clear => ClearQueue(p)
    case PlayPause => TogglePlay(p)
    case Previous(rand) => PlayPrevious(p, rand)
    case Next(rand) => PlayNext(p, rand)
    case Shuffle => ToggleShuffle(p)
    case Repeat => ToggleRepeat(p)
    case Mute => ToggleMute(p)
    case QueuePanel => ToggleQueue(p)
    case LyricsPanel => ToggleLyrics(p)
    case Volume(ratio) => SetVolume(p, ratio)
    case Ended(rand) => OnEnded(p, rand)
    case Playing => OnPlay(p)
    case Pausing => OnPause(p)
    case Metadata(d) => OnMetadataLoaded(p, d)
    case TimeUpdate(t) => OnTimeUpdate(p, t)
    case Key(tag, code, rand) => HandleKeyboard(p, tag, code, rand)
    case Collection(songs, k) => PlayCollection(p, songs, k)
  }

  /** The state after a sequence of events, in order. */
  function Run(p: Player, es: seq<Event>): Player
    decreases |es|
  {
    if es == [] then p else Run(Step(p, es[0]), es[1..])
  }

  /** The events that edit the queue itself. */
  predicate EditsQueue(e: Event) {
    e.Enqueue? || e.Dequeue? || e.Clear? || e.Collection?
  }

  // ---------------------------------------------------------------------------
  // Lemmas

  /** The constructor's state, with whatever storage holds, satisfies the invariant. */
  lemma ConstructedIsValid(st: Stored)
    requires StoredValid(st)
    ensures Valid(LoadFromStorage(Initial(), st))
    ensures LoadFromStorage(Initial(), st).currentIndex == 0
  {
  }

  /** Saving and then reloading the page restores the queue and the volume. */
  lemma ReloadRestoresQueueAndVolume(p: Player)
    requires Valid(p)
    ensures StoredValid(Save(p))
    ensures LoadFromStorage(Initial(), Save(p)).queue == p.queue
    ensures LoadFromStorage(Initial(), Save(p)).volume == p.volume
  {
  }

  /** `addToQueue` appends exactly one element at the end, even a song already queued. */
  lemma AddToQueueAppends(p: Player, song: Song)
    ensures var q := AddToQueue(p, Some(song)).queue;
            |q| == |p.queue| + 1 && q[..|p.queue|] == p.queue && q[|p.queue|] == song
    ensures AddToQueue(p, Some(song)).currentIndex == p.currentIndex
  {
    assert (p.queue + [song])[..|p.queue|] == p.queue;
  }

  /** An enqueued track is found at the same position after a reload (a saved in-memory queue). */
  lemma EnqueueSurvivesReload(p: Player, song: Song)
    ensures var reloaded := LoadFromStorage(Initial(), Save(AddToQueue(p, Some(song))));
            |reloaded.queue| == |p.queue| + 1 && reloaded.queue[|p.queue|] == song
  {
  }

  /** Invalid inputs leave every field alone. */
  lemma InvalidInputsAreNoOps(p: Player, song: Option<Song>, index: int)
    requires !Playable(song)
    requires index < 0 || index >= |p.queue|
    ensures PlaySong(p, song) == p
    ensures AddToQueue(p, None) == p
    ensures PlayFromQueue(p, index) == p
    ensures RemoveFromQueue(p, index) == p
  {
  }

  /** A valid `playSong` loads the song and starts it, but leaves the queue and its pointer alone. */
  lemma PlaySongKeepsQueue(p: Player, song: Song)
    requires song.audioUrl != ""
    ensures var r := PlaySong(p, Some(song));
            && r.currentSong == Some(song)
            && r.audio.src == song.audioUrl && r.audio.currentTime == 0.0 && !r.audio.paused
            && r.queue == p.queue && r.currentIndex == p.currentIndex
  {
  }

  /**
   * `removeFromQueue(i)` splices out entry `i`. A removal before the
   * pointer shifts it down onto the same track, one after it leaves it
   * alone; removing the current entry moves the pointer to the previous
   * entry, or keeps it at 0 on what followed.
   */
  lemma RemoveFromQueueEffect(p: Player, i: int)
    requires Valid(p) && 0 <= i < |p.queue|
    ensures var r := RemoveFromQueue(p, i);
            var c := p.currentIndex;
            && r.queue == p.queue[..i] + p.queue[i + 1..]
            && multiset(r.queue) + multiset{p.queue[i]} == multiset(p.queue)
            && PointerInRange(|r.queue|, r.currentIndex)
            && (i < c ==> r.currentIndex == c - 1 && r.queue[r.currentIndex] == p.queue[c])
            && (i > c ==> r.currentIndex == c && r.queue[r.currentIndex] == p.queue[c])
            && (i == c && c > 0 ==> r.currentIndex == c - 1 && r.queue[r.currentIndex] == p.queue[c - 1])
            && (i == c == 0 ==> r.currentIndex == 0 && (|r.queue| > 0 ==> r.queue[0] == p.queue[1]))
  {
  }

  /** `playFromQueue(i)` for an index in range points at `i` and plays that entry. */
  lemma PlayFromQueueEffect(p: Player, i: int)
    requires 0 <= i < |p.queue|
    ensures var r := PlayFromQueue(p, i);
            && r.currentIndex == i && r.queue == p.queue
            && (p.queue[i].audioUrl != "" ==>
                  r.currentSong == Some(p.queue[i]) && r.audio.src == p.queue[i].audioUrl && !r.audio.paused)
            && (p.queue[i].audioUrl == "" ==> r == p.(currentIndex := i))
  {
  }

  /** After 3 seconds of a track, "previous" only rewinds it: the pointer does not move. */
  lemma PreviousRestartsAfterThreeSeconds(p: Player, rand: real)
    requires p.audio.currentTime > 3.0
    ensures PlayPrevious(p, rand) == p.(audio := p.audio.(currentTime := 0.0))
  {
  }

  /** On an empty queue, "next" does nothing, and so does "previous" within the first 3 seconds. */
  lemma NextAndPreviousOnEmptyQueue(p: Player, rand: real)
    requires |p.queue| == 0
    ensures PlayNext(p, rand) == p
    ensures p.audio.currentTime <= 3.0 ==> PlayPrevious(p, rand) == p
  {
  }

  /** `Math.floor(Math.random() * n)` lies in `[0, n)`. */
  lemma ShuffleIndexInRange(n: nat, rand: real)
    requires n > 0 && 0.0 <= rand < 1.0
    ensures 0 <= ShuffleIndex(n, rand) < n
  {
    var x := rand * (n as real);
    assert 0.0 <= x by {
      assert 0.0 <= rand && 0.0 < n as real;
    }
    assert x < n as real by {
      assert (1.0 - rand) * (n as real) > 0.0;
    }
  }

  /** Every index of the queue is a possible shuffle target. */
  lemma ShuffleReachesEveryIndex(n: nat, k: nat)
    requires k < n
    ensures exists rand: real :: 0.0 <= rand < 1.0 && ShuffleIndex(n, rand) == k
  {
    var rand := (k as real) / (n as real);
    assert rand * (n as real) == k as real;
    assert ShuffleIndex(n, rand) == k;
  }

  /** With shuffle off, "next" advances by one and wraps from the last entry to the first. */
  lemma NextInOrder(p: Player, rand: real)
    requires Valid(p) && |p.queue| > 0 && !p.isShuffle
    ensures var r := PlayNext(p, rand);
            && r.currentIndex == (p.currentIndex + 1) % |p.queue|
            && (p.currentIndex == |p.queue| - 1 ==> r.currentIndex == 0)
            && (p.currentIndex < |p.queue| - 1 ==> r.currentIndex == p.currentIndex + 1)
            && r.queue == p.queue
            && (p.queue[r.currentIndex].audioUrl != "" ==> r.currentSong == Some(p.queue[r.currentIndex]))
  {
  }

  /** With shuffle off and within 3 seconds, "previous" steps back by one and wraps from the first entry to the last. */
  lemma PreviousInOrder(p: Player, rand: real)
    requires Valid(p) && |p.queue| > 0 && !p.isShuffle && p.audio.currentTime <= 3.0
    ensures var r := PlayPrevious(p, rand);
            && (p.currentIndex > 0 ==> r.currentIndex == p.currentIndex - 1)
            && (p.currentIndex == 0 ==> r.currentIndex == |p.queue| - 1)
            && r.queue == p.queue
            && (p.queue[r.currentIndex].audioUrl != "" ==> r.currentSong == Some(p.queue[r.currentIndex]))
  {
  }

  /** With shuffle on, "next" and "previous" (within 3 seconds) land somewhere in the queue. */
  lemma ShuffledTargetsInRange(p: Player, rand: real)
    requires Valid(p) && |p.queue| > 0 && p.isShuffle && 0.0 <= rand < 1.0
    ensures 0 <= PlayNext(p, rand).currentIndex < |p.queue|
    ensures p.audio.currentTime <= 3.0 ==> 0 <= PlayPrevious(p, rand).currentIndex < |p.queue|
  {
    ShuffleIndexInRange(|p.queue|, rand);
  }

  /**
   * With shuffle off, "previous" right after "next" returns to the entry
   * playing before, provided the entry "next" reached could be played
   * (playing it rewinds the element, so "previous" does not just restart).
   */
  lemma PreviousUndoesNext(p: Player, r1: real, r2: real)
    requires Valid(p) && |p.queue| > 0 && !p.isShuffle
    requires p.queue[NextIndex(p, r1)].audioUrl != ""
    ensures PlayPrevious(PlayNext(p, r1), r2).currentIndex == p.currentIndex
    ensures PlayPrevious(PlayNext(p, r1), r2).queue == p.queue
  {
    var n, c := |p.queue|, p.currentIndex;
    var q := PlayNext(p, r1);
    assert q.audio.currentTime == 0.0;
    if c == n - 1 {
      assert q.currentIndex == 0;
    } else {
      assert q.currentIndex == c + 1;
    }
  }

  /** `toggleRepeat` cycles off → all → one → off, so three presses change nothing. */
  lemma RepeatCycles(p: Player)
    requires 0 <= p.repeatMode < 3
    ensures p.repeatMode == RepeatOff ==> ToggleRepeat(p).repeatMode == RepeatAll
    ensures p.repeatMode == RepeatAll ==> ToggleRepeat(p).repeatMode == RepeatOne
    ensures p.repeatMode == RepeatOne ==> ToggleRepeat(p).repeatMode == RepeatOff
    ensures ToggleRepeat(ToggleRepeat(ToggleRepeat(p))) == p
  {
  }

  /** Shuffle and mute each flip their own flag and nothing else: queue order, pointer and volume stay. */
  lemma TogglesFlipOnlyTheirFlag(p: Player)
    ensures ToggleShuffle(p).isShuffle == !p.isShuffle
    ensures ToggleShuffle(p).(isShuffle := p.isShuffle) == p
    ensures ToggleMute(p).isMuted == !p.isMuted && ToggleMute(p).audio.muted == !p.isMuted
    ensures ToggleMute(p).(isMuted := p.isMuted, audio := p.audio) == p
    ensures ToggleMute(p).volume == p.volume && ToggleMute(p).audio.volume == p.audio.volume
  {
  }

  /**
   * The two panels are never open together; opening one closes the other,
   * and toggling an open one closes it without opening the other.
   */
  lemma PanelsExclusive(p: Player)
    requires !(p.queueOpen && p.lyricsOpen)
    ensures !(ToggleQueue(p).queueOpen && ToggleQueue(p).lyricsOpen)
    ensures !(ToggleLyrics(p).queueOpen && ToggleLyrics(p).lyricsOpen)
    ensures !p.queueOpen ==> ToggleQueue(p).queueOpen && !ToggleQueue(p).lyricsOpen
    ensures !p.lyricsOpen ==> ToggleLyrics(p).lyricsOpen && !ToggleLyrics(p).queueOpen
    ensures p.queueOpen ==> !ToggleQueue(p).queueOpen && !ToggleQueue(p).lyricsOpen
    ensures p.lyricsOpen ==> !ToggleLyrics(p).lyricsOpen && !ToggleLyrics(p).queueOpen
  {
  }

  /** The end-of-track policy with shuffle off, mode by mode. */
  lemma EndedPolicy(p: Player, rand: real)
    requires Valid(p) && !p.isShuffle
    ensures var r := OnEnded(p, rand);
            var n, c := |p.queue|, p.currentIndex;
            && (p.repeatMode == RepeatOne ==>
                  r == p.(audio := p.audio.(currentTime := 0.0, paused := false)))
            && (p.repeatMode == RepeatAll && n > 0 ==> r.currentIndex == (c + 1) % n)
            && (p.repeatMode == RepeatAll && n > 0 && c == n - 1 ==> r.currentIndex == 0)
            && (p.repeatMode == RepeatOff && n > 0 && c == n - 1 ==> r == p)
            && (p.repeatMode == RepeatOff && c < n - 1 ==> r.currentIndex == c + 1)
            && (p.repeatMode != RepeatOne && n == 0 ==> r == p)
  {
  }

  /** `setVolume` clamps into `[0, 1]` and always unmutes. */
  lemma SetVolumeClampsAndUnmutes(p: Player, ratio: real)
    ensures var r := SetVolume(p, ratio);
            && 0.0 <= r.volume <= 1.0
            && (0.0 <= ratio <= 1.0 ==> r.volume == ratio)
            && !r.isMuted && !r.audio.muted && r.audio.volume == r.volume
            && r.queue == p.queue && r.currentIndex == p.currentIndex
    ensures Save(SetVolume(p, ratio)).volume == Some(SetVolume(p, ratio).volume)
  {
  }

  /** Muting and then setting the volume to 0.7 leaves the player unmuted at 0.7; muting alone keeps the volume. */
  lemma MuteThenSetVolume(p: Player)
    ensures SetVolume(ToggleMute(p), 0.7).volume == 0.7
    ensures !SetVolume(ToggleMute(p), 0.7).isMuted
    ensures ToggleMute(p).volume == p.volume
  {
  }

  /** The arrow keys step the volume by 0.1 within `[0, 1]` and leave mute alone. */
  lemma VolumeKeys(p: Player, tag: string, rand: real)
    requires Valid(p) && tag != "INPUT" && tag != "TEXTAREA"
    ensures var up := HandleKeyboard(p, tag, "ArrowUp", rand);
            && up.volume == (if p.volume + 0.1 <= 1.0 then p.volume + 0.1 else 1.0)
            && up.audio.volume == up.volume && up.isMuted == p.isMuted && up.audio.muted == p.audio.muted
    ensures var down := HandleKeyboard(p, tag, "ArrowDown", rand);
            && down.volume == (if p.volume - 0.1 >= 0.0 then p.volume - 0.1 else 0.0)
            && down.audio.volume == down.volume && down.isMuted == p.isMuted
    ensures 0.0 <= HandleKeyboard(p, tag, "ArrowUp", rand).volume <= 1.0
    ensures 0.0 <= HandleKeyboard(p, tag, "ArrowDown", rand).volume <= 1.0
  {
  }

  /** Keys typed into a text field are ignored; the seek keys move 5 seconds within the track. */
  lemma SeekKeys(p: Player, tag: string, code: string, rand: real)
    requires Valid(p)
    ensures (tag == "INPUT" || tag == "TEXTAREA") ==> HandleKeyboard(p, tag, code, rand) == p
    ensures tag != "INPUT" && tag != "TEXTAREA" ==>
              var back := HandleKeyboard(p, tag, "ArrowLeft", rand);
              back.audio.currentTime == (if p.audio.currentTime >= 5.0 then p.audio.currentTime - 5.0 else 0.0)
              && back.audio.src == p.audio.src
    ensures tag != "INPUT" && tag != "TEXTAREA" && p.audio.duration.Num? ==>
              var fwd := HandleKeyboard(p, tag, "ArrowRight", rand);
              fwd.audio.currentTime <= p.audio.duration.value
              && fwd.audio.currentTime <= p.audio.currentTime + 5.0
              && (p.audio.currentTime + 5.0 <= p.audio.duration.value ==> fwd.audio.currentTime == p.audio.currentTime + 5.0)
    ensures tag != "INPUT" && tag != "TEXTAREA" && p.audio.duration.NaN? ==>
              HandleKeyboard(p, tag, "ArrowRight", rand) == p
  {
  }

  /** An album or playlist with an in-range start index replaces the queue, points at the start and plays it. */
  lemma PlayCollectionLoads(p: Player, songs: seq<Song>, startIndex: int)
    requires Valid(p) && 0 <= startIndex < |songs|
    ensures var r := PlayCollection(p, songs, startIndex);
            && Valid(r) && r.queue == songs && r.currentIndex == startIndex
            && (songs[startIndex].audioUrl != "" ==> r.currentSong == Some(songs[startIndex]))
  {
  }

  /**
   * The start index is not checked: outside the songs it breaks the pointer
   * invariant, and `queue[startIndex]` is `undefined`, so nothing plays.
   */
  lemma PlayCollectionUncheckedStart(p: Player, songs: seq<Song>, startIndex: int)
    requires |songs| > 0 && !(0 <= startIndex < |songs|)
    ensures var r := PlayCollection(p, songs, startIndex);
            !Valid(r) && r.queue == songs && r.currentSong == p.currentSong && r.audio == p.audio
  {
  }

  /** `formatTime` prints "0:00" for NaN, and otherwise whole minutes and seconds that read back as `Math.floor(seconds)`. */
  lemma FormatTimeReadsBack(seconds: real)
    requires seconds >= 0.0
    ensures ParseClock(FormatTime(Num(seconds))) == Some(Floor(seconds))
    ensures FormatTime(NaN) == "0:00"
  {
    MinutesSecondsOfNonNegative(seconds);
  }

  lemma {:induction false} BreakLinesPrefix(s: string)
    requires s != [] && s[0] != '\n'
    ensures BreakLines(s) == [s[0]] + BreakLines(s[1..])
  {
  }

  lemma BreakLinesHead(s: string)
    requires s != []
    ensures |BreakLines(s)| > 0
    ensures BreakLines(s)[0] == (if s[0] == '\n' then '<' else s[0])
  {
  }

  lemma {:induction false} NoBreakTagAtFront(s: string)
    requires s != [] && s[0] != '\n' && !("<br>" <= s)
    ensures !("<br>" <= BreakLines(s))
  {
    var t := BreakLines(s);
    if s[0] == '<' && |s| >= 2 {
      var t1 := BreakLines(s[1..]);
      BreakLinesHead(s[1..]);
      assert t[1] == t1[0];
      if s[1] == 'b' && |s| >= 3 {
        var t2 := BreakLines(s[2..]);
        BreakLinesHead(s[2..]);
        assert t1 == [s[1]] + t2;
        assert t[2] == t2[0];
        if s[2] == 'r' && |s| >= 4 {
          var t3 := BreakLines(s[3..]);
          BreakLinesHead(s[3..]);
          assert t2 == [s[2]] + t3;
          assert t[3] == t3[0];
          assert s[..4] == [s[0], s[1], s[2], s[3]];
        }
      }
    }
  }

  /** The newline-to-`<br>` markup loses nothing: lyrics without a literal `<br>` come back unchanged. */
  lemma {:induction false} BreakLinesRoundTrip(s: string)
    requires !Contains(s, "<br>")
    ensures JoinLines(BreakLines(s)) == s
  {
    if s != [] {
      assert !Contains(s[1..], "<br>");
      BreakLinesRoundTrip(s[1..]);
      if s[0] == '\n' {
        var t := BreakLines(s);
        assert t == "<br>" + BreakLines(s[1..]);
        assert t[4..] == BreakLines(s[1..]);
      } else {
        NoBreakTagAtFront(s);
        var t := BreakLines(s);
        assert t[1..] == BreakLines(s[1..]);
      }
    }
  }

  /** Pointing at an entry of the queue and playing it keeps the invariant. */
  lemma PointAndPlayPreservesValid(p: Player, k: int)
    requires Valid(p) && 0 <= k < |p.queue|
    ensures Valid(PlaySong(p.(currentIndex := k), SongAt(p.queue, k)))
  {
  }

  /** The next and previous targets stay inside the queue, whether shuffled or not. */
  lemma TargetsInRange(p: Player, rand: real)
    requires Valid(p) && |p.queue| > 0 && 0.0 <= rand < 1.0
    ensures 0 <= NextIndex(p, rand) < |p.queue|
    ensures 0 <= PreviousIndex(p, rand) < |p.queue|
  {
    ShuffleIndexInRange(|p.queue|, rand);
  }

  lemma NextPreservesValid(p: Player, rand: real)
    requires Valid(p) && 0.0 <= rand < 1.0
    ensures Valid(PlayNext(p, rand))
  {
    if |p.queue| > 0 {
      TargetsInRange(p, rand);
      PointAndPlayPreservesValid(p, NextIndex(p, rand));
    }
  }

  lemma PreviousPreservesValid(p: Player, rand: real)
    requires Valid(p) && 0.0 <= rand < 1.0
    ensures Valid(PlayPrevious(p, rand))
  {
    if p.audio.currentTime <= 3.0 && |p.queue| > 0 {
      TargetsInRange(p, rand);
      PointAndPlayPreservesValid(p, PreviousIndex(p, rand));
    }
  }

  lemma EndedPreservesValid(p: Player, rand: real)
    requires Valid(p) && 0.0 <= rand < 1.0
    ensures Valid(OnEnded(p, rand))
  {
    NextPreservesValid(p, rand);
  }

  lemma ApplyKeyPreservesValid(p: Player, cmd: KeyCommand, rand: real)
    requires Valid(p) && 0.0 <= rand < 1.0
    ensures Valid(ApplyKey(p, cmd, rand))
  {
    match cmd
    case NextKey => NextPreservesValid(p, rand);
    case PreviousKey => PreviousPreservesValid(p, rand);
    case PlayPauseKey =>
    case SeekBackKey =>
    case SeekForwardKey =>
    case VolumeUpKey =>
    case VolumeDownKey =>
    case MuteKey =>
    case LyricsKey =>
    case QueueKey =>
  }

  lemma KeyPreservesValid(p: Player, tag: string, code: string, rand: real)
    requires Valid(p) && 0.0 <= rand < 1.0
    ensures Valid(HandleKeyboard(p, tag, code, rand))
  {
    if tag != "INPUT" && tag != "TEXTAREA" && KeyCommandFor(code).Some? {
      ApplyKeyPreservesValid(p, KeyCommandFor(code).value, rand);
    }
  }

  lemma ApplyKeyKeepsQueue(p: Player, cmd: KeyCommand, rand: real)
    ensures ApplyKey(p, cmd, rand).queue == p.queue
  {
    match cmd
    case NextKey =>
    case PreviousKey =>
    case PlayPauseKey =>
    case SeekBackKey =>
    case SeekForwardKey =>
    case VolumeUpKey =>
    case VolumeDownKey =>
    case MuteKey =>
    case LyricsKey =>
    case QueueKey =>
  }

  lemma KeyKeepsQueue(p: Player, tag: string, code: string, rand: real)
    ensures HandleKeyboard(p, tag, code, rand).queue == p.queue
  {
    if tag != "INPUT" && tag != "TEXTAREA" && KeyCommandFor(code).Some? {
      ApplyKeyKeepsQueue(p, KeyCommandFor(code).value, rand);
    }
  }

  /** Only the queue-editing events change the queue. */
  lemma StepKeepsQueue(p: Player, e: Event)
    requires !EditsQueue(e)
    ensures Step(p, e).queue == p.queue
  {
    match e
    case Key(tag, code, rand) => KeyKeepsQueue(p, tag, code, rand);
    case _ =>
  }

  /** Every admissible event keeps the state invariant. */
  lemma StepPreservesValid(p: Player, e: Event)
    requires Valid(p) && Admissible(e)
    ensures Valid(Step(p, e))
  {
    match e
    case Previous(rand) => PreviousPreservesValid(p, rand);
    case Next(rand) => NextPreservesValid(p, rand);
    case Ended(rand) => EndedPreservesValid(p, rand);
    case Key(tag, code, rand) => KeyPreservesValid(p, tag, code, rand);
    case Dequeue(i) =>
      if 0 <= i < |p.queue| {
        RemoveFromQueueEffect(p, i);
      }
    case Collection(songs, k) =>
      if |songs| > 0 {
        PlayCollectionLoads(p, songs, k);
      }
    case _ =>
  }

  /** Any admissible sequence of events, from a valid state, ends in a valid state. */
  lemma {:induction false} RunPreservesValid(p: Player, es: seq<Event>)
    requires Valid(p)
    requires forall i :: 0 <= i < |es| ==> Admissible(es[i])
    ensures Valid(Run(p, es))
    decreases |es|
  {
    if es != [] {
      StepPreservesValid(p, es[0]);
      RunPreservesValid(Step(p, es[0]), es[1..]);
    }
  }

  /** Shuffle, repeat, playback and every other non-editing event leave the queue's contents and order alone. */
  lemma {:induction false} QueueOnlyChangedByEdits(p: Player, es: seq<Event>)
    requires forall i :: 0 <= i < |es| ==> !EditsQueue(es[i])
    ensures Run(p, es).queue == p.queue
    decreases |es|
  {
    if es != [] {
      StepKeepsQueue(p, es[0]);
      QueueOnlyChangedByEdits(Step(p, es[0]), es[1..]);
    }
  }

  /** With repeat-one, any number of track endings replays the same track: pointer, song and source never change. */
  lemma {:induction false} RepeatOneReplaysForever(p: Player, es: seq<Event>)
    requires p.repeatMode == RepeatOne
    requires forall i :: 0 <= i < |es| ==> es[i].Ended?
    ensures var r := Run(p, es);
            && r.currentIndex == p.currentIndex && r.queue == p.queue
            && r.currentSong == p.currentSong && r.audio.src == p.audio.src
            && (es != [] ==> !r.audio.paused)
    decreases |es|
  {
    if es != [] {
      var q := Step(p, es[0]);
      assert q == p.(audio := p.audio.(currentTime := 0.0, paused := false));
      RepeatOneReplaysForever(q, es[1..]);
      if es[1..] == [] {
        assert Run(q, es[1..]) == q;
      }
    }
  }

  /** The wrap-around scenario: three tracks, repeat all, the last one ends, the first one starts. */
  lemma WrapAroundScenario(a: Song, b: Song, c: Song, rand: real)
    requires c.audioUrl != "" && a.audioUrl != ""
    ensures var p0 := Run(Initial(), [Enqueue(Some(a)), Enqueue(Some(b)), Enqueue(Some(c)), PlayQueued(2), Repeat]);
            var p1 := Step(p0, Ended(rand));
            && p0.currentIndex == 2 && p0.repeatMode == RepeatAll && p0.currentSong == Some(c)
            && p1.currentIndex == 0 && p1.currentSong == Some(a) && p1.audio.src == a.audioUrl
  {
    var es := [Enqueue(Some(a)), Enqueue(Some(b)), Enqueue(Some(c)), PlayQueued(2), Repeat];
    var s1 := Step(Initial(), es[0]);
    var s2 := Step(s1, es[1]);
    var s3 := Step(s2, es[2]);
    var s4 := Step(s3, es[3]);
    var s5 := Step(s4, es[4]);
    assert Run(Initial(), es) == Run(s1, es[1..]);
    assert Run(s1, es[1..]) == Run(s2, es[2..]);
    assert Run(s2, es[2..]) == Run(s3, es[3..]);
    assert Run(s3, es[3..]) == Run(s4, es[4..]);
    assert Run(s4, es[4..]) == Run(s5, es[5..]);
    assert s3.queue == [a, b, c];
  }

  /** Pressing "previous" 5 seconds into the second of three tracks restarts it; pressed again, it moves to the first. */
  lemma PreviousScenario(p: Player, rand: real)
    requires Valid(p) && |p.queue| == 3 && p.currentIndex == 1 && !p.isShuffle
    requires p.audio.currentTime == 5.0
    ensures PlayPrevious(p, rand).currentIndex == 1 && PlayPrevious(p, rand).audio.currentTime == 0.0
    ensures PlayPrevious(PlayPrevious(p, rand), rand).currentIndex == 0
  {
  }
}
