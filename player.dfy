/**
 * The `MusicPlayer` object of the player script as a class: the same
 * fields, updated in place by methods that follow the script's own
 * statements. Each method is tied to the pure transition of `PlayerSpec`
 * that it implements, so every property proved there holds of the object.
 */
module PlayerObject {
  import opened Wrappers
  import opened Clock
  import PlayerSpec

  /** The browser's `localStorage`, restricted to the two keys the player uses. */
  class LocalStorage {
    var volume: Option<real>
    var queue: Option<seq<PlayerSpec.Song>>

    /** Storage in which neither key has been written. */
    constructor Empty()
      ensures Contents() == PlayerSpec.Stored(None, None)
    {
      volume := None;
      queue := None;
    }

    function Contents(): PlayerSpec.Stored
      reads this
    {
      PlayerSpec.Stored(volume, queue)
    }
  }

  class MusicPlayer {
    var audio: PlayerSpec.Audio
    var isPlaying: bool
    var isShuffle: bool
    var repeatMode: int
    var currentIndex: int
    var queue: seq<PlayerSpec.Song>
    var volume: real
    var isMuted: bool
    var currentSong: Option<PlayerSpec.Song>
    var queueOpen: bool
    var lyricsOpen: bool
    const storage: LocalStorage

    /** The object's fields as one value of the pure model. */
    function Snapshot(): PlayerSpec.Player
      reads this
    {
      PlayerSpec.Player(audio, isPlaying, isShuffle, repeatMode, currentIndex, queue,
                        volume, isMuted, currentSong, queueOpen, lyricsOpen)
    }

    ghost predicate Valid()
      reads this
    {
      PlayerSpec.Valid(Snapshot())
    }

    /** `new MusicPlayer()`: the initial fields, then `loadFromStorage()`. */
    constructor (storage: LocalStorage)
      requires PlayerSpec.StoredValid(storage.Contents())
      ensures this.storage == storage
      ensures Snapshot() == PlayerSpec.LoadFromStorage(PlayerSpec.Initial(), storage.Contents())
      ensures Valid()
    {
      this.storage := storage;
      audio := PlayerSpec.FreshAudio;
      isPlaying := false;
      isShuffle := false;
      repeatMode := PlayerSpec.RepeatOff;
      currentIndex := 0;
      queue := [];
      volume := 1.0;
      isMuted := false;
      currentSong := None;
      queueOpen := false;
      lyricsOpen := false;
      new;
      LoadFromStorage();
      PlayerSpec.ConstructedIsValid(storage.Contents());
    }

    /** `loadFromStorage()`. */
    method LoadFromStorage()
      modifies this
      ensures Snapshot() == PlayerSpec.LoadFromStorage(old(Snapshot()), storage.Contents())
    {
      var savedVolume := storage.volume;
      if savedVolume.Some? {
        volume := savedVolume.value;
        audio := audio.(volume := volume);
      }
      var savedQueue := storage.queue;
      if savedQueue.Some? {
        queue := savedQueue.value;
      }
    }

    /** `saveToStorage()`. */
    method SaveToStorage()
      modifies storage
      ensures storage.Contents() == PlayerSpec.Save(Snapshot())
    {
      storage.volume := Some(volume);
      storage.queue := Some(queue);
    }

    /**
     * `playSong(song)`. It demands nothing of the pointer: `playAlbum`
     * calls it after setting an unchecked start index.
     */
    method PlaySong(song: Option<PlayerSpec.Song>)
      modifies this
      ensures Snapshot() == PlayerSpec.PlaySong(old(Snapshot()), song)
      ensures old(Valid()) ==> Valid()
    {
      if !PlayerSpec.Playable(song) {
        return;
      }
      currentSong := song;
      audio := audio.(src := song.value.audioUrl, currentTime := 0.0, duration := NaN);
      audio := audio.(paused := false);
    }

    /** `addToQueue(song)`. */
    method AddToQueue(song: Option<PlayerSpec.Song>)
      requires Valid()
      modifies this, storage
      ensures Valid()
      ensures Snapshot() == PlayerSpec.AddToQueue(old(Snapshot()), song)
      ensures song.Some? ==> storage.Contents() == PlayerSpec.Save(Snapshot())
      ensures song.None? ==> storage.Contents() == old(storage.Contents())
    {
      if song.None? {
        return;
      }
      queue := queue + [song.value];
      SaveToStorage();
    }

    /** `playFromQueue(index)`. */
    method PlayFromQueue(index: int)
      requires Valid()
      modifies this
      ensures Valid()
      ensures Snapshot() == PlayerSpec.PlayFromQueue(old(Snapshot()), index)
    {
      if index < 0 || index >= |queue| {
        return;
      }
      currentIndex := index;
      PlaySong(Some(queue[index]));
    }

    /** `removeFromQueue(index)`. */
    method RemoveFromQueue(index: int)
      requires Valid()
      modifies this, storage
      ensures Valid()
      ensures Snapshot() == PlayerSpec.RemoveFromQueue(old(Snapshot()), index)
      ensures 0 <= index < old(|queue|) ==> storage.Contents() == PlayerSpec.Save(Snapshot())
      ensures !(0 <= index < old(|queue|)) ==> storage.Contents() == old(storage.Contents())
    {
      if index < 0 || index >= |queue| {
        return;
      }
      PlayerSpec.RemoveFromQueueEffect(Snapshot(), index);
      queue := queue[..index] + queue[index + 1..];
      if currentIndex >= index && currentIndex > 0 {
        currentIndex := currentIndex - 1;
      }
      SaveToStorage();
    }

    /** `clearQueue()`. */
    method ClearQueue()
      requires Valid()
      modifies this, storage
      ensures Valid()
      ensures Snapshot() == PlayerSpec.ClearQueue(old(Snapshot()))
      ensures storage.Contents() == PlayerSpec.Save(Snapshot())
    {
      queue := [];
      currentIndex := 0;
      SaveToStorage();
    }

    /** `togglePlay()`: the media element's `pause()` or `play()`. */
    method TogglePlay()
      requires Valid()
      modifies this
      ensures Valid()
      ensures Snapshot() == PlayerSpec.TogglePlay(old(Snapshot()))
    {
      if isPlaying {
        audio := audio.(paused := true);
      } else {
        audio := audio.(paused := false);
      }
    }

    /** `playPrevious()`, with `rand` the value `Math.random()` returns. */
    method PlayPrevious(rand: real)
      requires Valid() && 0.0 <= rand < 1.0
      modifies this
      ensures Valid()
      ensures Snapshot() == PlayerSpec.PlayPrevious(old(Snapshot()), rand)
    {
      PlayerSpec.PreviousPreservesValid(Snapshot(), rand);
      if audio.currentTime > 3.0 {
        audio := audio.(currentTime := 0.0);
        return;
      }
      if |queue| == 0 {
        return;
      }
      if isShuffle {
        currentIndex := PlayerSpec.ShuffleIndex(|queue|, rand);
      } else {
        currentIndex := if currentIndex > 0 then currentIndex - 1 else |queue| - 1;
      }
      PlaySong(PlayerSpec.SongAt(queue, currentIndex));
    }

    /** `playNext()`, with `rand` the value `Math.random()` returns. */
    method PlayNext(rand: real)
      requires Valid() && 0.0 <= rand < 1.0
      modifies this
      ensures Valid()
      ensures Snapshot() == PlayerSpec.PlayNext(old(Snapshot()), rand)
    {
      PlayerSpec.NextPreservesValid(Snapshot(), rand);
      if |queue| == 0 {
        return;
      }
      if isShuffle {
        currentIndex := PlayerSpec.ShuffleIndex(|queue|, rand);
      } else {
        currentIndex := PlayerSpec.IntRemainder(currentIndex + 1, |queue|);
      }
      PlaySong(PlayerSpec.SongAt(queue, currentIndex));
    }

    /** `toggleShuffle()`. */
    method ToggleShuffle()
      requires Valid()
      modifies this
      ensures Valid()
      ensures Snapshot() == PlayerSpec.ToggleShuffle(old(Snapshot()))
    {
      isShuffle := !isShuffle;
    }

    /** `toggleRepeat()`. */
    method ToggleRepeat()
      requires Valid()
      modifies this
      ensures Valid()
      ensures Snapshot() == PlayerSpec.ToggleRepeat(old(Snapshot()))
    {
      repeatMode := PlayerSpec.IntRemainder(repeatMode + 1, 3);
    }

    /** `toggleMute()`; the icon it shows is `PlayerSpec.VolumeIconFor` of the new state. */
    method ToggleMute() returns (icon: PlayerSpec.VolumeIcon)
      requires Valid()
      modifies this
      ensures Valid()
      ensures Snapshot() == PlayerSpec.ToggleMute(old(Snapshot()))
      ensures icon == PlayerSpec.VolumeIconFor(isMuted, volume)
    {
      isMuted := !isMuted;
      audio := audio.(muted := isMuted);
      icon := PlayerSpec.VolumeIconFor(isMuted, volume);
    }

    /** `toggleQueue()`. */
    method ToggleQueue()
      requires Valid()
      modifies this
      ensures Valid()
      ensures Snapshot() == PlayerSpec.ToggleQueue(old(Snapshot()))
    {
      queueOpen := !queueOpen;
      if queueOpen {
        lyricsOpen := false;
      }
    }

    /** `toggleLyrics()`. */
    method ToggleLyrics()
      requires Valid()
      modifies this
      ensures Valid()
      ensures Snapshot() == PlayerSpec.ToggleLyrics(old(Snapshot()))
    {
      lyricsOpen := !lyricsOpen;
      if lyricsOpen {
        queueOpen := false;
      }
    }

    /** `setVolume(e)`, given the click position as a ratio of the slider's width. */
    method SetVolume(ratio: real) returns (icon: PlayerSpec.VolumeIcon)
      requires Valid()
      modifies this, storage
      ensures Valid()
      ensures Snapshot() == PlayerSpec.SetVolume(old(Snapshot()), ratio)
      ensures storage.Contents() == PlayerSpec.Save(Snapshot())
      ensures icon == PlayerSpec.VolumeIconFor(isMuted, volume)
    {
      volume := PlayerSpec.Clamp01(ratio);
      audio := audio.(volume := volume);
      isMuted := false;
      audio := audio.(muted := false);
      icon := PlayerSpec.VolumeIconFor(isMuted, volume);
      SaveToStorage();
    }

    /** `onEnded()`. */
    method OnEnded(rand: real)
      requires Valid() && 0.0 <= rand < 1.0
      modifies this
      ensures Valid()
      ensures Snapshot() == PlayerSpec.OnEnded(old(Snapshot()), rand)
    {
      if repeatMode == PlayerSpec.RepeatOne {
        audio := audio.(currentTime := 0.0);
        audio := audio.(paused := false);
      } else if |queue| > 0 {
        if repeatMode == PlayerSpec.RepeatAll || currentIndex < |queue| - 1 {
          PlayNext(rand);
        }
      }
    }

    /** `onPlay()`. */
    method OnPlay()
      requires Valid()
      modifies this
      ensures Valid()
      ensures Snapshot() == PlayerSpec.OnPlay(old(Snapshot()))
    {
      isPlaying := true;
    }

    /** `onPause()`. */
    method OnPause()
      requires Valid()
      modifies this
      ensures Valid()
      ensures Snapshot() == PlayerSpec.OnPause(old(Snapshot()))
    {
      isPlaying := false;
    }

    /** `onMetadataLoaded()`: the element now knows `duration`; the total-time label shows it. */
    method OnMetadataLoaded(duration: real) returns (totalTime: string)
      requires Valid() && 0.0 <= duration
      modifies this
      ensures Valid()
      ensures Snapshot() == PlayerSpec.OnMetadataLoaded(old(Snapshot()), duration)
      ensures totalTime == PlayerSpec.FormatTime(Num(duration))
    {
      audio := audio.(duration := Num(duration));
      totalTime := PlayerSpec.FormatTime(audio.duration);
    }

    /** `onTimeUpdate()`: the element reports position `time`; the elapsed-time label shows it. */
    method OnTimeUpdate(time: real) returns (currentTime: string)
      requires Valid() && 0.0 <= time
      modifies this
      ensures Valid()
      ensures Snapshot() == PlayerSpec.OnTimeUpdate(old(Snapshot()), time)
      ensures currentTime == PlayerSpec.FormatTime(Num(time))
    {
      audio := audio.(currentTime := time);
      currentTime := PlayerSpec.FormatTime(Num(audio.currentTime));
    }

    /** `handleKeyboard(e)` for the key `code` pressed on an element with tag `targetTag`. */
    method HandleKeyboard(targetTag: string, code: string, rand: real)
      requires Valid() && 0.0 <= rand < 1.0
      modifies this
      ensures Valid()
      ensures Snapshot() == PlayerSpec.HandleKeyboard(old(Snapshot()), targetTag, code, rand)
      ensures storage.Contents() == old(storage.Contents())
    {
      if targetTag == "INPUT" || targetTag == "TEXTAREA" {
        return;
      }
      var cmd := PlayerSpec.KeyCommandFor(code);
      if cmd.None? {
        return;
      }
      match cmd.value {
        case PlayPauseKey =>
          TogglePlay();
        case SeekBackKey =>
          audio := audio.(currentTime := PlayerSpec.Max(0.0, audio.currentTime - 5.0));
        case SeekForwardKey =>
          if audio.duration.Num? {
            audio := audio.(currentTime := PlayerSpec.Min(audio.duration.value, audio.currentTime + 5.0));
          }
        case VolumeUpKey =>
          volume := PlayerSpec.Min(1.0, volume + 0.1);
          audio := audio.(volume := volume);
        case VolumeDownKey =>
          volume := PlayerSpec.Max(0.0, volume - 0.1);
          audio := audio.(volume := volume);
        case MuteKey =>
          var _ := ToggleMute();
        case NextKey =>
          PlayNext(rand);
        case PreviousKey =>
          PlayPrevious(rand);
        case LyricsKey =>
          ToggleLyrics();
        case QueueKey =>
          ToggleQueue();
      }
    }
  }

  /**
   * The queue handling of the global `playAlbum` and `playPlaylist` once
   * the songs have arrived: clear the queue, push each song, point at the
   * start index, play that entry and save.
   */
  method PlayCollection(player: MusicPlayer, songs: seq<PlayerSpec.Song>, startIndex: int)
    requires player.Valid()
    modifies player, player.storage
    ensures player.Snapshot() == PlayerSpec.PlayCollection(old(player.Snapshot()), songs, startIndex)
    ensures |songs| > 0 ==> player.storage.Contents() == PlayerSpec.Save(player.Snapshot())
    ensures |songs| == 0 ==> player.storage.Contents() == old(player.storage.Contents())
    ensures (|songs| == 0 || 0 <= startIndex < |songs|) ==> player.Valid()
  {
    if |songs| == 0 {
      return;
    }
    ghost var before := player.Snapshot();
    player.ClearQueue();
    ghost var cleared := player.Snapshot();
    var i := 0;
    while i < |songs|
      invariant 0 <= i <= |songs|
      invariant player.Snapshot() == cleared.(queue := songs[..i])
    {
      player.queue := player.queue + [songs[i]];
      i := i + 1;
      assert songs[..i] == songs[..i - 1] + [songs[i - 1]];
    }
    assert songs[..|songs|] == songs;
    player.currentIndex := startIndex;
    player.PlaySong(PlayerSpec.SongAt(player.queue, startIndex));
    player.SaveToStorage();
    if 0 <= startIndex < |songs| {
      PlayerSpec.PlayCollectionLoads(before, songs, startIndex);
    }
  }

  /** A track added to the queue is still there, last, when the page is opened again on the same storage. */
  method EnqueueThenReload(storage: LocalStorage, song: PlayerSpec.Song) returns (reopened: MusicPlayer)
    requires PlayerSpec.StoredValid(storage.Contents())
    modifies storage
    ensures |reopened.queue| > 0 && reopened.queue[|reopened.queue| - 1] == song
  {
    var player := new MusicPlayer(storage);
    player.AddToQueue(Some(song));
    PlayerSpec.ReloadRestoresQueueAndVolume(player.Snapshot());
    reopened := new MusicPlayer(storage);
  }
}
