/**
 * The shared page script: the duration formatter of the song lists and the
 * reader that turns a song card's `data-*` attributes into a track record.
 */
module Site {
  import opened Wrappers
  import opened Text
  import opened Clock
  import PlayerSpec
  import FileHelper

  /** `formatDuration(seconds)`: "0:00" for any falsy or NaN value, otherwise `m:ss`. */
  function FormatDuration(seconds: JsNumber): string {
    if seconds.NaN? || seconds.value == 0.0 then "0:00" else MinutesSecondsText(seconds.value)
  }

  /** The track record a card yields; `None` fields are the ones `parseInt` or a missing attribute leave undefined. */
  datatype CardSong = CardSong(id: Option<int>, title: string, artistName: string,
                               audioUrl: Option<string>, coverImageUrl: string, duration: int)

  const DefaultCover := "/uploads/covers/default-song.jpg"

  /** `element.dataset[key]`, with "" for a missing attribute (both are falsy). */
  function Field(data: map<string, string>, key: string): string {
    if key in data then data[key] else ""
  }

  /** `value || fallback` for a string. */
  function OrDefault(value: string, fallback: string): (r: string)
    ensures r == value || r == fallback
    ensures r == fallback <==> value == "" || value == fallback
  {
    if value == "" then fallback else value
  }

  /** `getSongDataFromElement(element)`, given the element's dataset. */
  function GetSongDataFromElement(data: map<string, string>): Option<CardSong> {
    if Field(data, "songId") == "" then None
    else
      Some(CardSong(
        ParseInt(data["songId"]),
        OrDefault(Field(data, "songTitle"), "Unknown"),
        OrDefault(Field(data, "artistName"), "Unknown Artist"),
        if "audioUrl" in data then Some(data["audioUrl"]) else None,
        OrDefault(Field(data, "coverUrl"), DefaultCover),
        // parseInt(...) || 0: NaN and 0 both give 0.
        ParseInt(Field(data, "duration")).GetOr(0)))
  }

  /** The dataset a song card carries for a song, as the list pages render it. */
  function CardDataset(id: int, title: string, artistName: string, audioUrl: string,
                       coverUrl: string, duration: int): map<string, string>
  {
    map["songId" := IntToString(id), "songTitle" := title, "artistName" := artistName,
        "audioUrl" := audioUrl, "coverUrl" := coverUrl, "duration" := IntToString(duration)]
  }

  // ---------------------------------------------------------------------------
  // Lemmas

  /** The page formatter and the player's `formatTime` print every value alike. */
  lemma FormatDurationMatchesPlayer(seconds: JsNumber)
    ensures FormatDuration(seconds) == PlayerSpec.FormatTime(seconds)
  {
    if seconds.Num? && seconds.value == 0.0 {
      assert Floor(0.0 / 60.0) == 0;
      assert JsRemainder(0.0, 60.0) == 0.0;
      assert NatToString(0) == "0";
    }
  }

  /** A non-negative duration prints as whole minutes and seconds that read back as its floor. */
  lemma FormatDurationReadsBack(seconds: real)
    requires seconds >= 0.0
    ensures var m := Floor(seconds / 60.0);
            FormatDuration(Num(seconds)) == MinSec(m, Floor(seconds) - 60 * m)
    ensures ParseClock(FormatDuration(Num(seconds))) == Some(Floor(seconds))
    ensures FormatDuration(NaN) == "0:00"
  {
    MinutesSecondsOfNonNegative(seconds);
    FormatDurationMatchesPlayer(Num(seconds));
    PlayerSpec.FormatTimeReadsBack(seconds);
  }

  lemma WholeMinutes(s: nat)
    ensures Floor(s as real / 60.0) == s / 60
    ensures Floor(s as real) == s
  {
    var q, r := s / 60, s % 60;
    assert s == 60 * q + r;
    assert s as real / 60.0 == q as real + r as real / 60.0;
    assert 0.0 <= r as real / 60.0 < 1.0;
  }

  /** A whole number of seconds prints on the page as its minutes and remaining seconds. */
  lemma PageWholeSeconds(s: nat)
    ensures FormatDuration(Num(s as real)) == MinSec(s / 60, s % 60)
  {
    WholeMinutes(s);
    MinutesSecondsOfNonNegative(s as real);
    if s == 0 {
      assert NatToString(0) == "0";
    }
  }

  /** Under an hour the server's formatter has no hour field. */
  lemma ServerUnderAnHour(s: nat)
    requires s < 3600
    ensures FileHelper.FormatDuration(s) == MinSec(s / 60, s % 60)
  {
    assert FileHelper.HoursOfDay(s) == 0;
    assert FileHelper.MinutesOf(s) == s / 60;
  }

  /** Under an hour, the page and the server print a whole number of seconds the same way. */
  lemma FormatDurationMatchesServer(s: nat)
    requires s < 3600
    ensures FormatDuration(Num(s as real)) == FileHelper.FormatDuration(s)
  {
    PageWholeSeconds(s);
    ServerUnderAnHour(s);
  }

  /** A card yields no song exactly when its song id is missing or empty. */
  lemma SongDataNeedsId(data: map<string, string>)
    ensures GetSongDataFromElement(data).None? <==> !("songId" in data) || data["songId"] == ""
  {
  }

  /** Missing or empty attributes fall back to the defaults; present ones are passed through. */
  lemma SongDataDefaults(data: map<string, string>)
    requires "songId" in data && data["songId"] != ""
    ensures var r := GetSongDataFromElement(data).value;
            && (Field(data, "songTitle") == "" ==> r.title == "Unknown")
            && (Field(data, "songTitle") != "" ==> r.title == data["songTitle"])
            && (Field(data, "artistName") == "" ==> r.artistName == "Unknown Artist")
            && (Field(data, "artistName") != "" ==> r.artistName == data["artistName"])
            && (Field(data, "coverUrl") == "" ==> r.coverImageUrl == DefaultCover)
            && (Field(data, "coverUrl") != "" ==> r.coverImageUrl == data["coverUrl"])
            && ("audioUrl" !in data <==> r.audioUrl.None?)
            && (ParseInt(Field(data, "duration")).None? ==> r.duration == 0)
  {
  }

  /** The attributes of a rendered card, one by one. */
  lemma CardFields(id: int, title: string, artistName: string, audioUrl: string,
                   coverUrl: string, duration: int)
    ensures var data := CardDataset(id, title, artistName, audioUrl, coverUrl, duration);
            && Field(data, "songId") == IntToString(id)
            && Field(data, "songTitle") == title
            && Field(data, "artistName") == artistName
            && "audioUrl" in data && data["audioUrl"] == audioUrl
            && Field(data, "coverUrl") == coverUrl
            && Field(data, "duration") == IntToString(duration)
  {
  }

  /** What the reader makes of a dataset, field by field, once the id is present. */
  lemma SongDataFields(data: map<string, string>)
    requires Field(data, "songId") != ""
    ensures GetSongDataFromElement(data) == Some(CardSong(
              ParseInt(Field(data, "songId")),
              OrDefault(Field(data, "songTitle"), "Unknown"),
              OrDefault(Field(data, "artistName"), "Unknown Artist"),
              if "audioUrl" in data then Some(data["audioUrl"]) else None,
              OrDefault(Field(data, "coverUrl"), DefaultCover),
              ParseInt(Field(data, "duration")).GetOr(0)))
  {
  }

  /** Reading a rendered card gives back the song it was rendered from. */
  lemma SongDataOfRenderedCard(id: int, title: string, artistName: string, audioUrl: string,
                               coverUrl: string, duration: int)
    requires title != "" && artistName != "" && coverUrl != ""
    ensures GetSongDataFromElement(CardDataset(id, title, artistName, audioUrl, coverUrl, duration))
         == Some(CardSong(Some(id), title, artistName, Some(audioUrl), coverUrl, duration))
  {
    var data := CardDataset(id, title, artistName, audioUrl, coverUrl, duration);
    CardFields(id, title, artistName, audioUrl, coverUrl, duration);
    ParseIntOfIntToString(id);
    ParseIntOfIntToString(duration);
    SongDataFields(data);
  }
}
