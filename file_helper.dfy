/**
 * The server's file helper: the decisions of the upload, save and delete
 * operations (which file is written or removed, and the URL handed back),
 * and the two display formatters used for durations and counters.
 */
module FileHelper {
  import opened Wrappers
  import opened Text
  import opened Clock

  // ---------------------------------------------------------------------------
  // Paths

  /** The directory separators `Path.GetExtension` stops at. */
  predicate IsSeparator(c: char) {
    c == '/' || c == '\\'
  }

  /** No dot and no separator: a file name without an extension, or the part of an extension after its dot. */
  predicate PlainName(s: string) {
    forall i :: 0 <= i < |s| ==> s[i] != '.' && !IsSeparator(s[i])
  }

  /** What `Path.GetExtension` can return: nothing, or a dot followed by a non-empty plain name. */
  predicate ExtensionShaped(e: string) {
    e == "" || (|e| >= 2 && e[0] == '.' && PlainName(e[1..]))
  }

  /**
   * The scan `Path.GetExtension` makes from the end of `path`, with `tail`
   * the characters already passed: a dot ends it with the extension, a
   * separator or the start of the path with none, and a dot that ends the
   * name gives none either.
   */
  function ExtensionScan(path: string, tail: string): (ext: string)
    requires PlainName(tail)
    ensures ExtensionShaped(ext)
    ensures |ext| <= |path| + |tail| && ext == (path + tail)[|path| + |tail| - |ext|..]
    decreases |path|
  {
    if path == [] then ""
    else
      var c := path[|path| - 1];
      var init := path[..|path| - 1];
      assert init + ([c] + tail) == path + tail;
      if c == '.' then (if tail == "" then "" else assert ("." + tail)[1..] == tail; "." + tail)
      else if IsSeparator(c) then ""
      else ExtensionScan(init, [c] + tail)
  }

  /** `Path.GetExtension(path)`: from the last dot of the file name on; "" when there is none or the dot ends the name. */
  function GetExtension(path: string): (ext: string)
    ensures ExtensionShaped(ext)
    ensures |ext| <= |path| && ext == path[|path| - |ext|..]
  {
    assert path + "" == path;
    ExtensionScan(path, "")
  }

  /** `s.TrimStart(c)`. */
  function TrimStart(s: string, c: char): (r: string)
    ensures |r| <= |s| && r == s[|s| - |r|..]
    ensures r != [] ==> r[0] != c
  {
    if s != [] && s[0] == c then TrimStart(s[1..], c) else s
  }

  /** `s.Replace(from, to)` for single characters. */
  function Replace(s: string, from: char, to: char): (r: string)
    ensures |r| == |s|
    ensures forall i :: 0 <= i < |s| ==> r[i] == if s[i] == from then to else s[i]
  {
    seq(|s|, i requires 0 <= i < |s| => if s[i] == from then to else s[i])
  }

  /**
   * `Path.Combine(a, b)` with directory separator `sep`: `b` alone when it
   * is rooted or `a` is empty, otherwise joined by one separator.
   */
  function Combine(a: string, b: string, sep: char): string {
    if b == "" then a
    else if a == "" || b[0] == sep || b[0] == '/' then b
    else if a[|a| - 1] == sep || a[|a| - 1] == '/' then a + b
    else a + [sep] + b
  }

  // ---------------------------------------------------------------------------
  // UploadFileAsync and SaveFileAsync

  /** The two properties of an `IFormFile` the helper reads. */
  datatype FormFile = FormFile(fileName: string, length: int)

  /** The `FileSettings` section of the configuration; `None` is a missing key. */
  datatype FileSettings = FileSettings(maxAudioSize: Option<int>, maxImageSize: Option<int>)

  const DefaultMaxAudioSize := 52428800
  const DefaultMaxImageSize := 5242880

  datatype UploadError = ExtensionNotAllowed(extension: string) | SizeExceeded(maxSize: int)

  /** The three ends of an upload: `null` for a missing or empty file, an exception, or the file's URL. */
  datatype UploadOutcome = NoFile | Rejected(error: UploadError) | Saved(url: string)

  /** The size limit for `folder`: the audio limit for "songs", the image limit for any other folder. */
  function MaxSize(folder: string, settings: FileSettings): int {
    if folder == "songs" then settings.maxAudioSize.GetOr(DefaultMaxAudioSize)
    else settings.maxImageSize.GetOr(DefaultMaxImageSize)
  }

  /** C# `/` on integers, which truncates toward zero. */
  function TruncDiv(a: int, b: int): int
    requires b > 0
  {
    if a >= 0 then a / b else -((-a) / b)
  }

  /** The text of the exception an upload is rejected with. */
  function Message(e: UploadError): string {
    match e
    case ExtensionNotAllowed(ext) => "File extension " + ext + " is not allowed."
    case SizeExceeded(max) =>
      "File size exceeds the maximum allowed size of " + IntToString(TruncDiv(TruncDiv(max, 1024), 1024)) + "MB."
  }

  /** The lower-cased extension both save operations keep. */
  function StoredExtension(file: FormFile): string {
    Lower(GetExtension(file.fileName))
  }

  /**
   * `UploadFileAsync(file, folder, allowedExtensions)`, with `guid` the
   * text of the fresh `Guid` that names the stored file.
   */
  function UploadFile(file: Option<FormFile>, folder: string, allowed: Option<seq<string>>,
                      settings: FileSettings, guid: string): UploadOutcome
  {
    if file.None? || file.value.length == 0 then NoFile
    else
      var ext := StoredExtension(file.value);
      if allowed.Some? && ext !in allowed.value then Rejected(ExtensionNotAllowed(ext))
      else
        var max := MaxSize(folder, settings);
        if file.value.length > max then Rejected(SizeExceeded(max))
        else Saved("/uploads/" + folder + "/" + guid + ext)
  }

  /** Where `UploadFileAsync` writes the file: `Path.Combine(Path.Combine(webRoot, "uploads", folder), guid + ext)`. */
  function UploadedPath(webRootPath: string, folder: string, fileName: string, sep: char): string {
    Combine(Combine(Combine(webRootPath, "uploads", sep), folder, sep), fileName, sep)
  }

  /** `SaveFileAsync(file, webRootPath, folder)`: no validation, and a URL without the `uploads` prefix. */
  function SaveFile(file: Option<FormFile>, folder: string, guid: string): UploadOutcome {
    if file.None? || file.value.length == 0 then NoFile
    else Saved("/" + folder + "/" + guid + StoredExtension(file.value))
  }

  /** The text of a `Guid`: 36 hexadecimal digits and dashes. */
  predicate GuidText(g: string) {
    |g| == 36 && forall i :: 0 <= i < |g| ==> IsDigit(g[i]) || 'a' <= g[i] <= 'f' || g[i] == '-'
  }

  // ---------------------------------------------------------------------------
  // DeleteFile

  /**
   * The file the static `DeleteFile(webRootPath, fileUrl)` removes (if it
   * exists), for directory separator `sep`; `None` when it returns at once.
   */
  function DeleteTarget(webRootPath: string, fileUrl: Option<string>, sep: char): Option<string> {
    if fileUrl.None? || fileUrl.value == "" || Contains(fileUrl.value, "default") then None
    else Some(Combine(webRootPath, Replace(TrimStart(fileUrl.value, '/'), '/', sep), sep))
  }

  /** The hosting environment the instance helper is built with. */
  datatype HostEnvironment = HostEnvironment(webRootPath: string)

  /** The file the instance method `DeleteFile(fileUrl)` removes. */
  function DeleteFileTarget(env: HostEnvironment, fileUrl: Option<string>, sep: char): (r: Option<string>)
    ensures r.Some? <==> fileUrl.Some? && fileUrl.value != "" && !Contains(fileUrl.value, "default")
  {
    if fileUrl.None? || fileUrl.value == "" then None
    else DeleteTarget(env.webRootPath, fileUrl, sep)
  }

  // ---------------------------------------------------------------------------
  // FormatDuration

  function Abs(x: int): nat {
    if x < 0 then -x else x
  }

  /** The `Hours` (0 to 23), `Minutes` and `Seconds` components of `TimeSpan.FromSeconds(seconds)`, as magnitudes. */
  function HoursOfDay(seconds: int): nat { (Abs(seconds) / 3600) % 24 }
  function MinutesOf(seconds: int): nat { (Abs(seconds) / 60) % 60 }
  function SecondsOf(seconds: int): nat { Abs(seconds) % 60 }

  /**
   * `FormatDuration(seconds)` as written: `h:mm:ss` when the time span's
   * `Hours` component is positive, `m:ss` otherwise. `Hours` is the hour
   * of the day, so whole days are silently dropped.
   */
  function FormatDuration(seconds: int): string {
    if seconds > 0 && HoursOfDay(seconds) > 0 then
      HourMinSec(HoursOfDay(seconds), MinutesOf(seconds), SecondsOf(seconds))
    else
      MinSec(MinutesOf(seconds), SecondsOf(seconds))
  }

  /** `FormatDuration` with the total hours in front, so nothing is dropped. */
  function FormatDurationTotalHours(seconds: int): string {
    var h := Abs(seconds) / 3600;
    if h > 0 then HourMinSec(h, MinutesOf(seconds), SecondsOf(seconds))
    else MinSec(MinutesOf(seconds), SecondsOf(seconds))
  }

  // ---------------------------------------------------------------------------
  // FormatNumber

  datatype Unit = Thousand | Million | Billion

  function Divisor(u: Unit): nat {
    match u
    case Thousand => 1000
    case Million => 1000000
    case Billion => 1000000000
  }

  function Suffix(u: Unit): char {
    match u
    case Thousand => 'K'
    case Million => 'M'
    case Billion => 'B'
  }

  /** `n / d` rounded to tenths, half away from zero, as a whole number of tenths. */
  function RoundedTenths(n: nat, d: nat): nat
    requires d > 0
  {
    (20 * n + d) / (2 * d)
  }

  /** The `ToString("0.#")` text of `t` tenths: the integer part, then `.` and the tenth unless it is 0. */
  function TenthsText(t: nat): string {
    NatToString(t / 10) + (if t % 10 == 0 then "" else "." + [DigitChar(t % 10)])
  }

  /** The unit `FormatNumber` picks, before rounding; `None` below a thousand. */
  function UnitFor(n: int): Option<Unit> {
    if n >= 1000000000 then Some(Billion)
    else if n >= 1000000 then Some(Million)
    else if n >= 1000 then Some(Thousand)
    else None
  }

  /** `FormatNumber(number)` as written. */
  function FormatNumber(n: int): string {
    match UnitFor(n)
    case None => IntToString(n)
    case Some(u) => TenthsText(RoundedTenths(n, Divisor(u))) + [Suffix(u)]
  }

  /** The next larger unit, when there is one. */
  function NextUnit(u: Unit): Option<Unit> {
    match u
    case Thousand => Some(Million)
    case Million => Some(Billion)
    case Billion => None
  }

  /** The unit chosen after rounding: a mantissa that rounds up to 1000 moves to the next unit. */
  function PromotedUnit(n: nat, u: Unit): Unit {
    if RoundedTenths(n, Divisor(u)) >= 10000 && NextUnit(u).Some? then NextUnit(u).value else u
  }

  /** `FormatNumber` with the unit chosen after rounding. */
  function FormatNumberPromoted(n: int): string {
    match UnitFor(n)
    case None => IntToString(n)
    case Some(u) =>
      var v := PromotedUnit(n, u);
      TenthsText(RoundedTenths(n, Divisor(v))) + [Suffix(v)]
  }

  /** Reads a compact number such as `1.5K` back as a count of tenths and its unit. */
  function ParseCompact(s: string): Option<(nat, Unit)> {
    if |s| < 2 then None
    else
      var c := s[|s| - 1];
      var u := if c == 'K' then Some(Thousand) else if c == 'M' then Some(Million) else if c == 'B' then Some(Billion) else None;
      var body := s[..|s| - 1];
      if u.None? then None
      else if |body| >= 3 && body[|body| - 2] == '.' then
        var whole := body[..|body| - 2];
        var tenth := body[|body| - 1];
        if Numeral(whole) && IsDigit(tenth) && tenth != '0' then Some((10 * DigitsValue(whole) + DigitValue(tenth), u.value))
        else None
      else if Numeral(body) then Some((10 * DigitsValue(body), u.value))
      else None
  }

  // ---------------------------------------------------------------------------
  // Lemmas: uploads

  lemma LowerKeepsPlain(s: string)
    requires PlainName(s)
    ensures PlainName(Lower(s))
  {
  }

  /** A lower-cased extension is still an extension. */
  lemma LowerKeepsExtensionShape(e: string)
    requires ExtensionShaped(e)
    ensures ExtensionShaped(Lower(e))
  {
    if e != "" {
      assert Lower(e)[1..] == Lower(e[1..]);
    }
  }

  /** Scanning back over plain characters only moves them into the tail. */
  lemma {:induction false} ScanOverPlain(s: string, t: string, tail: string)
    requires PlainName(t) && PlainName(tail)
    ensures ExtensionScan(s + t, tail) == ExtensionScan(s, t + tail)
    decreases |t|
  {
    if t != [] {
      var c := t[|t| - 1];
      var t' := t[..|t| - 1];
      assert (s + t)[..|s + t| - 1] == s + t';
      assert (s + t)[|s + t| - 1] == c;
      ScanOverPlain(s, t', [c] + tail);
      assert t' + ([c] + tail) == t + tail;
    } else {
      assert s + t == s;
      assert t + tail == tail;
    }
  }

  /** A plain name after a separator, then an extension: the scan finds exactly that extension. */
  lemma ExtensionOfName(dir: string, name: string, ext: string)
    requires PlainName(name) && ExtensionShaped(ext)
    requires dir == "" || IsSeparator(dir[|dir| - 1])
    ensures GetExtension(dir + name + ext) == ext
  {
    if ext == "" {
      assert dir + name + ext == dir + name;
      ScanOverPlain(dir, name, "");
      assert name + "" == name;
    } else {
      var e := ext[1..];
      assert ext == "." + e;
      assert dir + name + ext == (dir + name + ".") + e;
      ScanOverPlain(dir + name + ".", e, "");
      assert e + "" == e;
      assert (dir + name + ".")[|dir + name + "."| - 1] == '.';
    }
  }

  /** The upload succeeds exactly when the file is non-empty, its extension allowed and its size within the folder's limit. */
  lemma UploadDecision(file: Option<FormFile>, folder: string, allowed: Option<seq<string>>,
                       settings: FileSettings, guid: string)
    ensures var r := UploadFile(file, folder, allowed, settings, guid);
            && (r.NoFile? <==> file.None? || file.value.length == 0)
            && (r.Saved? <==> file.Some? && file.value.length != 0
                              && (allowed.Some? ==> StoredExtension(file.value) in allowed.value)
                              && file.value.length <= MaxSize(folder, settings))
            && (r.Rejected? && r.error.ExtensionNotAllowed? <==>
                  file.Some? && file.value.length != 0 && allowed.Some? && StoredExtension(file.value) !in allowed.value)
            && (r.Rejected? && r.error.SizeExceeded? ==> r.error.maxSize == MaxSize(folder, settings) < file.value.length)
  {
  }

  /** Without configuration the limits are 50 MB for songs and 5 MB for everything else. */
  lemma DefaultLimits(folder: string)
    ensures MaxSize("songs", FileSettings(None, None)) == 52428800 == 50 * 1024 * 1024
    ensures folder != "songs" ==> MaxSize(folder, FileSettings(None, None)) == 5242880 == 5 * 1024 * 1024
    ensures Message(SizeExceeded(52428800)) == "File size exceeds the maximum allowed size of 50MB."
    ensures Message(SizeExceeded(5242880)) == "File size exceeds the maximum allowed size of 5MB."
  {
  }

  /**
   * A saved upload's URL lies under `/uploads/<folder>/`, names the file by
   * its GUID and keeps the lower-cased extension, which is one of the
   * allowed ones when a list was given.
   */
  lemma UploadUrlShape(file: Option<FormFile>, folder: string, allowed: Option<seq<string>>,
                       settings: FileSettings, guid: string)
    requires GuidText(guid)
    requires UploadFile(file, folder, allowed, settings, guid).Saved?
    ensures var url := UploadFile(file, folder, allowed, settings, guid).url;
            var ext := StoredExtension(file.value);
            && url == "/uploads/" + folder + "/" + guid + ext
            && GetExtension(url) == ext
            && (allowed.Some? ==> GetExtension(url) in allowed.value)
  {
    var ext := StoredExtension(file.value);
    LowerKeepsExtensionShape(GetExtension(file.value.fileName));
    ExtensionOfName("/uploads/" + folder + "/", guid, ext);
    assert "/uploads/" + folder + "/" + guid + ext == ("/uploads/" + folder + "/") + guid + ext;
  }

  /** `SaveFileAsync` never rejects: any non-empty file is saved under `/<folder>/` with its lower-cased extension. */
  lemma SaveFileShape(file: Option<FormFile>, folder: string, guid: string)
    requires GuidText(guid)
    ensures var r := SaveFile(file, folder, guid);
            && !r.Rejected?
            && (r.Saved? <==> file.Some? && file.value.length != 0)
            && (r.Saved? ==> r.url == "/" + folder + "/" + guid + StoredExtension(file.value)
                             && GetExtension(r.url) == StoredExtension(file.value))
  {
    var r := SaveFile(file, folder, guid);
    if r.Saved? {
      var ext := StoredExtension(file.value);
      LowerKeepsExtensionShape(GetExtension(file.value.fileName));
      ExtensionOfName("/" + folder + "/", guid, ext);
      assert "/" + folder + "/" + guid + ext == ("/" + folder + "/") + guid + ext;
    }
  }

  // ---------------------------------------------------------------------------
  // Lemmas: deletion

  /** Delete does nothing exactly for a missing or empty URL, or one naming a default file. */
  lemma DeleteGuard(webRootPath: string, fileUrl: Option<string>, sep: char)
    ensures DeleteTarget(webRootPath, fileUrl, sep).None? <==>
              fileUrl.None? || fileUrl.value == "" || Contains(fileUrl.value, "default")
  {
  }

  /** The instance overload deletes what the static one does, with the environment's web root. */
  lemma DeleteOverloadsAgree(env: HostEnvironment, fileUrl: Option<string>, sep: char)
    ensures DeleteFileTarget(env, fileUrl, sep) == DeleteTarget(env.webRootPath, fileUrl, sep)
    ensures DeleteFileTarget(env, fileUrl, sep).None? <==>
              fileUrl.None? || fileUrl.value == "" || Contains(fileUrl.value, "default")
  {
  }

  lemma ReplaceAppend(a: string, b: string, from: char, to: char)
    ensures Replace(a + b, from, to) == Replace(a, from, to) + Replace(b, from, to)
  {
  }

  lemma ReplaceAbsent(a: string, from: char, to: char)
    requires from !in a
    ensures Replace(a, from, to) == a
  {
  }

  /** The relative path of an uploaded file, with its slashes turned into `sep`. */
  lemma UploadUrlAsPath(folder: string, name: string, sep: char)
    requires '/' !in folder && '/' !in name
    ensures Replace(TrimStart("/uploads/" + folder + "/" + name, '/'), '/', sep)
         == "uploads" + [sep] + folder + [sep] + name
  {
    var url := "/uploads/" + folder + "/" + name;
    var rest := "uploads" + "/" + folder + "/" + name;
    assert url == "/" + rest;
    assert TrimStart(url, '/') == rest by {
      assert url[1..] == rest;
      assert rest[0] == 'u';
    }
    ReplaceAppend("uploads" + "/" + folder + "/", name, '/', sep);
    ReplaceAppend("uploads" + "/" + folder, "/", '/', sep);
    ReplaceAppend("uploads" + "/", folder, '/', sep);
    ReplaceAppend("uploads", "/", '/', sep);
    ReplaceAbsent("uploads", '/', sep);
    ReplaceAbsent(folder, '/', sep);
    ReplaceAbsent(name, '/', sep);
    assert Replace("/", '/', sep) == [sep];
  }

  /** Joining the web root, `uploads`, the folder and the file name one separator at a time. */
  lemma UploadedPathJoined(webRootPath: string, folder: string, name: string, sep: char)
    requires IsSeparator(sep)
    requires webRootPath != "" && webRootPath[|webRootPath| - 1] != sep && webRootPath[|webRootPath| - 1] != '/'
    requires folder != "" && folder[0] != sep && folder[0] != '/' && folder[|folder| - 1] != sep && folder[|folder| - 1] != '/'
    requires name != "" && name[0] != sep && name[0] != '/'
    ensures UploadedPath(webRootPath, folder, name, sep) == webRootPath + [sep] + ("uploads" + [sep] + folder + [sep] + name)
  {
    var a := Combine(webRootPath, "uploads", sep);
    assert a == webRootPath + [sep] + "uploads";
    var b := Combine(a, folder, sep);
    assert b == a + [sep] + folder;
    assert Combine(b, name, sep) == b + [sep] + name;
  }

  /** Deleting the URL an upload returned removes the very file the upload wrote. */
  lemma DeleteRemovesUploadedFile(webRootPath: string, folder: string, name: string, sep: char)
    requires IsSeparator(sep)
    requires webRootPath != "" && webRootPath[|webRootPath| - 1] != sep && webRootPath[|webRootPath| - 1] != '/'
    requires folder != "" && '/' !in folder && sep !in folder
    requires name != "" && '/' !in name && sep !in name
    requires !Contains("/uploads/" + folder + "/" + name, "default")
    ensures DeleteTarget(webRootPath, Some("/uploads/" + folder + "/" + name), sep)
         == Some(UploadedPath(webRootPath, folder, name, sep))
  {
    var rel := "uploads" + [sep] + folder + [sep] + name;
    UploadUrlAsPath(folder, name, sep);
    UploadedPathJoined(webRootPath, folder, name, sep);
    assert rel[0] == 'u';
    assert Combine(webRootPath, rel, sep) == webRootPath + [sep] + rel;
  }

  // ---------------------------------------------------------------------------
  // Lemmas: durations

  /** The components of a non-negative number of seconds: days, hours of the day, minutes and seconds. */
  lemma Components(s: nat)
    ensures var h, m, sec := HoursOfDay(s), MinutesOf(s), SecondsOf(s);
            s % 86400 == h * 3600 + m * 60 + sec
            && s / 3600 == (s / 86400) * 24 + h
            && s == (s / 3600) * 3600 + m * 60 + sec
  {
    var d, r := s / 86400, s % 86400;
    var h, rh := r / 3600, r % 3600;
    var m, sec := rh / 60, rh % 60;
    assert s == 86400 * d + 3600 * h + 60 * m + sec;
    assert s / 3600 == 24 * d + h;
    assert (s / 3600) % 24 == h;
    assert s / 60 == 1440 * d + 60 * h + m;
    assert (s / 60) % 60 == m;
    assert s % 60 == sec;
  }

  /** The first example of the documentation comment: 185 seconds. */
  lemma FormatDurationMinutesExample()
    ensures FormatDuration(185) == "3:05"
  {
    assert HoursOfDay(185) == 0 && MinutesOf(185) == 3 && SecondsOf(185) == 5;
    assert NatToString(3) == "3";
    assert TwoDigits(5) == "05" by {
      assert NatToString(5) == "5";
    }
  }

  /** The second example of the documentation comment: 3725 seconds. */
  lemma FormatDurationHoursExample()
    ensures FormatDuration(3725) == "1:02:05"
  {
    assert HoursOfDay(3725) == 1 && MinutesOf(3725) == 2 && SecondsOf(3725) == 5;
    assert NatToString(1) == "1";
    assert TwoDigits(2) == "02" by {
      assert NatToString(2) == "2";
    }
    assert TwoDigits(5) == "05" by {
      assert NatToString(5) == "5";
    }
  }

  /**
   * As written, a non-negative duration reads back modulo one day: whole days
   * are lost. It has three fields exactly when the hour of the day is not 0.
   */
  lemma FormatDurationReadsBackModuloDay(s: nat)
    ensures ParseClock(FormatDuration(s)) == Some(s % 86400)
    ensures |SplitColons(FormatDuration(s))| == (if s % 86400 >= 3600 then 3 else 2)
  {
    Components(s);
    var h, m, sec := HoursOfDay(s), MinutesOf(s), SecondsOf(s);
    if s > 0 && h > 0 {
      ParseHourMinSec(h, m, sec);
    } else {
      ParseMinSec(m, sec);
    }
  }

  /** 25 hours print as `1:00:00`, and a full day as `0:00`. */
  lemma FormatDurationDropsDays()
    ensures FormatDuration(90000) == "1:00:00"
    ensures ParseClock(FormatDuration(90000)) == Some(3600)
    ensures FormatDuration(86400) == "0:00"
  {
    assert HoursOfDay(90000) == 1 && MinutesOf(90000) == 0 && SecondsOf(90000) == 0;
    assert HoursOfDay(86400) == 0 && MinutesOf(86400) == 0 && SecondsOf(86400) == 0;
    assert TwoDigits(0) == "00";
    assert NatToString(1) == "1" && NatToString(0) == "0";
    ParseHourMinSec(1, 0, 0);
  }

  /** With total hours, every non-negative duration reads back exactly. */
  lemma FormatDurationTotalHoursReadsBack(s: nat)
    ensures ParseClock(FormatDurationTotalHours(s)) == Some(s)
    ensures |SplitColons(FormatDurationTotalHours(s))| == (if s >= 3600 then 3 else 2)
    ensures s < 86400 ==> FormatDurationTotalHours(s) == FormatDuration(s)
  {
    Components(s);
    var h, m, sec := s / 3600, MinutesOf(s), SecondsOf(s);
    if h > 0 {
      ParseHourMinSec(h, m, sec);
    } else {
      ParseMinSec(m, sec);
    }
    if s < 86400 {
      assert s / 86400 == 0;
    }
  }

  // ---------------------------------------------------------------------------
  // Lemmas: counters

  /** The rounded tenths are the nearest whole number of tenths: within half a tenth of `n / d`. */
  lemma RoundedTenthsNearest(n: nat, d: nat)
    requires d > 0
    ensures 20 * n - d < 2 * d * RoundedTenths(n, d) <= 20 * n + d
  {
    var t := RoundedTenths(n, d);
    var r := (20 * n + d) % (2 * d);
    assert 20 * n + d == 2 * d * t + r;
  }

  /** The suffix comes off first, leaving the `0.#` text. */
  lemma ParseCompactBody(body: string, u: Unit)
    requires body != []
    ensures var s := body + [Suffix(u)];
            |s| >= 2 && s[|s| - 1] == Suffix(u) && s[..|s| - 1] == body
  {
    var s := body + [Suffix(u)];
    assert s[..|s| - 1] == body;
  }

  /** A whole number of units prints without a decimal point and reads back. */
  lemma ParseCompactWhole(t: nat, u: Unit)
    requires t % 10 == 0
    ensures ParseCompact(TenthsText(t) + [Suffix(u)]) == Some((t, u))
  {
    var w := NatToString(t / 10);
    assert TenthsText(t) == w;
    ParseCompactBody(w, u);
    NatToStringValue(t / 10);
    if |w| >= 3 {
      assert IsDigit(w[|w| - 2]);
    }
  }

  /** A number with a non-zero tenth prints `whole.tenth` and reads back. */
  lemma ParseCompactFraction(t: nat, u: Unit)
    requires t % 10 != 0
    ensures ParseCompact(TenthsText(t) + [Suffix(u)]) == Some((t, u))
  {
    var w := NatToString(t / 10);
    var b := TenthsText(t);
    assert b == w + "." + [DigitChar(t % 10)];
    ParseCompactBody(b, u);
    assert b[..|b| - 2] == w;
    assert b[|b| - 2] == '.';
    assert b[|b| - 1] == DigitChar(t % 10);
    NatToStringValue(t / 10);
  }

  /** The tenths text reads back as the same count of tenths. */
  lemma ParseCompactOfText(t: nat, u: Unit)
    ensures ParseCompact(TenthsText(t) + [Suffix(u)]) == Some((t, u))
  {
    if t % 10 == 0 {
      ParseCompactWhole(t, u);
    } else {
      ParseCompactFraction(t, u);
    }
  }

  /** Below a thousand the number is printed in full and reads back as itself. */
  lemma FormatNumberSmall(n: int)
    requires n < 1000
    ensures FormatNumber(n) == IntToString(n)
    ensures ParseInt(FormatNumber(n)) == Some(n)
  {
    ParseIntOfIntToString(n);
  }

  /**
   * From a thousand up, the text is a count of tenths and a unit suffix:
   * `B` from a billion, `M` from a million, `K` from a thousand, and the
   * tenths are `n` divided by the unit, rounded to the nearest tenth.
   */
  lemma FormatNumberReadsBack(n: int)
    requires n >= 1000
    ensures var r := ParseCompact(FormatNumber(n));
            && r.Some?
            && (r.value.1 == Billion <==> n >= 1000000000)
            && (r.value.1 == Million <==> 1000000 <= n < 1000000000)
            && (r.value.1 == Thousand <==> n < 1000000)
            && 20 * n - Divisor(r.value.1) < 2 * Divisor(r.value.1) * r.value.0 <= 20 * n + Divisor(r.value.1)
  {
    var u := UnitFor(n).value;
    ParseCompactOfText(RoundedTenths(n, Divisor(u)), u);
    RoundedTenthsNearest(n, Divisor(u));
  }

  /** The three examples of the documentation comment. */
  lemma FormatNumberExamples()
    ensures FormatNumber(1500) == "1.5K"
    ensures FormatNumber(2500000) == "2.5M"
    ensures FormatNumber(1000000000) == "1B"
  {
    assert RoundedTenths(1500, 1000) == 15;
    assert RoundedTenths(2500000, 1000000) == 25;
    assert RoundedTenths(1000000000, 1000000000) == 10;
  }

  /** As written, the unit is picked before rounding: 999 999 is printed as a thousand thousands. */
  lemma FormatNumberThousandThousands()
    ensures FormatNumber(999999) == "1000K"
    ensures FormatNumber(999950000) == "1000M"
  {
    assert RoundedTenths(999999, 1000) == 10000;
    assert RoundedTenths(999950000, 1000000) == 10000;
    assert NatToString(1000) == "1000" by {
      assert NatToString(100) == "100" by {
        assert NatToString(10) == "10";
      }
    }
  }

  /** After promotion the rounded tenths stay below 10000 and reach at least 10. */
  lemma PromotedTenthsBounds(n: nat, u: Unit)
    requires u != Billion && Divisor(u) <= n < 1000 * Divisor(u)
    ensures 10 <= RoundedTenths(n, Divisor(PromotedUnit(n, u))) < 10000
  {
    var v := PromotedUnit(n, u);
    var d, e := Divisor(u), Divisor(v);
    RoundedTenthsNearest(n, d);
    RoundedTenthsNearest(n, e);
    if v != u {
      assert e == 1000 * d;
      assert 2 * e * RoundedTenths(n, e) <= 20 * n + e < 20000 * d + e;
      assert RoundedTenths(n, e) * 2000 * d < 20001 * d;
    } else {
      assert 2 * d * RoundedTenths(n, d) > 20 * n - d >= 20 * d - d;
    }
  }

  /** With the unit picked after rounding, every mantissa of a K or M lies in `[1, 1000)`. */
  lemma FormatNumberPromotedMantissa(n: int)
    requires 1000 <= n < 1000000000
    ensures var r := ParseCompact(FormatNumberPromoted(n));
            && r.Some?
            && 10 <= r.value.0 < 10000
            && 20 * n - Divisor(r.value.1) < 2 * Divisor(r.value.1) * r.value.0 <= 20 * n + Divisor(r.value.1)
  {
    var u := UnitFor(n).value;
    var v := PromotedUnit(n, u);
    ParseCompactOfText(RoundedTenths(n, Divisor(v)), v);
    RoundedTenthsNearest(n, Divisor(v));
    PromotedTenthsBounds(n, u);
  }

  /** The corrected formatter prints 999 999 as one million. */
  lemma FormatNumberPromotedExample()
    ensures FormatNumberPromoted(999999) == "1M"
  {
    assert UnitFor(999999) == Some(Thousand);
    assert RoundedTenths(999999, 1000) == 10000;
    assert PromotedUnit(999999, Thousand) == Million;
    assert RoundedTenths(999999, 1000000) == 10;
    assert TenthsText(10) == "1" by {
      assert NatToString(1) == "1";
    }
  }
}
