/**
 * Clock texts: the `m:ss` / `h:mm:ss` strings that both scripts and the C#
 * helper print, a reader that turns such a text back into seconds, and the
 * JavaScript number arithmetic the scripts use to build them.
 */
module Clock {
  import opened Wrappers
  import opened Text

  /** A JavaScript number; `NaN` also stands for `undefined`, which every use here treats alike. */
  datatype JsNumber = NaN | Num(value: real)

  /** `Math.floor`. */
  function Floor(x: real): int {
    x.Floor
  }

  /** Rounding toward zero, the quotient JavaScript's `%` is built on. */
  function Trunc(x: real): (t: int)
    ensures x >= 0.0 ==> t == Floor(x)
    ensures x < 0.0 ==> t == -Floor(-x)
  {
    if x >= 0.0 then x.Floor else -((-x).Floor)
  }

  /** JavaScript `x % d`: the remainder takes the sign of `x`. */
  function JsRemainder(x: real, d: real): real
    requires d != 0.0
  {
    x - d * (Trunc(x / d) as real)
  }

  /**
   * The template literal `${Math.floor(s / 60)}:${Math.floor(s % 60).toString().padStart(2, '0')}`
   * shared by `formatTime` in the player script and `formatDuration` in the site script.
   */
  function MinutesSecondsText(s: real): string {
    IntToString(Floor(s / 60.0)) + ":" + PadStart2(IntToString(Floor(JsRemainder(s, 60.0))))
  }

  /** `m:ss` with `m` unpadded. */
  function MinSec(m: nat, s: nat): string
    requires s < 60
  {
    NatToString(m) + ":" + TwoDigits(s)
  }

  /** `h:mm:ss` with `h` unpadded. */
  function HourMinSec(h: nat, m: nat, s: nat): string
    requires m < 60 && s < 60
  {
    NatToString(h) + ":" + TwoDigits(m) + ":" + TwoDigits(s)
  }

  /** The pieces of `s` between colons. */
  function SplitColons(s: string): (parts: seq<string>)
    ensures |parts| >= 1
  {
    if s == [] then [[]]
    else
      var rest := SplitColons(s[1..]);
      if s[0] == ':' then [[]] + rest else [[s[0]] + rest[0]] + rest[1..]
  }

  lemma {:induction false} SplitWithoutColon(a: string)
    requires ':' !in a
    ensures SplitColons(a) == [a]
  {
    if a != [] {
      SplitWithoutColon(a[1..]);
      assert [a[0]] + a[1..] == a;
    }
  }

  lemma {:induction false} SplitAtColon(a: string, b: string)
    requires ':' !in a
    ensures SplitColons(a + ":" + b) == [a] + SplitColons(b)
  {
    if a == [] {
      assert a + ":" + b == [':'] + b;
      assert (a + ":" + b)[1..] == b;
    } else {
      assert (a + ":" + b)[1..] == a[1..] + ":" + b;
      SplitAtColon(a[1..], b);
      assert [a[0]] + a[1..] == a;
    }
  }

  predicate Numeral(s: string) {
    s != [] && AllDigits(s)
  }

  /** A two-digit minutes or seconds field, `00` to `59`. */
  predicate SixtyField(s: string) {
    |s| == 2 && AllDigits(s) && DigitsValue(s) < 60
  }

  /** Reads `m:ss` or `h:mm:ss` back as a number of seconds; `None` for any other text. */
  function ParseClock(s: string): Option<nat> {
    var p := SplitColons(s);
    if |p| == 2 && Numeral(p[0]) && SixtyField(p[1]) then
      Some(DigitsValue(p[0]) * 60 + DigitsValue(p[1]))
    else if |p| == 3 && Numeral(p[0]) && SixtyField(p[1]) && SixtyField(p[2]) then
      Some(DigitsValue(p[0]) * 3600 + DigitsValue(p[1]) * 60 + DigitsValue(p[2]))
    else
      None
  }

  lemma NoColonInDigits(s: string)
    requires AllDigits(s)
    ensures ':' !in s
  {
  }

  lemma ParseMinSec(m: nat, s: nat)
    requires s < 60
    ensures ParseClock(MinSec(m, s)) == Some(m * 60 + s)
    ensures |SplitColons(MinSec(m, s))| == 2
  {
    var a, b := NatToString(m), TwoDigits(s);
    NoColonInDigits(a);
    NoColonInDigits(b);
    SplitAtColon(a, b);
    SplitWithoutColon(b);
    NatToStringValue(m);
  }

  lemma ParseHourMinSec(h: nat, m: nat, s: nat)
    requires m < 60 && s < 60
    ensures ParseClock(HourMinSec(h, m, s)) == Some(h * 3600 + m * 60 + s)
    ensures |SplitColons(HourMinSec(h, m, s))| == 3
  {
    var a, b, c := NatToString(h), TwoDigits(m), TwoDigits(s);
    NoColonInDigits(a);
    NoColonInDigits(b);
    NoColonInDigits(c);
    assert HourMinSec(h, m, s) == a + ":" + (b + ":" + c);
    SplitAtColon(a, b + ":" + c);
    SplitAtColon(b, c);
    SplitWithoutColon(c);
    NatToStringValue(h);
  }

  lemma PadStartOfSmall(n: nat)
    requires n < 100
    ensures PadStart2(NatToString(n)) == TwoDigits(n)
  {
  }

  /**
   * For a non-negative number of seconds the shared template prints whole
   * minutes and the remaining whole seconds, so reading it back gives
   * `Math.floor(s)`.
   */
  lemma MinutesSecondsOfNonNegative(v: real)
    requires v >= 0.0
    ensures var m := Floor(v / 60.0);
            var s := Floor(v) - 60 * m;
            m >= 0 && 0 <= s < 60 && MinutesSecondsText(v) == MinSec(m, s)
    ensures ParseClock(MinutesSecondsText(v)) == Some(Floor(v))
  {
    var m := Floor(v / 60.0);
    assert (m as real) <= v / 60.0 < (m as real) + 1.0;
    assert Trunc(v / 60.0) == m;
    var r := JsRemainder(v, 60.0);
    assert r == v - 60.0 * (m as real);
    assert 0.0 <= r < 60.0;
    var s := Floor(r);
    assert s == Floor(v) - 60 * m;
    PadStartOfSmall(s);
    ParseMinSec(m, s);
  }
}
