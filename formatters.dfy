/**
  Video durations as the server writes them, `HH:MM:SS.mmm`, turned into
  the short form shown on a card: `H:MM:SS` with hours, `M:SS` without.
  JavaScript's NaN, which `parseInt` and `parseFloat` return when there is
  no number, is None.
 */
module Formatters {
  import opened Wrappers
  import opened Strings

  /** `String(n)`: the decimal text of a number, or `NaN`. */
  function NumberText(n: Option<int>): (r: string)
    ensures n.None? ==> r == "NaN"
    ensures n.Some? && n.value >= 0 ==> r == NatToString(n.value)
  {
    match n
    case None => "NaN"
    case Some(v) => IntToString(v)
  }

  /** `String(n).padStart(2, '0')`. */
  function Pad2(n: Option<int>): string {
    PadStart(NumberText(n), 2, '0')
  }

  /** The template both duration formatters share: hours only when positive (NaN is not). */
  function DurationText(hours: Option<int>, minutes: Option<int>, seconds: Option<int>): string {
    if hours.Some? && hours.value > 0 then NumberText(hours) + ":" + Pad2(minutes) + ":" + Pad2(seconds)
    else NumberText(minutes) + ":" + Pad2(seconds)
  }

  /** The template never gives an empty text: there is always a colon before the seconds. */
  lemma DurationTextNonEmpty(hours: Option<int>, minutes: Option<int>, seconds: Option<int>)
    ensures DurationText(hours, minutes, seconds) != ""
  {
    var r := DurationText(hours, minutes, seconds);
    assert r[|r| - |Pad2(seconds)| - 1] == ':';
  }

  /** The fields read from the pieces: `parseInt` of the first two, floored `parseFloat` of the third, NaN when missing. */
  function Fields(parts: seq<string>): (Option<int>, Option<int>, Option<int>)
    requires |parts| >= 2
  {
    (ParseInt(parts[0]), ParseInt(parts[1]), if |parts| >= 3 then FloorParseFloat(parts[2]) else None)
  }

  /** `formatDuration` as written: empty below two pieces, so a two-piece input has no seconds. */
  function FormatDuration(duration: string): (r: string)
    ensures |Split(duration, ':')| < 2 <==> r == ""
  {
    var parts := Split(duration, ':');
    if |parts| < 2 then ""
    else
      var (hours, minutes, seconds) := Fields(parts);
      DurationTextNonEmpty(hours, minutes, seconds);
      DurationText(hours, minutes, seconds)
  }

  /** Whether a piece holds no colon. */
  predicate NoColon(s: string) {
    forall i :: 0 <= i < |s| ==> s[i] != ':'
  }

  /** The pieces of `a:b:c`, when none of them holds a colon. */
  lemma SplitThree(a: string, b: string, c: string)
    requires NoColon(a) && NoColon(b) && NoColon(c)
    ensures Split(a + ":" + b + ":" + c, ':') == [a, b, c]
  {
    SplitNoSep(c, ':');
    SplitPrefix(b, c, ':');
    assert a + ":" + b + ":" + c == a + [':'] + (b + [':'] + c);
    SplitPrefix(a, b + [':'] + c, ':');
  }

  /** The pieces of `a:b`, when neither holds a colon. */
  lemma SplitTwo(a: string, b: string)
    requires NoColon(a) && NoColon(b)
    ensures Split(a + ":" + b, ':') == [a, b]
  {
    SplitNoSep(b, ':');
    SplitPrefix(a, b, ':');
  }

  /** A digit string holds no colon. */
  lemma DigitsNoColon(s: string)
    requires AllDigits(s)
    ensures NoColon(s)
  {
    forall i | 0 <= i < |s|
      ensures s[i] != ':'
    {
      assert IsDigit(s[i]);
    }
  }

  /**
    A well-formed duration `HH:MM:SS.fff` (digit fields, zero padded or not,
    any digits after the point) is shown from the values of its three
    fields, the fraction of a second dropped.
   */
  lemma FormatWellFormed(h: string, m: string, s: string, fraction: string)
    requires h != [] && AllDigits(h) && m != [] && AllDigits(m) && s != [] && AllDigits(s) && AllDigits(fraction)
    ensures FormatDuration(h + ":" + m + ":" + s + "." + fraction)
      == DurationText(Some(DigitsValue(h)), Some(DigitsValue(m)), Some(DigitsValue(s)))
  {
    WellFormedPieces(h, m, s, fraction);
    FieldsOfWellFormed(h, m, s, fraction);
  }

  /** The pieces of a well-formed duration: hours, minutes, and the seconds with their fraction. */
  lemma WellFormedPieces(h: string, m: string, s: string, fraction: string)
    requires AllDigits(h) && AllDigits(m) && AllDigits(s) && AllDigits(fraction)
    ensures Split(h + ":" + m + ":" + s + "." + fraction, ':') == [h, m, s + "." + fraction]
  {
    var third := s + "." + fraction;
    DigitsNoColon(h);
    DigitsNoColon(m);
    DigitsNoColon(fraction);
    DigitsNoColon(s);
    assert NoColon(third) by {
      forall i | 0 <= i < |third|
        ensures third[i] != ':'
      {
        if i < |s| { assert third[i] == s[i]; }
        else if i > |s| { assert third[i] == fraction[i - |s| - 1]; }
      }
    }
    SplitThree(h, m, third);
    assert h + ":" + m + ":" + s + "." + fraction == h + ":" + m + ":" + third;
  }

  /** The fields read from those pieces are the values of the digit strings. */
  lemma FieldsOfWellFormed(h: string, m: string, s: string, fraction: string)
    requires h != [] && AllDigits(h) && m != [] && AllDigits(m) && s != [] && AllDigits(s)
    ensures Fields([h, m, s + "." + fraction]) == (Some(DigitsValue(h) as int), Some(DigitsValue(m) as int), Some(DigitsValue(s) as int))
  {
    assert h == h + [] && m == m + [];
    ParseIntOfDigits(h, []);
    ParseIntOfDigits(m, []);
    assert s + "." + fraction == s + ("." + fraction);
    FloorParseFloatOfDigits(s, "." + fraction);
  }

  /** Whole hours, minutes and seconds: `H:MM:SS` with hours, `M:SS` without. */
  lemma DurationTextShape(h: nat, m: nat, s: nat)
    ensures h > 0 ==> DurationText(Some(h), Some(m), Some(s)) == NatToString(h) + ":" + Pad2(Some(m)) + ":" + Pad2(Some(s))
    ensures h == 0 ==> DurationText(Some(h), Some(m), Some(s)) == NatToString(m) + ":" + Pad2(Some(s))
    ensures m < 10 ==> Pad2(Some(m)) == "0" + NatToString(m)
    ensures m >= 10 ==> Pad2(Some(m)) == NatToString(m)
  {
    if m >= 10 {
      assert |NatToString(m)| >= 2;
    }
  }

  /** `00:05:30.123` is shown as `5:30`. */
  lemma FiveThirty()
    ensures FormatDuration("00:05:30.123") == "5:30"
  {
    FiveThirtyPieces();
    FormatWellFormed("00", "05", "30", "123");
    FiveThirtyText();
  }

  lemma FiveThirtyText()
    ensures DurationText(Some(0), Some(5), Some(30)) == "5:30"
  {
  }

  lemma FiveThirtyPieces()
    ensures "00:05:30.123" == "00" + ":" + "05" + ":" + "30" + "." + "123"
    ensures AllDigits("00") && AllDigits("05") && AllDigits("30") && AllDigits("123")
    ensures DigitsValue("00") == 0 && DigitsValue("05") == 5 && DigitsValue("30") == 30
  {
    assert "00"[..1] == "0";
    assert "05"[..1] == "0";
    assert "30"[..1] == "3";
  }

  /** `01:02:03.000` is shown as `1:02:03`. */
  lemma OneHour()
    ensures FormatDuration("01:02:03.000") == "1:02:03"
  {
    OneHourPieces();
    FormatWellFormed("01", "02", "03", "000");
    OneHourText();
  }

  lemma OneHourText()
    ensures DurationText(Some(1), Some(2), Some(3)) == "1:02:03"
  {
  }

  lemma OneHourPieces()
    ensures "01:02:03.000" == "01" + ":" + "02" + ":" + "03" + "." + "000"
    ensures AllDigits("01") && AllDigits("02") && AllDigits("03") && AllDigits("000")
    ensures DigitsValue("01") == 1 && DigitsValue("02") == 2 && DigitsValue("03") == 3
  {
    assert "01"[..1] == "0";
    assert "02"[..1] == "0";
    assert "03"[..1] == "0";
  }

  /**
    A two-piece input passes the guard but has no third piece: its seconds
    are NaN, and the text ends in `NaN`.
   */
  lemma TwoFieldsShowNaN(a: string, b: string)
    requires NoColon(a) && NoColon(b)
    ensures var r := FormatDuration(a + ":" + b); r != "" && EndsWith(r, "NaN")
  {
    SplitTwo(a, b);
    var r := FormatDuration(a + ":" + b);
    var (hours, minutes, seconds) := Fields([a, b]);
    assert seconds.None? && Pad2(seconds) == "NaN";
    assert r[|r| - 3..] == "NaN";
  }

  /** `0:05` is shown as `5:NaN`. */
  lemma ZeroFiveShowsNaN()
    ensures FormatDuration("0:05") == "5:NaN"
  {
    ZeroFivePieces();
    SplitTwo("0", "05");
    ParseIntOfDigits("0", []);
    ParseIntOfDigits("05", []);
    ZeroFiveText();
  }

  lemma ZeroFivePieces()
    ensures "0:05" == "0" + ":" + "05"
    ensures NoColon("0") && NoColon("05") && DigitsThen("0", []) && DigitsThen("05", [])
    ensures "0" + [] == "0" && "05" + [] == "05"
    ensures DigitsValue("0") == 0 && DigitsValue("05") == 5
  {
    assert AllDigits("0") && AllDigits("05");
    DigitsNoColon("0");
    DigitsNoColon("05");
    assert "05"[..1] == "0";
  }

  lemma ZeroFiveText()
    ensures DurationText(Some(0), Some(5), None) == "5:NaN"
  {
  }
}
