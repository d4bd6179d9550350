/**
  The duration formatter of the formatting service: the same template as
  the card formatter, but it asks for all three pieces, so an input
  without seconds gives no text instead of `NaN`.
 */
module FormattingService {
  import opened Wrappers
  import opened Strings
  import opened Formatters

  /** `FormattingService.formatDuration`: empty below three pieces. */
  function FormatDuration(duration: string): (r: string)
    ensures |Split(duration, ':')| < 3 <==> r == ""
  {
    var parts := Split(duration, ':');
    if |parts| < 3 then ""
    else
      var (hours, minutes, seconds) := Fields(parts);
      DurationTextNonEmpty(hours, minutes, seconds);
      DurationText(hours, minutes, seconds)
  }

  /** With three or more pieces the two formatters agree. */
  lemma AgreesWithCardFormatter(duration: string)
    requires |Split(duration, ':')| >= 3
    ensures FormatDuration(duration) == Formatters.FormatDuration(duration)
  {
  }

  /** The text holds only digits, minus signs and colons: no `NaN`. */
  predicate NumericText(s: string) {
    forall i :: 0 <= i < |s| ==> IsDigit(s[i]) || s[i] == '-' || s[i] == ':'
  }

  lemma NumericConcat(a: string, b: string)
    requires NumericText(a) && NumericText(b)
    ensures NumericText(a + b)
  {
    forall i | 0 <= i < |a + b|
      ensures IsDigit((a + b)[i]) || (a + b)[i] == '-' || (a + b)[i] == ':'
    {
      if i < |a| { assert (a + b)[i] == a[i]; } else { assert (a + b)[i] == b[i - |a|]; }
    }
  }

  lemma NumberTextNumeric(n: int)
    ensures NumericText(NumberText(Some(n)))
    ensures NumericText(Pad2(Some(n)))
  {
    var m: nat := if n < 0 then -n else n;
    assert NumericText(NatToString(m));
    if n < 0 {
      assert NumericText("-");
      NumericConcat("-", NatToString(m));
    }
    var t := NumberText(Some(n));
    if |t| < 2 {
      assert NumericText(seq(2 - |t|, _ => '0'));
      NumericConcat(seq(2 - |t|, _ => '0'), t);
    }
  }

  /** Once every field is a number, the text is numeric: `NaN` can only come from a field that is not. */
  lemma DurationTextNumeric(h: int, m: int, s: int)
    ensures NumericText(DurationText(Some(h), Some(m), Some(s)))
  {
    NumberTextNumeric(h);
    NumberTextNumeric(m);
    NumberTextNumeric(s);
    assert NumericText(":");
    if h > 0 {
      NumericConcat(NumberText(Some(h)), ":");
      NumericConcat(NumberText(Some(h)) + ":", Pad2(Some(m)));
      NumericConcat(NumberText(Some(h)) + ":" + Pad2(Some(m)), ":");
      NumericConcat(NumberText(Some(h)) + ":" + Pad2(Some(m)) + ":", Pad2(Some(s)));
    } else {
      NumericConcat(NumberText(Some(m)), ":");
      NumericConcat(NumberText(Some(m)) + ":", Pad2(Some(s)));
    }
  }

  /**
    The input the card formatter shows as `…:NaN` (two digit fields) gets
    no text here, and a well-formed three-field input is always numeric.
   */
  lemma NoSecondsNoText(a: string, b: string)
    requires NoColon(a) && NoColon(b)
    ensures FormatDuration(a + ":" + b) == ""
  {
    SplitTwo(a, b);
  }

  lemma WellFormedIsNumeric(h: string, m: string, s: string, fraction: string)
    requires h != [] && AllDigits(h) && m != [] && AllDigits(m) && s != [] && AllDigits(s) && AllDigits(fraction)
    ensures NumericText(FormatDuration(h + ":" + m + ":" + s + "." + fraction))
  {
    FormatWellFormed(h, m, s, fraction);
    WellFormedPieces(h, m, s, fraction);
    AgreesWithCardFormatter(h + ":" + m + ":" + s + "." + fraction);
    DurationTextNumeric(DigitsValue(h), DigitsValue(m), DigitsValue(s));
  }
}
