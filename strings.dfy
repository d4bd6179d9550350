/**
  The JavaScript string operations the client relies on, on `seq<char>`:
  trimming, splitting, lexicographic comparison, and the integer
  printing and parsing of `String(n)`, `parseInt` and `parseFloat`.
 */
module Strings {
  import opened Wrappers

  /** The characters `String.prototype.trim` removes: white space and line terminators. */
  predicate IsJsWhitespace(c: char) {
    || c == '\t' || c == '\n' || c == '\U{000B}' || c == '\U{000C}' || c == '\r' || c == ' '
    || c == '\U{00A0}' || c == '\U{1680}' || ('\U{2000}' <= c <= '\U{200A}')
    || c == '\U{2028}' || c == '\U{2029}' || c == '\U{202F}' || c == '\U{205F}'
    || c == '\U{3000}' || c == '\U{FEFF}'
  }

  /** `s.trimStart()`: drops the leading white space, and only that. */
  function TrimStart(s: string): (r: string)
    ensures |r| <= |s| && r == s[|s| - |r|..]
    ensures r != [] ==> !IsJsWhitespace(r[0])
    ensures forall i :: 0 <= i < |s| - |r| ==> IsJsWhitespace(s[i])
  {
    if s != [] && IsJsWhitespace(s[0]) then TrimStart(s[1..]) else s
  }

  /** `s.trimEnd()`: drops the trailing white space, and only that. */
  function TrimEnd(s: string): (r: string)
    ensures |r| <= |s| && r == s[..|r|]
    ensures r != [] ==> !IsJsWhitespace(r[|r| - 1])
    ensures forall i :: |r| <= i < |s| ==> IsJsWhitespace(s[i])
  {
    if s != [] && IsJsWhitespace(s[|s| - 1]) then TrimEnd(s[..|s| - 1]) else s
  }

  /** A string that does not start with white space is its own `trimStart`. */
  lemma TrimStartNonBlank(s: string)
    requires s != [] && !IsJsWhitespace(s[0])
    ensures TrimStart(s) == s
  {
  }

  /** `s.trim()`. */
  function Trim(s: string): string {
    TrimEnd(TrimStart(s))
  }

  lemma {:induction false} TrimEndKeepsFirst(s: string)
    requires s != [] && !IsJsWhitespace(s[0])
    ensures TrimEnd(s) != [] && TrimEnd(s)[0] == s[0]
  {
    if IsJsWhitespace(s[|s| - 1]) {
      TrimEndKeepsFirst(s[..|s| - 1]);
    }
  }

  /** The result of trim starts and ends with a non-white-space character. */
  lemma TrimEnds(s: string)
    ensures Trim(s) != [] ==> !IsJsWhitespace(Trim(s)[0]) && !IsJsWhitespace(Trim(s)[|Trim(s)| - 1])
  {
    if TrimStart(s) != [] {
      TrimEndKeepsFirst(TrimStart(s));
    }
  }

  /** `t` is the part of `s` from offset `k` on, with only white space around it. */
  predicate TrimmedFrom(s: string, k: nat, t: string) {
    && k + |t| <= |s| && t == s[k..k + |t|]
    && (forall i :: 0 <= i < k ==> IsJsWhitespace(s[i]))
    && (forall i :: k + |t| <= i < |s| ==> IsJsWhitespace(s[i]))
  }

  /** White space dropped from the front of `s` and then from the back of what is left leaves a part of `s` trimmed on both sides. */
  lemma TrimmedFromParts(s: string, u: string, t: string)
    requires |u| <= |s| && u == s[|s| - |u|..]
    requires forall i :: 0 <= i < |s| - |u| ==> IsJsWhitespace(s[i])
    requires |t| <= |u| && t == u[..|t|]
    requires forall i :: |t| <= i < |u| ==> IsJsWhitespace(u[i])
    ensures TrimmedFrom(s, |s| - |u|, t)
  {
    var k := |s| - |u|;
    assert t == s[k..k + |t|];
    forall i | k + |t| <= i < |s|
      ensures IsJsWhitespace(s[i])
    {
      assert s[i] == u[i - k];
    }
  }

  /** Trim keeps the part of `s` from the end of its leading white space on, and removes only white space around it. */
  lemma TrimSlice(s: string)
    ensures TrimmedFrom(s, |s| - |TrimStart(s)|, Trim(s))
  {
    TrimmedFromParts(s, TrimStart(s), TrimEnd(TrimStart(s)));
  }

  /** A string that starts and ends with non-white-space is its own trim. */
  lemma TrimFixed(s: string)
    requires s != [] ==> !IsJsWhitespace(s[0]) && !IsJsWhitespace(s[|s| - 1])
    ensures Trim(s) == s
  {
  }

  /** Removes every trailing occurrence of `c`: `s.replace(/c+$/, '')`. */
  function StripTrailing(s: string, c: char): (r: string)
    ensures |r| <= |s| && r == s[..|r|]
    ensures r != [] ==> r[|r| - 1] != c
    ensures forall i :: |r| <= i < |s| ==> s[i] == c
  {
    if s != [] && s[|s| - 1] == c then StripTrailing(s[..|s| - 1], c) else s
  }

  predicate EndsWith(s: string, suffix: string) {
    |suffix| <= |s| && s[|s| - |suffix|..] == suffix
  }

  predicate Contains(s: string, c: char) {
    exists i :: 0 <= i < |s| && s[i] == c
  }

  /** `s.split(sep)` for a one-character separator: the pieces between separators, in order. */
  function Split(s: string, sep: char): (parts: seq<string>)
    ensures |parts| >= 1
    ensures forall k, i :: 0 <= k < |parts| && 0 <= i < |parts[k]| ==> parts[k][i] != sep
  {
    if s == [] then [[]]
    else if s[0] == sep then [[]] + Split(s[1..], sep)
    else
      var rest := Split(s[1..], sep);
      [[s[0]] + rest[0]] + rest[1..]
  }

  /** A string without the separator is one piece. */
  lemma {:induction false} SplitNoSep(s: string, sep: char)
    requires forall i :: 0 <= i < |s| ==> s[i] != sep
    ensures Split(s, sep) == [s]
  {
    if s != [] {
      SplitNoSep(s[1..], sep);
      assert [s[0]] + s[1..] == s;
    }
  }

  /** A first piece without the separator, then the separator: that piece, then the pieces of the rest. */
  lemma {:induction false} SplitPrefix(a: string, b: string, sep: char)
    requires forall i :: 0 <= i < |a| ==> a[i] != sep
    ensures Split(a + [sep] + b, sep) == [a] + Split(b, sep)
  {
    var s := a + [sep] + b;
    if a == [] {
      assert s == [sep] + b;
      assert s[1..] == b;
    } else {
      assert s[1..] == a[1..] + [sep] + b;
      SplitPrefix(a[1..], b, sep);
      assert [a[0]] + a[1..] == a;
    }
  }

  /** `parts.join(sep)`. */
  function Join(parts: seq<string>, sep: char): string
    requires |parts| >= 1
  {
    if |parts| == 1 then parts[0] else parts[0] + [sep] + Join(parts[1..], sep)
  }

  /** Splitting and joining on the same separator gives the string back. */
  lemma {:induction false} JoinSplit(s: string, sep: char)
    ensures Join(Split(s, sep), sep) == s
  {
    if s != [] {
      JoinSplit(s[1..], sep);
      var rest := Split(s[1..], sep);
      if s[0] == sep {
        assert Split(s, sep)[1..] == rest;
      } else {
        var parts := Split(s, sep);
        if |rest| == 1 {
          assert parts == [[s[0]] + rest[0]];
        } else {
          assert parts[1..] == rest[1..];
        }
      }
    }
  }

  /** Splitting a join of separator-free pieces gives the pieces back. */
  lemma {:induction false} SplitJoin(parts: seq<string>, sep: char)
    requires |parts| >= 1
    requires forall k, i :: 0 <= k < |parts| && 0 <= i < |parts[k]| ==> parts[k][i] != sep
    ensures Split(Join(parts, sep), sep) == parts
    decreases |parts|, |parts[0]|
  {
    if parts[0] != [] {
      var p0 := parts[0];
      var rest := [p0[1..]] + parts[1..];
      SplitJoin(rest, sep);
      assert Join(parts, sep)[1..] == Join(rest, sep) by {
        if |parts| > 1 {
          assert Join(rest, sep) == p0[1..] + [sep] + Join(parts[1..], sep);
        }
      }
      assert [p0[0]] + p0[1..] == p0;
    } else if |parts| > 1 {
      SplitJoin(parts[1..], sep);
      assert Join(parts, sep)[1..] == Join(parts[1..], sep);
    }
  }

  /** Strict lexicographic order on strings: a proper prefix comes first, then by first difference. */
  predicate LexLess(a: string, b: string)
    decreases |a|
  {
    if a == [] then b != []
    else b != [] && (a[0] < b[0] || (a[0] == b[0] && LexLess(a[1..], b[1..])))
  }

  lemma {:induction false} LexLessIrreflexive(a: string)
    ensures !LexLess(a, a)
  {
    if a != [] {
      LexLessIrreflexive(a[1..]);
    }
  }

  lemma {:induction false} LexLessTransitive(a: string, b: string, c: string)
    requires LexLess(a, b) && LexLess(b, c)
    ensures LexLess(a, c)
    decreases |a|
  {
    if a != [] && a[0] == b[0] && b[0] == c[0] {
      LexLessTransitive(a[1..], b[1..], c[1..]);
    }
  }

  /** Any two different strings are ordered one way or the other. */
  lemma {:induction false} LexLessTotal(a: string, b: string)
    requires a != b
    ensures LexLess(a, b) || LexLess(b, a)
    decreases |a|
  {
    if a != [] && b != [] && a[0] == b[0] {
      assert a == [a[0]] + a[1..] && b == [b[0]] + b[1..];
      LexLessTotal(a[1..], b[1..]);
    }
  }

  predicate IsDigit(c: char) {
    '0' <= c <= '9'
  }

  function DigitChar(d: nat): (c: char)
    requires d < 10
    ensures IsDigit(c)
  {
    "0123456789"[d]
  }

  function DigitValue(c: char): (d: nat)
    requires IsDigit(c)
    ensures d < 10 && DigitChar(d) == c
  {
    (c as int - '0' as int) as nat
  }

  predicate AllDigits(s: string) {
    forall i :: 0 <= i < |s| ==> IsDigit(s[i])
  }

  /** The decimal value of a string of digits; the empty string reads as 0. */
  function DigitsValue(s: string): nat
    requires AllDigits(s)
  {
    if s == [] then 0 else 10 * DigitsValue(s[..|s| - 1]) + DigitValue(s[|s| - 1])
  }

  /** `String(n)` for a natural number: decimal digits without leading zeros. */
  function NatToString(n: nat): (s: string)
    ensures s != [] && AllDigits(s)
    ensures |s| == 1 <==> n < 10
  {
    if n < 10 then [DigitChar(n)] else NatToString(n / 10) + [DigitChar(n % 10)]
  }

  /** `String(n)` for an integer. */
  function IntToString(n: int): string {
    if n < 0 then "-" + NatToString(-n) else NatToString(n)
  }

  /** Reading back the digits of a natural number gives the number. */
  lemma {:induction false} DigitsValueOfNatToString(n: nat)
    ensures DigitsValue(NatToString(n)) == n
  {
    if n >= 10 {
      DigitsValueOfNatToString(n / 10);
      var s := NatToString(n);
      assert s[..|s| - 1] == NatToString(n / 10);
    }
  }

  /** The longest prefix of digits. */
  function DigitPrefix(s: string): (r: string)
    ensures AllDigits(r) && |r| <= |s| && r == s[..|r|]
    ensures |r| < |s| ==> !IsDigit(s[|r|])
  {
    if s != [] && IsDigit(s[0]) then [s[0]] + DigitPrefix(s[1..]) else []
  }

  lemma {:induction false} DigitPrefixOfDigits(s: string, t: string)
    requires AllDigits(s) && (t != [] ==> !IsDigit(t[0]))
    ensures DigitPrefix(s + t) == s
  {
    if s != [] {
      assert (s + t)[1..] == s[1..] + t;
      DigitPrefixOfDigits(s[1..], t);
    } else {
      assert s + t == t;
    }
  }

  /** An optional leading sign: whether it was '-', and the rest. */
  function SplitSign(s: string): (bool, string) {
    if s != [] && (s[0] == '-' || s[0] == '+') then (s[0] == '-', s[1..]) else (false, s)
  }

  /**
    `parseInt(s, 10)`: leading white space, an optional sign and the longest
    run of digits; None stands for NaN, when there are no digits.
   */
  function ParseInt(s: string): Option<int> {
    var (negative, rest) := SplitSign(TrimStart(s));
    var digits := DigitPrefix(rest);
    if digits == [] then None
    else if negative then Some(-(DigitsValue(digits) as int))
    else Some(DigitsValue(digits))
  }

  /**
    `Math.floor(parseFloat(s))` for decimal notation: an optional sign,
    digits, and an optional fraction; None stands for NaN.
   */
  function FloorParseFloat(s: string): Option<int> {
    var (negative, rest) := SplitSign(TrimStart(s));
    var whole := DigitPrefix(rest);
    var after := rest[|whole|..];
    var fraction := if after != [] && after[0] == '.' then DigitPrefix(after[1..]) else [];
    if whole == [] && fraction == [] then None
    else if !negative then Some(DigitsValue(whole))
    else if DigitsValue(fraction) == 0 then Some(-(DigitsValue(whole) as int))
    else Some(-(DigitsValue(whole) as int) - 1)
  }

  lemma NatToStringStart(n: nat)
    ensures !IsJsWhitespace(NatToString(n)[0])
    ensures NatToString(n)[0] != '-' && NatToString(n)[0] != '+'
  {
    assert IsDigit(NatToString(n)[0]);
  }

  /** parseInt of a minus sign and digits reads the negated digits. */
  lemma ParseIntOfNegative(digits: string)
    requires digits != [] && AllDigits(digits)
    ensures ParseInt("-" + digits) == Some(-(DigitsValue(digits) as int))
  {
    var s := "-" + digits;
    assert s[0] == '-' && s[1..] == digits;
    TrimStartNonBlank(s);
    DigitPrefixOfDigits(digits, []);
    assert digits + [] == digits;
    ParseIntOfMinus(s);
  }

  /** The last step of ParseIntOfNegative, over a plain string. */
  lemma ParseIntOfMinus(s: string)
    requires s != [] && s[0] == '-' && TrimStart(s) == s
    requires s[1..] != [] && DigitPrefix(s[1..]) == s[1..]
    ensures ParseInt(s) == Some(-(DigitsValue(s[1..]) as int))
  {
    assert SplitSign(TrimStart(s)) == (true, s[1..]);
  }

  /** parseInt reads back what String(n) writes. */
  lemma ParseIntOfIntToString(n: int)
    ensures ParseInt(IntToString(n)) == Some(n)
  {
    var m: nat := if n < 0 then -n else n;
    DigitsValueOfNatToString(m);
    if n < 0 {
      ParseIntOfNegative(NatToString(m));
    } else {
      ParseIntOfDigits(NatToString(m), []);
      assert NatToString(m) + [] == NatToString(m);
    }
  }

  /** A string that starts with digits: the position after them holds no digit. */
  predicate DigitsThen(whole: string, tail: string) {
    whole != [] && AllDigits(whole) && (tail != [] ==> !IsDigit(tail[0]))
  }

  /** parseInt of unsigned digits followed by anything else reads the digits, leading zeros included. */
  lemma ParseIntOfDigits(whole: string, tail: string)
    requires DigitsThen(whole, tail)
    ensures ParseInt(whole + tail) == Some(DigitsValue(whole))
  {
    assert (whole + tail)[0] == whole[0];
    assert IsDigit(whole[0]);
    TrimStartNonBlank(whole + tail);
    DigitPrefixOfDigits(whole, tail);
  }

  /**
    Flooring parseFloat of unsigned digits followed by anything else, such
    as a fraction, gives the whole part.
   */
  lemma FloorParseFloatOfDigits(whole: string, tail: string)
    requires DigitsThen(whole, tail)
    ensures FloorParseFloat(whole + tail) == Some(DigitsValue(whole))
  {
    assert (whole + tail)[0] == whole[0];
    assert IsDigit(whole[0]);
    TrimStartNonBlank(whole + tail);
    DigitPrefixOfDigits(whole, tail);
  }

  /** `s.padStart(width, c)`. */
  function PadStart(s: string, width: nat, c: char): (r: string)
    ensures |r| == if |s| >= width then |s| else width
    ensures EndsWith(r, s)
  {
    if |s| >= width then s else seq(width - |s|, _ => c) + s
  }
}
