/**
 * Text helpers shared by the formatters: Python's `str.split`/`str.join` on a
 * single-character separator, decimal formatting of integers (`str(n)`,
 * `f"{n:02d}"`), and Python's `int(text)` parser.
 */
module Strings {
  import opened Wrappers

  // ---------------------------------------------------------------------------
  // Splitting and joining on one character

  /** `s.split(sep)`: the pieces between separators, empty pieces included. */
  function Split(s: string, sep: char): (pieces: seq<string>)
    ensures |pieces| >= 1
    ensures forall i :: 0 <= i < |pieces| ==> sep !in pieces[i]
    decreases |s|
  {
    if s == [] then [""]
    else
      var rest := Split(s[1..], sep);
      if s[0] == sep then [""] + rest
      else [[s[0]] + rest[0]] + rest[1..]
  }

  /** `sep.join(pieces)`. */
  function Join(pieces: seq<string>, sep: char): (text: string)
    ensures pieces != [] ==> pieces[0] <= text
    ensures |pieces| > 1 ==> |text| > |pieces[0]| && text[|pieces[0]|] == sep
    decreases |pieces|
  {
    if pieces == [] then ""
    else if |pieces| == 1 then pieces[0]
    else pieces[0] + [sep] + Join(pieces[1..], sep)
  }

  /** Joining the pieces of a split gives back the original text. */
  lemma {:induction false} JoinSplit(s: string, sep: char)
    ensures Join(Split(s, sep), sep) == s
    decreases |s|
  {
    if s != [] {
      JoinSplit(s[1..], sep);
      var rest := Split(s[1..], sep);
      if s[0] == sep {
        assert Split(s, sep) == [""] + rest;
        assert ([""] + rest)[1..] == rest;
      } else {
        var ps := Split(s, sep);
        assert ps == [[s[0]] + rest[0]] + rest[1..];
        if |rest| == 1 {
          assert ps == [[s[0]] + rest[0]];
          assert Join(rest, sep) == rest[0];
        } else {
          assert ps[1..] == rest[1..];
          assert Join(rest, sep) == rest[0] + [sep] + Join(rest[1..], sep);
        }
      }
    }
  }

  /** Splitting the join of separator-free pieces gives back the pieces. */
  lemma {:induction false} SplitJoin(pieces: seq<string>, sep: char)
    requires |pieces| >= 1
    requires forall i :: 0 <= i < |pieces| ==> sep !in pieces[i]
    ensures Split(Join(pieces, sep), sep) == pieces
    decreases |pieces|
  {
    if |pieces| == 1 {
      SplitNoSeparator(pieces[0], sep);
    } else {
      SplitJoin(pieces[1..], sep);
      assert Join(pieces, sep) == pieces[0] + [sep] + Join(pieces[1..], sep);
      SplitAround(pieces[0], Join(pieces[1..], sep), sep);
      SplitNoSeparator(pieces[0], sep);
      assert [pieces[0]] + pieces[1..] == pieces;
    }
  }

  /** Text without the separator splits into itself. */
  lemma {:induction false} SplitNoSeparator(s: string, sep: char)
    requires sep !in s
    ensures Split(s, sep) == [s]
    decreases |s|
  {
    if s != [] {
      assert sep !in s[1..] by { assert forall i :: 0 <= i < |s[1..]| ==> s[1..][i] == s[i + 1]; }
      SplitNoSeparator(s[1..], sep);
      assert [s[0]] + s[1..] == s;
    }
  }

  lemma AppendAssoc<T>(x: seq<T>, y: seq<T>, z: seq<T>)
    ensures x + (y + z) == (x + y) + z
  {
  }

  /** Extending the first piece commutes with appending more pieces. */
  lemma ExtendFirst(c: string, x: seq<string>, y: seq<string>)
    requires |x| >= 1
    ensures [c + (x + y)[0]] + (x + y)[1..] == ([c + x[0]] + x[1..]) + y
  {
    assert (x + y)[0] == x[0];
    assert (x + y)[1..] == x[1..] + y;
  }

  /** Splitting `a + sep + b` splits `a` and `b` separately. */
  lemma {:induction false} SplitAround(a: string, b: string, sep: char)
    ensures Split(a + [sep] + b, sep) == Split(a, sep) + Split(b, sep)
    decreases |a|
  {
    var s := a + [sep] + b;
    if a == [] {
      assert s[0] == sep && s[1..] == b;
    } else {
      assert s[0] == a[0] && s[1..] == a[1..] + [sep] + b;
      SplitAround(a[1..], b, sep);
      var ra := Split(a[1..], sep);
      var rb := Split(b, sep);
      if a[0] == sep {
        assert Split(s, sep) == [""] + (ra + rb);
        assert Split(a, sep) == [""] + ra;
        AppendAssoc([""], ra, rb);
      } else {
        assert Split(s, sep) == [[a[0]] + (ra + rb)[0]] + (ra + rb)[1..];
        assert Split(a, sep) == [[a[0]] + ra[0]] + ra[1..];
        ExtendFirst([a[0]], ra, rb);
      }
    }
  }

  /** Two separator-free pieces joined by the separator split back into the two. */
  lemma SplitPair(a: string, b: string, sep: char)
    requires sep !in a && sep !in b
    ensures Split(a + [sep] + b, sep) == [a, b]
  {
    SplitAround(a, b, sep);
    SplitNoSeparator(a, sep);
    SplitNoSeparator(b, sep);
  }

  lemma DropCommonPrefix<T>(h: seq<T>, x: seq<T>, y: seq<T>)
    requires h + x == h + y
    ensures x == y
  {
    assert x == (h + x)[|h|..];
    assert y == (h + y)[|h|..];
  }

  lemma DropCommonSuffix<T>(x: seq<T>, y: seq<T>, t: seq<T>)
    requires x + t == y + t
    ensures x == y
  {
    assert x == (x + t)[..|x|];
    assert y == (y + t)[..|y|];
  }

  /** `[:-1]` of a list: everything but the last element. */
  function DropLast<T>(s: seq<T>): (r: seq<T>)
    requires |s| >= 1
    ensures |r| == |s| - 1 && r == s[..|s| - 1]
  {
    s[..|s| - 1]
  }

  // ---------------------------------------------------------------------------
  // Decimal digits

  predicate IsDigit(c: char) { '0' <= c <= '9' }

  predicate AllDigits(s: string) { forall i :: 0 <= i < |s| ==> IsDigit(s[i]) }

  function DigitChar(d: nat): (c: char)
    requires d < 10
    ensures IsDigit(c) && DigitValue(c) == d
  {
    ('0' as int + d) as char
  }

  function DigitValue(c: char): nat
    requires IsDigit(c)
  {
    c as int - '0' as int
  }

  /** The value of a string of decimal digits, most significant first. */
  function DigitsValue(s: string): nat
    requires AllDigits(s)
    decreases |s|
  {
    if s == [] then 0 else DigitsValue(s[..|s| - 1]) * 10 + DigitValue(s[|s| - 1])
  }

  /** `str(n)` for a non-negative integer: shortest decimal, no leading zero. */
  function NatToDecimal(n: nat): (s: string)
    ensures |s| >= 1 && AllDigits(s)
    ensures |s| > 1 ==> s[0] != '0'
    ensures |s| == 1 <==> n < 10
    decreases n
  {
    if n < 10 then [DigitChar(n)] else NatToDecimal(n / 10) + [DigitChar(n % 10)]
  }

  /** Reading back the decimal text of `n` gives `n`. */
  lemma {:induction false} DecimalRoundTrip(n: nat)
    ensures DigitsValue(NatToDecimal(n)) == n
    decreases n
  {
    if n >= 10 {
      DecimalRoundTrip(n / 10);
      var s := NatToDecimal(n);
      assert s[..|s| - 1] == NatToDecimal(n / 10);
    }
  }

  /** Two decimal digits are printed for `10 <= n < 100`. */
  lemma DecimalTwoDigits(n: nat)
    ensures 10 <= n < 100 ==> |NatToDecimal(n)| == 2
  {
    if 10 <= n < 100 {
      assert NatToDecimal(n) == NatToDecimal(n / 10) + [DigitChar(n % 10)];
    }
  }

  /** `str(n)` for any integer. */
  function IntToDecimal(n: int): (s: string)
    ensures |s| >= 1
    ensures n >= 0 ==> s == NatToDecimal(n)
    ensures n < 0 ==> s == "-" + NatToDecimal(-n)
  {
    if n < 0 then "-" + NatToDecimal(-n) else NatToDecimal(n)
  }

  /** `f"{n:02d}"` for `n >= 0`: zero-padded to at least two digits. */
  function ZeroPad2(n: nat): (s: string)
    ensures |s| >= 2 && AllDigits(s)
    ensures DigitsValue(s) == n
    ensures n < 100 ==> |s| == 2
  {
    DecimalRoundTrip(n);
    if n < 10 then
      var s := "0" + NatToDecimal(n);
      assert s[..|s| - 1] == "0";
      s
    else
      DecimalTwoDigits(n);
      NatToDecimal(n)
  }

  // ---------------------------------------------------------------------------
  // Python's int(text) on ASCII text

  predicate IsSpace(c: char) { c == ' ' || c == '\t' || c == '\n' || c == '\r' || c as int == 11 || c as int == 12 }

  function StripLeft(s: string): (r: string)
    ensures |r| <= |s|
    ensures r != [] ==> !IsSpace(r[0])
    decreases |s|
  {
    if s != [] && IsSpace(s[0]) then StripLeft(s[1..]) else s
  }

  function StripRight(s: string): (r: string)
    ensures |r| <= |s|
    ensures r != [] ==> !IsSpace(r[|r| - 1])
    decreases |s|
  {
    if s != [] && IsSpace(s[|s| - 1]) then StripRight(s[..|s| - 1]) else s
  }

  /** `s.strip()` restricted to ASCII whitespace. */
  function Strip(s: string): string { StripRight(StripLeft(s)) }

  /** A run of one or more decimal digits, read as a number. */
  function ParseNat(s: string): (r: Option<nat>)
    ensures r.Some? <==> s != [] && AllDigits(s)
  {
    if s != [] && AllDigits(s) then Some(DigitsValue(s)) else None
  }

  /**
   * `int(text)`: surrounding whitespace is ignored, then an optional sign and
   * one or more digits. Anything else is a `ValueError`, here `None`.
   */
  function ParseInt(text: string): (r: Option<int>)
    ensures r.Some? ==> Strip(text) != [] && IsDigit(Strip(text)[|Strip(text)| - 1])
    ensures r.Some? && r.value < 0 ==> Strip(text)[0] == '-'
  {
    var t := Strip(text);
    if t != [] && (t[0] == '-' || t[0] == '+') then
      match ParseNat(t[1..])
      case Some(v) => Some(if t[0] == '-' then -(v as int) else v as int)
      case None => None
    else
      match ParseNat(t)
      case Some(v) => Some(v)
      case None => None
  }

  /** `int(str(n)) == n`, also with trailing whitespace such as a newline. */
  lemma IntRoundTrip(n: int, trailing: string)
    requires forall i :: 0 <= i < |trailing| ==> IsSpace(trailing[i])
    ensures ParseInt(IntToDecimal(n) + trailing) == Some(n)
  {
    var d := IntToDecimal(n);
    assert Strip(d + trailing) == d by {
      assert d[0] == '-' || IsDigit(d[0]);
      assert (d + trailing)[0] == d[0];
      assert StripLeft(d + trailing) == d + trailing;
      assert IsDigit(d[|d| - 1]);
      StripRightTrailing(d, trailing);
    }
    if n < 0 {
      assert d[1..] == NatToDecimal(-n);
      DecimalRoundTrip(-n);
    } else {
      DecimalRoundTrip(n);
    }
  }

  /** Stripping trailing whitespace from `s + trailing` leaves `s`, when `s` ends in a non-space. */
  lemma {:induction false} StripRightTrailing(s: string, trailing: string)
    requires s != [] && !IsSpace(s[|s| - 1])
    requires forall i :: 0 <= i < |trailing| ==> IsSpace(trailing[i])
    ensures StripRight(s + trailing) == s
    decreases |trailing|
  {
    if trailing == [] {
      assert s + trailing == s;
    } else {
      var t := s + trailing;
      assert t[|t| - 1] == trailing[|trailing| - 1];
      assert t[..|t| - 1] == s + trailing[..|trailing| - 1];
      StripRightTrailing(s, trailing[..|trailing| - 1]);
    }
  }
}
