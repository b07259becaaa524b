/** The pieces of Python's `str` behaviour that the application relies on:
    `str.isspace` / `str.strip`, `str.isdigit`, ASCII `str.lower`, and the
    decimal rendering `str(n)` of a non-negative integer. */
module Text {

  /** The characters `str.isspace` accepts, which is what `str.strip()`
      removes from both ends. */
  predicate IsSpace(c: char)
  {
    || c == ' '
    || ('\t' <= c <= '\r')
    || ('\U{1C}' <= c <= '\U{1F}')
    || c == '\U{85}' || c == '\U{A0}' || c == '\U{1680}'
    || ('\U{2000}' <= c <= '\U{200A}')
    || c == '\U{2028}' || c == '\U{2029}' || c == '\U{202F}' || c == '\U{205F}'
    || c == '\U{3000}'
  }

  predicate IsDigit(c: char)
  {
    '0' <= c <= '9'
  }

  predicate AllSpace(s: string)
  {
    forall i :: 0 <= i < |s| ==> IsSpace(s[i])
  }

  /** How many white-space characters `s` starts with. */
  function LeadingSpaces(s: string): (n: nat)
    ensures n <= |s|
  {
    if s != [] && IsSpace(s[0]) then 1 + LeadingSpaces(s[1..]) else 0
  }

  /** How many white-space characters `s` ends with. */
  function TrailingSpaces(s: string): (n: nat)
    ensures n <= |s|
  {
    if s != [] && IsSpace(s[|s| - 1]) then 1 + TrailingSpaces(s[..|s| - 1]) else 0
  }

  /** `s.strip()`: drop the leading, then the trailing white space. */
  function Strip(s: string): (r: string)
    ensures |r| <= |s|
  {
    var t := s[LeadingSpaces(s)..];
    t[..|t| - TrailingSpaces(t)]
  }

  /** The leading white space is all white space, and it is maximal. */
  lemma {:induction false} LeadingSpacesSpec(s: string)
    ensures AllSpace(s[..LeadingSpaces(s)])
    ensures LeadingSpaces(s) < |s| ==> !IsSpace(s[LeadingSpaces(s)])
  {
    if s != [] && IsSpace(s[0]) {
      LeadingSpacesSpec(s[1..]);
      var n := LeadingSpaces(s);
      forall i | 0 <= i < n ensures IsSpace(s[..n][i]) {
        if i > 0 { assert s[..n][i] == s[1..][..n - 1][i - 1]; }
      }
    }
  }

  /** The trailing white space is all white space, and it is maximal. */
  lemma {:induction false} TrailingSpacesSpec(s: string)
    ensures AllSpace(s[|s| - TrailingSpaces(s)..])
    ensures TrailingSpaces(s) < |s| ==> !IsSpace(s[|s| - 1 - TrailingSpaces(s)])
  {
    if s != [] && IsSpace(s[|s| - 1]) {
      var init := s[..|s| - 1];
      TrailingSpacesSpec(init);
      var n := TrailingSpaces(s);
      forall i | |s| - n <= i < |s| ensures IsSpace(s[i]) {
        if i < |s| - 1 { assert s[i] == init[|init| - (n - 1)..][i - (|init| - (n - 1))]; }
      }

    }
  }

  /** Where the slice kept by `s.strip()` begins and ends. */
  lemma StripBounds(s: string) returns (a: nat, b: nat)
    ensures a <= b <= |s| && Strip(s) == s[a..b] && AllSpace(s[..a]) && AllSpace(s[b..])
  {
    a := LeadingSpaces(s);
    var t := s[a..];
    b := a + |t| - TrailingSpaces(t);
    LeadingSpacesSpec(s);
    TrailingSpacesSpec(t);
    assert s[b..] == t[|t| - TrailingSpaces(t)..];
  }

  /** What `s.strip()` keeps is one slice of `s`, with only white space outside
      it and no white space at either of its ends. */
  lemma StripIsInnerSlice(s: string)
    ensures exists a, b :: 0 <= a <= b <= |s| && Strip(s) == s[a..b] && AllSpace(s[..a]) && AllSpace(s[b..])
    ensures Strip(s) == [] || (!IsSpace(Strip(s)[0]) && !IsSpace(Strip(s)[|Strip(s)| - 1]))
  {
    var a := LeadingSpaces(s);
    var t := s[a..];
    var b := a + |t| - TrailingSpaces(t);
    LeadingSpacesSpec(s);
    TrailingSpacesSpec(t);
    assert Strip(s) == s[a..b];
    assert s[b..] == t[|t| - TrailingSpaces(t)..];
    var r := Strip(s);
    if r != [] {
      assert r[0] == s[a];
      assert r[|r| - 1] == t[|t| - 1 - TrailingSpaces(t)];
    }
  }

  /** A string with no white space at either end is its own `strip()`. */
  lemma StripNoEdgeSpace(s: string)
    requires s != [] && !IsSpace(s[0]) && !IsSpace(s[|s| - 1])
    ensures Strip(s) == s
  {
    assert LeadingSpaces(s) == 0;
    assert TrailingSpaces(s) == 0;
  }

  /** `s.strip()` is empty exactly when `s` is made of white space only. */
  lemma StripEmptyIffAllSpace(s: string)
    ensures Strip(s) == [] <==> AllSpace(s)
  {
    var r := Strip(s);
    StripIsInnerSlice(s);
    var a, b :| 0 <= a <= b <= |s| && r == s[a..b] && AllSpace(s[..a]) && AllSpace(s[b..]);
    if r == [] {
      forall i | 0 <= i < |s| ensures IsSpace(s[i]) {
        if i < a { assert s[..a][i] == s[i]; } else { assert s[b..][i - b] == s[i]; }
      }
    } else {
      assert s[a] == r[0];
    }
  }

  /** ASCII `str.lower` of one character. */
  function LowerChar(c: char): char
  {
    if 'A' <= c <= 'Z' then (c as int + 32) as char else c
  }

  function Lower(s: string): string
  {
    seq(|s|, i requires 0 <= i < |s| => LowerChar(s[i]))
  }

  function DigitChar(d: nat): (c: char)
    requires d < 10
    ensures IsDigit(c)
  {
    ('0' as int + d) as char
  }

  function DigitValue(c: char): nat
    requires IsDigit(c)
  {
    c as int - '0' as int
  }

  /** `str(n)` for a non-negative integer: its decimal digits, without leading zeros. */
  function Decimal(n: nat): (r: string)
    ensures r != [] && forall i :: 0 <= i < |r| ==> IsDigit(r[i])
    ensures (r[0] == '0') <==> (n == 0)
    decreases n
  {
    if n < 10 then [DigitChar(n)] else Decimal(n / 10) + [DigitChar(n % 10)]
  }

  /** The value a string of decimal digits denotes, the inverse of `Decimal`. */
  function DecimalValue(s: string): nat
    requires forall i :: 0 <= i < |s| ==> IsDigit(s[i])
  {
    if s == [] then 0 else 10 * DecimalValue(s[..|s| - 1]) + DigitValue(s[|s| - 1])
  }

  /** Reading back what `str(n)` prints gives `n`. */
  lemma {:induction false} DecimalRoundTrip(n: nat)
    ensures DecimalValue(Decimal(n)) == n
    decreases n
  {
    var r := Decimal(n);
    if n >= 10 {
      DecimalRoundTrip(n / 10);
      assert r[..|r| - 1] == Decimal(n / 10);
    }
  }

  /** A number has at least three decimal digits exactly when it is at least 100. */
  lemma {:induction false} DecimalLengthAtLeastThree(n: nat)
    ensures |Decimal(n)| >= 3 <==> n >= 100
  {
    if n >= 10 {
      assert |Decimal(n)| == |Decimal(n / 10)| + 1;
      if n / 10 >= 10 {
        assert |Decimal(n / 10)| == |Decimal(n / 100)| + 1;
      }
    }
  }
}
