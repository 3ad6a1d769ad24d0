/** The two Python string built-ins the request path relies on: `str.strip()`
    with no argument, and `str(n)` of an integer (used inside f-strings).
    `ParseInt` is an independent reader of decimal text, the partner of
    `IntToString`. */
module PyText {
  import opened Wrappers

  /** The characters for which Python 3's `str.isspace()` holds. */
  const Whitespace: set<char> :=
    {'\t', '\n', '\U{B}', '\U{C}', '\r', '\U{1C}', '\U{1D}', '\U{1E}', '\U{1F}', ' ',
     '\U{85}', '\U{A0}', '\U{1680}',
     '\U{2000}', '\U{2001}', '\U{2002}', '\U{2003}', '\U{2004}', '\U{2005}',
     '\U{2006}', '\U{2007}', '\U{2008}', '\U{2009}', '\U{200A}',
     '\U{2028}', '\U{2029}', '\U{202F}', '\U{205F}', '\U{3000}'}

  /** `c.isspace()`: the characters `str.strip()` removes. */
  predicate IsSpace(c: char)
  {
    c in Whitespace
  }

  /** Neither end of `s` is whitespace. */
  predicate IsStripped(s: string)
  {
    s != [] ==> !IsSpace(s[0]) && !IsSpace(s[|s| - 1])
  }

  /** Python's `s.strip()`: leading and trailing whitespace cut away one
      character at a time, so that the result neither starts nor ends with
      whitespace. */
  function Strip(s: string): (r: string)
    ensures IsStripped(r) && |r| <= |s|
    decreases |s|
  {
    if s != [] && IsSpace(s[0]) then Strip(s[1..])
    else if s != [] && IsSpace(s[|s| - 1]) then Strip(s[..|s| - 1])
    else s
  }

  /** How many whitespace characters `s` starts with. */
  function LeadingSpaces(s: string): (k: nat)
    ensures k <= |s|
  {
    if s != [] && IsSpace(s[0]) then 1 + LeadingSpaces(s[1..]) else 0
  }

  /** Every character of `s` is whitespace. */
  predicate IsBlank(s: string)
  {
    forall i :: 0 <= i < |s| ==> IsSpace(s[i])
  }

  /** `r` is the slice of `s` starting at `k`, with only whitespace before
      and after it. */
  predicate IsCoreOf(s: string, r: string, k: nat)
  {
    && k + |r| <= |s| && r == s[k..k + |r|]
    && IsBlank(s[..k]) && IsBlank(s[k + |r|..])
  }

  /** Putting one whitespace character back in front moves the slice one
      place to the right. */
  lemma CoreAfterSpace(s: string, r: string, k: nat)
    requires s != [] && IsSpace(s[0]) && IsCoreOf(s[1..], r, k)
    ensures IsCoreOf(s, r, k + 1)
  {
    var t := s[1..];
    assert t[k..k + |r|] == s[k + 1..k + 1 + |r|];
    assert s[..k + 1] == [s[0]] + t[..k];
    assert s[k + 1 + |r|..] == t[k + |r|..];
  }

  /** Putting one whitespace character back at the end keeps the slice. */
  lemma CoreBeforeSpace(s: string, r: string)
    requires s != [] && IsSpace(s[|s| - 1]) && IsCoreOf(s[..|s| - 1], r, 0)
    ensures IsCoreOf(s, r, 0)
  {
    var u := s[..|s| - 1];
    assert u[..|r|] == s[..|r|];
    assert s[|r|..] == u[|r|..] + [s[|s| - 1]];
  }

  /** What `strip` keeps is the slice of `s` that starts after its leading
      whitespace, and everything cut away before and after it is whitespace. */
  lemma {:induction false} StripIsSlice(s: string)
    ensures IsCoreOf(s, Strip(s), LeadingSpaces(s))
    decreases |s|
  {
    if s != [] && IsSpace(s[0]) {
      StripIsSlice(s[1..]);
      CoreAfterSpace(s, Strip(s[1..]), LeadingSpaces(s[1..]));
    } else if s != [] && IsSpace(s[|s| - 1]) {
      var u := s[..|s| - 1];
      StripIsSlice(u);
      assert LeadingSpaces(u) == 0 by {
        if u != [] { assert u[0] == s[0]; }
      }
      CoreBeforeSpace(s, Strip(u));
    } else {
      assert s[..0] == [] && s[|s|..] == [];
    }
  }

  /** `s.strip()` is empty exactly when `s` is all whitespace. */
  lemma StripEmptyIff(s: string)
    ensures Strip(s) == [] <==> IsBlank(s)
  {
    StripIsSlice(s);
    var k := LeadingSpaces(s);
    var r := Strip(s);
    if r == [] {
      assert s == s[..k] + s[k..];
    } else {
      assert r[0] == s[k];
      assert !IsSpace(s[k]);
    }
  }

  /** Text with no whitespace at either end is its own strip. */
  lemma StrippedIsFixed(s: string)
    requires IsStripped(s)
    ensures Strip(s) == s
  {
  }

  /** Stripping twice is stripping once. */
  lemma StripIdempotent(s: string)
    ensures Strip(Strip(s)) == Strip(s)
  {
    StrippedIsFixed(Strip(s));
  }

  predicate IsDigit(c: char)
  {
    '0' <= c <= '9'
  }

  predicate AllDigits(s: string)
  {
    forall i :: 0 <= i < |s| ==> IsDigit(s[i])
  }

  function DigitChar(d: int): (c: char)
    requires 0 <= d < 10
    ensures IsDigit(c) && c as int - '0' as int == d
  {
    ('0' as int + d) as char
  }

  /** Decimal digits of `n`, most significant first, without leading zeros. */
  function NatToString(n: nat): (r: string)
    ensures |r| >= 1 && IsDigit(r[0])
    ensures |r| > 1 ==> r[0] != '0'
  {
    if n < 10 then [DigitChar(n)] else NatToString(n / 10) + [DigitChar(n % 10)]
  }

  /** Python's `str(n)` for an integer: a minus sign before the digits of a
      negative number. */
  function IntToString(n: int): (r: string)
    ensures r != []
    ensures r[0] == '-' <==> n < 0
  {
    if n < 0 then "-" + NatToString(-n) else NatToString(n)
  }

  /** The value of a string of decimal digits (0 for the empty string). */
  function ParseNat(s: string): nat
    requires AllDigits(s)
  {
    if s == [] then 0 else ParseNat(s[..|s| - 1]) * 10 + (s[|s| - 1] as int - '0' as int)
  }

  /** Reads an optionally signed decimal integer; `None` for anything else. */
  function ParseInt(s: string): Option<int>
  {
    if s != [] && s[0] == '-' && |s| > 1 && AllDigits(s[1..]) then Some(-(ParseNat(s[1..]) as int))
    else if s != [] && AllDigits(s) then Some(ParseNat(s))
    else None
  }

  /** `str(n)` writes decimal digits only. */
  lemma {:induction false} NatToStringDigits(n: nat)
    ensures AllDigits(NatToString(n))
  {
    if n >= 10 {
      NatToStringDigits(n / 10);
    }
  }

  lemma {:induction false} NatToStringRoundTrip(n: nat)
    ensures AllDigits(NatToString(n))
    ensures ParseNat(NatToString(n)) == n
  {
    NatToStringDigits(n);
    if n >= 10 {
      NatToStringRoundTrip(n / 10);
      var s := NatToString(n);
      assert s[..|s| - 1] == NatToString(n / 10);
    }
  }

  /** A minus sign before a digit string reads as the negated value. */
  lemma ParseSigned(d: string)
    requires |d| >= 1 && AllDigits(d)
    ensures ParseInt("-" + d) == Some(-(ParseNat(d) as int))
  {
    assert ("-" + d)[1..] == d;
  }

  /** A digit string reads as its value. */
  lemma ParseUnsigned(d: string)
    requires |d| >= 1 && AllDigits(d)
    ensures ParseInt(d) == Some(ParseNat(d))
  {
    assert IsDigit(d[0]);
  }

  /** Reading back what `str(n)` wrote gives `n`. */
  lemma IntToStringRoundTrip(n: int)
    ensures ParseInt(IntToString(n)) == Some(n)
  {
    if n < 0 {
      NatToStringRoundTrip(-n);
      ParseSigned(NatToString(-n));
    } else {
      NatToStringRoundTrip(n);
      ParseUnsigned(NatToString(n));
    }
  }
}
