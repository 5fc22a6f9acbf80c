/**
 * The pieces of java.lang behaviour that the user entity relies on:
 * the fixed-width integer types, `String.trim`, the decimal rendering
 * and parsing of a `long`, and `String.hashCode`.
 */
module JavaLang {
  import opened Wrappers

  /** Java's `long`. */
  newtype Long = x: int | -0x8000_0000_0000_0000 <= x < 0x8000_0000_0000_0000

  /** Java's `int`. */
  newtype Int32 = x: int | -0x8000_0000 <= x < 0x8000_0000

  const TwoTo32: int := 0x1_0000_0000

  // ---------------------------------------------------------------------
  // String.trim: strips every character whose code is at most ' ' (U+0020)
  // from both ends, and nothing else.

  predicate AllTrimChars(s: string) {
    forall i :: 0 <= i < |s| ==> s[i] <= ' '
  }

  /** A string that trim leaves alone: empty, or with no trim character at either end. */
  predicate IsTrimmed(s: string) {
    |s| == 0 || (s[0] > ' ' && s[|s| - 1] > ' ')
  }

  /** Drops the leading trim characters. */
  function TrimLeading(s: string): string {
    if |s| > 0 && s[0] <= ' ' then TrimLeading(s[1..]) else s
  }

  /** What TrimLeading leaves is a suffix of `s` starting with a non-trim character, and it dropped only trim characters. */
  lemma {:induction false} TrimLeadingIsSuffix(s: string)
    ensures |TrimLeading(s)| <= |s| && TrimLeading(s) == s[|s| - |TrimLeading(s)|..]
    ensures |TrimLeading(s)| == 0 || TrimLeading(s)[0] > ' '
    ensures AllTrimChars(s[..|s| - |TrimLeading(s)|])
  {
    if |s| > 0 && s[0] <= ' ' {
      TrimLeadingIsSuffix(s[1..]);
      var r := TrimLeading(s);
      assert s[1..][..|s| - 1 - |r|] == s[1..|s| - |r|];
      assert forall i :: 0 < i < |s| - |r| ==> s[i] == s[1..|s| - |r|][i - 1];
    }
  }

  /** Drops the trailing trim characters. */
  function TrimTrailing(s: string): string {
    if |s| > 0 && s[|s| - 1] <= ' ' then TrimTrailing(s[..|s| - 1]) else s
  }

  /** What TrimTrailing leaves is a prefix of `s` ending with a non-trim character, and it dropped only trim characters. */
  lemma {:induction false} TrimTrailingIsPrefix(s: string)
    ensures |TrimTrailing(s)| <= |s| && TrimTrailing(s) == s[..|TrimTrailing(s)|]
    ensures |TrimTrailing(s)| == 0 || TrimTrailing(s)[|TrimTrailing(s)| - 1] > ' '
    ensures AllTrimChars(s[|TrimTrailing(s)|..])
  {
    if |s| > 0 && s[|s| - 1] <= ' ' {
      var t := s[..|s| - 1];
      TrimTrailingIsPrefix(t);
      var r := TrimTrailing(s);
      assert t[..|r|] == s[..|r|];
      assert forall i :: |r| <= i < |s| - 1 ==> s[i] == t[|r|..][i - |r|];
    }
  }

  /** `String.trim()`: what it returns has no trim character at either end. */
  function Trim(s: string): (r: string)
    ensures IsTrimmed(r) && |r| <= |s|
  {
    var t := TrimLeading(s);
    TrimLeadingIsSuffix(s);
    TrimTrailingIsPrefix(t);
    var r := TrimTrailing(t);
    assert |r| > 0 ==> r[0] == t[0];
    r
  }

  /**
   * Trim only removes trim characters, and only from the ends: `s` is
   * `Trim(s)` with a run `a` of trim characters before it and a run `b` after.
   */
  lemma {:induction false} TrimDecomposes(s: string) returns (a: string, b: string)
    ensures AllTrimChars(a) && AllTrimChars(b)
    ensures s == a + Trim(s) + b
  {
    var t := TrimLeading(s);
    var r := TrimTrailing(t);
    TrimLeadingIsSuffix(s);
    TrimTrailingIsPrefix(t);
    a, b := s[..|s| - |t|], t[|r|..];
    SplitAt(s, |s| - |t|);
    SplitAt(t, |r|);
  }

  lemma SplitAt(s: string, k: nat)
    requires k <= |s|
    ensures s == s[..k] + s[k..]
  {
  }

  lemma {:induction false} TrimLeadingSkips(ws: string, t: string)
    requires AllTrimChars(ws)
    requires |t| == 0 || t[0] > ' '
    ensures TrimLeading(ws + t) == t
  {
    if |ws| > 0 {
      assert (ws + t)[1..] == ws[1..] + t;
      TrimLeadingSkips(ws[1..], t);
    } else {
      assert ws + t == t;
    }
  }

  lemma {:induction false} TrimTrailingSkips(t: string, ws: string)
    requires AllTrimChars(ws)
    requires |t| == 0 || t[|t| - 1] > ' '
    ensures TrimTrailing(t + ws) == t
  {
    if |ws| > 0 {
      assert (t + ws)[..|t + ws| - 1] == t + ws[..|ws| - 1];
      TrimTrailingSkips(t, ws[..|ws| - 1]);
    } else {
      assert t + ws == t;
    }
  }

  /**
   * Trim is determined by the decomposition: surrounding a trimmed string
   * with trim characters and trimming gives it back.
   */
  lemma {:induction false} TrimUnique(a: string, x: string, b: string)
    requires AllTrimChars(a) && AllTrimChars(b) && IsTrimmed(x)
    ensures Trim(a + x + b) == x
  {
    if |x| == 0 {
      assert a + x + b == (a + b) + "";
      TrimLeadingSkips(a + b, "");
      assert TrimLeading(a + x + b) == "";
    } else {
      assert a + x + b == a + (x + b);
      TrimLeadingSkips(a, x + b);
      TrimTrailingSkips(x, b);
    }
  }

  lemma TrimIdempotent(s: string)
    ensures Trim(Trim(s)) == Trim(s)
  {
    var t := Trim(s);
    assert "" + t + "" == t;
    TrimUnique("", t, "");
  }

  // ---------------------------------------------------------------------
  // Long.toString / String.valueOf(long), and Long.valueOf(String).

  predicate IsDigit(c: char) {
    '0' <= c <= '9'
  }

  predicate AllDigits(s: string) {
    forall i :: 0 <= i < |s| ==> IsDigit(s[i])
  }

  function DigitChar(d: int): (c: char)
    requires 0 <= d < 10
    ensures IsDigit(c) && c as int - '0' as int == d
  {
    ('0' as int + d) as char
  }

  /** The decimal digits of a natural number, most significant first, no leading zero. */
  function Digits(n: nat): (r: string)
    ensures |r| > 0 && AllDigits(r)
    ensures r[0] != '0' || n == 0
  {
    if n < 10 then [DigitChar(n)] else Digits(n / 10) + [DigitChar(n % 10)]
  }

  /** The value of a string of decimal digits. */
  function DigitsValue(s: string): nat
    requires AllDigits(s)
  {
    if s == [] then 0 else DigitsValue(s[..|s| - 1]) * 10 + (s[|s| - 1] as int - '0' as int)
  }

  lemma {:induction false} DigitsRoundTrip(n: nat)
    ensures DigitsValue(Digits(n)) == n
  {
    if n >= 10 {
      var d := Digits(n);
      assert d[..|d| - 1] == Digits(n / 10);
      DigitsRoundTrip(n / 10);
    }
  }

  /** `String.valueOf(long)`: a minus sign for negative values, then the digits. */
  function DecimalString(n: int): (r: string)
    ensures |r| > 0 && (r[0] == '-' <==> n < 0)
    ensures forall i :: 0 <= i < |r| ==> IsDigit(r[i]) || (i == 0 && r[i] == '-')
  {
    if n < 0 then "-" + Digits(-n) else Digits(n)
  }

  /**
   * `Long.valueOf(String)`: an optional '+' or '-', then at least one digit,
   * and a value inside the range of `long`; `None` is the NumberFormatException.
   */
  function ParseLong(s: string): (r: Option<Long>)
    ensures r.Some? ==> |s| > 0 && AllDigits(if s[0] == '-' || s[0] == '+' then s[1..] else s)
    ensures r.Some? ==> (r.value < 0 ==> s[0] == '-')
  {
    if |s| == 0 then None
    else
      var body := if s[0] == '-' || s[0] == '+' then s[1..] else s;
      if |body| == 0 || !AllDigits(body) then None
      else
        var v: int := if s[0] == '-' then -(DigitsValue(body) as int) else DigitsValue(body);
        if -0x8000_0000_0000_0000 <= v < 0x8000_0000_0000_0000 then Some(v as Long) else None
  }

  /** Parsing the rendering of a `long` gives the `long` back. */
  lemma LongRoundTrip(n: Long)
    ensures ParseLong(DecimalString(n as int)) == Some(n)
  {
    if n < 0 {
      DigitsRoundTrip(-(n as int));
      assert DecimalString(n as int)[1..] == Digits(-(n as int));
    } else {
      DigitsRoundTrip(n as int);
    }
  }

  /** Distinct numbers have distinct renderings. */
  lemma DecimalStringInjective(m: Long, n: Long)
    requires DecimalString(m as int) == DecimalString(n as int)
    ensures m == n
  {
    LongRoundTrip(m);
    LongRoundTrip(n);
  }

  // ---------------------------------------------------------------------
  // String.hashCode: h = 31 * h + c over the characters, in 32-bit arithmetic.

  /** Two's-complement truncation of an integer to Java's `int`. */
  function Wrap32(x: int): (r: Int32)
    ensures (r as int - x) % TwoTo32 == 0
  {
    ((x + 0x8000_0000) % TwoTo32 - 0x8000_0000) as Int32
  }

  /** The 32-bit hash agrees with the unbounded polynomial modulo 2^32. */
  function StringHashCode(s: string): (h: Int32)
    ensures (h as int - PolynomialHash(s)) % TwoTo32 == 0
  {
    if s == [] then 0
    else
      var p := s[..|s| - 1];
      var c := s[|s| - 1] as int;
      var hp := StringHashCode(p);
      var x := 31 * (hp as int) + c;
      var h := Wrap32(x);
      CongruentStep(hp as int, PolynomialHash(p), c);
      SumOfMultiples(h as int - x, x - (31 * PolynomialHash(p) + c));
      h
  }

  /** The hash as the unbounded polynomial s[0]*31^(n-1) + ... + s[n-1]. */
  function PolynomialHash(s: string): int {
    if s == [] then 0 else 31 * PolynomialHash(s[..|s| - 1]) + s[|s| - 1] as int
  }

  lemma CongruentStep(a: int, b: int, c: int)
    requires (a - b) % TwoTo32 == 0
    ensures (31 * a + c - (31 * b + c)) % TwoTo32 == 0
  {
    var q := (a - b) / TwoTo32;
    assert a - b == q * TwoTo32;
    assert 31 * a + c - (31 * b + c) == (31 * q) * TwoTo32;
  }

  lemma SumOfMultiples(u: int, v: int)
    requires u % TwoTo32 == 0 && v % TwoTo32 == 0
    ensures (u + v) % TwoTo32 == 0
  {
    var p, q := u / TwoTo32, v / TwoTo32;
    assert u == p * TwoTo32 && v == q * TwoTo32;
    assert u + v == (p + q) * TwoTo32;
  }
}
