/** Character-level helpers for the trace parsers and the scheduler factory:
    decimal digit strings, the subset of Python's `int(...)` and `float(...)`
    conversions the readers rely on, prefix/suffix tests and the ordering of
    strings by code point. */
module Text {
  import opened Common

  predicate IsDigit(c: char) { '0' <= c <= '9' }

  predicate IsDigits(s: string) { forall i | 0 <= i < |s| :: IsDigit(s[i]) }

  function DigitValue(c: char): (d: nat)
    requires IsDigit(c)
    ensures d < 10
  {
    (c as int) - ('0' as int)
  }

  function DigitChar(d: nat): (c: char)
    requires d < 10
    ensures IsDigit(c) && DigitValue(c) == d
  {
    (('0' as int) + d) as char
  }

  /** The number a string of decimal digits denotes (the empty string is 0). */
  function DigitsValue(s: string): nat
    requires IsDigits(s)
  {
    if s == [] then 0 else 10 * DigitsValue(s[..|s| - 1]) + DigitValue(s[|s| - 1])
  }

  /** The shortest decimal spelling of `n`. */
  function NatToDigits(n: nat): (s: string)
    ensures IsDigits(s) && s != []
    decreases n
  {
    if n < 10 then [DigitChar(n)] else NatToDigits(n / 10) + [DigitChar(n % 10)]
  }

  lemma {:induction false} DigitsRoundTrip(n: nat)
    ensures DigitsValue(NatToDigits(n)) == n
    decreases n
  {
    if n >= 10 {
      var s := NatToDigits(n);
      DigitsRoundTrip(n / 10);
      assert s[..|s| - 1] == NatToDigits(n / 10);
    }
  }

  function Pow10(k: nat): (p: nat)
    ensures p >= 1
  {
    if k == 0 then 1 else 10 * Pow10(k - 1)
  }

  predicate StartsWith(s: string, prefix: string) { |prefix| <= |s| && s[..|prefix|] == prefix }

  predicate EndsWith(s: string, suffix: string) { |suffix| <= |s| && s[|s| - |suffix|..] == suffix }

  /** `s` without its last `k` characters (Python's `s[:-k]`). */
  function DropLast(s: string, k: nat): string
    requires k <= |s|
  {
    s[..|s| - k]
  }

  /** Python's `int(x)` for a float `x`: truncation toward zero. */
  function TruncToInt(x: real): (r: int)
    ensures x >= 0.0 ==> r as real <= x < r as real + 1.0
    ensures x < 0.0 ==> r as real - 1.0 < x <= r as real
  {
    if x >= 0.0 then x.Floor else -((-x).Floor)
  }

  /** The ASCII whitespace characters: space, tab, line feed, vertical tab,
      form feed and carriage return.  Python's `str.strip()` also removes
      `\x1c`-`\x1f`, `\x85`, `\xa0` and the other Unicode spaces; those are
      not whitespace here. */
  predicate IsSpace(c: char)
  {
    c == ' ' || c == '\t' || c == '\n' || c == '\r' || c as int == 11 || c as int == 12
  }

  /** `s` without its leading whitespace. */
  function TrimStart(s: string): (r: string)
    ensures |r| <= |s| && r == s[|s| - |r|..]
    ensures forall i | 0 <= i < |s| - |r| :: IsSpace(s[i])
    ensures r != [] ==> !IsSpace(r[0])
  {
    if s != [] && IsSpace(s[0]) then TrimStart(s[1..]) else s
  }

  /** `s` without its trailing whitespace. */
  function TrimEnd(s: string): (r: string)
    ensures |r| <= |s| && r == s[..|r|]
    ensures forall i | |r| <= i < |s| :: IsSpace(s[i])
    ensures r != [] ==> !IsSpace(r[|r| - 1])
  {
    if s != [] && IsSpace(s[|s| - 1]) then TrimEnd(s[..|s| - 1]) else s
  }

  /** Python's `s.strip()`, which `int(...)` and `float(...)` apply to
      their argument first. */
  function Strip(s: string): (r: string)
    ensures r != [] ==> !IsSpace(r[0]) && !IsSpace(r[|r| - 1])
  {
    TrimEnd(TrimStart(s))
  }

  /** A digit string is its own strip. */
  lemma StripDigits(s: string)
    requires IsDigits(s)
    ensures Strip(s) == s
  {
    if s != [] {
      assert IsDigit(s[0]) && IsDigit(s[|s| - 1]);
    }
  }

  /** Split an optional leading sign off a numeral: (sign, rest). */
  function SplitSign(s: string): (int, string)
  {
    if |s| > 0 && s[0] == '-' then (-1, s[1..])
    else if |s| > 0 && s[0] == '+' then (1, s[1..])
    else (1, s)
  }

  /** Python's `int(s)` on a string: surrounding whitespace, an optional
      sign and at least one decimal digit; anything else raises ValueError
      (`None` here). */
  function ParseInt(s: string): (r: Option<int>)
    ensures r.Some? <==> IsDigits(SplitSign(Strip(s)).1) && SplitSign(Strip(s)).1 != []
  {
    IntNumeral(Strip(s))
  }

  /** The integer an already stripped numeral denotes. */
  function IntNumeral(t: string): (r: Option<int>)
    ensures r.Some? <==> IsDigits(SplitSign(t).1) && SplitSign(t).1 != []
  {
    var (sign, body) := SplitSign(t);
    if IsDigits(body) && body != [] then Some(sign * DigitsValue(body)) else None
  }

  /** Index of the first '.' in `s`, or |s| when there is none. */
  function DotIndex(s: string): (k: nat)
    ensures k <= |s|
    ensures forall i | 0 <= i < k :: s[i] != '.'
    ensures k < |s| ==> s[k] == '.'
  {
    if s == [] then 0 else if s[0] == '.' then 0 else 1 + DotIndex(s[1..])
  }

  /** Python's `float(s)` restricted to plain decimal numerals: surrounding
      whitespace, an optional sign, digits, and optionally a '.' followed by
      digits, with at least one digit in all.  Exponents, "inf" and "nan" are
      not modelled (`None`). */
  function ParseFloat(s: string): (r: Option<real>)
    ensures r.Some? <==> DecimalBody(SplitSign(Strip(s)).1)
    ensures ParseInt(s).Some? ==> r == Some(ParseInt(s).value as real)
  {
    RealNumeralForm(Strip(s));
    IntAsReal(Strip(s));
    RealNumeral(Strip(s))
  }

  /** What follows the sign of a decimal numeral: digits and at most one
      '.', with at least one digit. */
  predicate DecimalBody(b: string)
  {
    (forall k | 0 <= k < |b| :: IsDigit(b[k]) || b[k] == '.') && multiset(b)['.'] <= 1 && multiset(b)['.'] < |b|
  }

  /** Digits hold no '.'. */
  lemma NoDotInDigits(s: string)
    requires IsDigits(s)
    ensures multiset(s)['.'] == 0
  {
  }

  /** Characters that are digits or '.', with no '.' among them, are digits. */
  lemma DigitsWithoutDot(s: string)
    requires forall k | 0 <= k < |s| :: IsDigit(s[k]) || s[k] == '.'
    requires multiset(s)['.'] == 0
    ensures IsDigits(s)
  {
    forall k | 0 <= k < |s|
      ensures IsDigit(s[k])
    {
      assert s[k] in multiset(s);
    }
  }

  /** A numeral's whole and fractional digits: the text before and after
      its first '.'. */
  function Parts(body: string): (string, string)
  {
    var k := DotIndex(body);
    (body[..k], if k < |body| then body[k + 1..] else [])
  }

  /** The conversion succeeds exactly on decimal numerals. */
  lemma RealNumeralForm(t: string)
    ensures RealNumeral(t).Some? <==> DecimalBody(SplitSign(t).1)
  {
    var body := SplitSign(t).1;
    var (whole, frac) := Parts(body);
    DotSplit(body);
    if DecimalBody(body) {
      DecimalParts(body);
    }
    if IsDigits(whole) && IsDigits(frac) && |whole| + |frac| >= 1 {
      PartsDecimal(body);
    }
  }

  /** How the '.'s and the length of a numeral divide among its parts. */
  lemma DotSplit(body: string)
    ensures var k := DotIndex(body);
            var dots := if k < |body| then 1 else 0;
            multiset(Parts(body).0)['.'] == 0 &&
            multiset(body)['.'] == dots + multiset(Parts(body).1)['.'] &&
            |body| == |Parts(body).0| + dots + |Parts(body).1|
  {
    var k := DotIndex(body);
    var (whole, frac) := Parts(body);
    assert multiset(whole)['.'] == 0 by {
      forall i | 0 <= i < |whole|
        ensures whole[i] != '.'
      {
        assert whole[i] == body[i];
      }
    }
    if k < |body| {
      assert multiset(body) == multiset(whole) + multiset([body[k]]) + multiset(frac) by {
        assert body == whole + [body[k]] + frac;
      }
    } else {
      assert body == whole && frac == [];
    }
  }

  lemma DecimalParts(body: string)
    requires DecimalBody(body)
    ensures IsDigits(Parts(body).0) && IsDigits(Parts(body).1) && |Parts(body).0| + |Parts(body).1| >= 1
  {
    var k := DotIndex(body);
    var (whole, frac) := Parts(body);
    DotSplit(body);
    forall i | 0 <= i < |whole|
      ensures IsDigit(whole[i])
    {
      assert whole[i] == body[i];
    }
    forall i | 0 <= i < |frac|
      ensures IsDigit(frac[i]) || frac[i] == '.'
    {
      assert frac[i] == body[k + 1 + i];
    }
    DigitsWithoutDot(frac);
  }

  lemma PartsDecimal(body: string)
    requires IsDigits(Parts(body).0) && IsDigits(Parts(body).1) && |Parts(body).0| + |Parts(body).1| >= 1
    ensures DecimalBody(body)
  {
    var k := DotIndex(body);
    var (whole, frac) := Parts(body);
    DotSplit(body);
    NoDotInDigits(frac);
    forall i | 0 <= i < |body|
      ensures IsDigit(body[i]) || body[i] == '.'
    {
      if i < k {
        assert body[i] == whole[i];
      } else if i > k {
        assert body[i] == frac[i - k - 1];
      }
    }
  }

  /** An integer numeral reads as the same number under `float`. */
  lemma IntAsReal(t: string)
    ensures IntNumeral(t).Some? ==> RealNumeral(t) == Some(IntNumeral(t).value as real)
  {
    var (sign, body) := SplitSign(t);
    if IsDigits(body) && body != [] {
      NoDotInDigits(body);
      assert DotIndex(body) == |body|;
      assert body[..|body|] == body;
      assert Parts(body) == (body, []);
    }
  }

  /** The number an already stripped decimal numeral denotes. */
  function RealNumeral(t: string): Option<real>
  {
    var (sign, body) := SplitSign(t);
    var (whole, frac) := Parts(body);
    if IsDigits(whole) && IsDigits(frac) && |whole| + |frac| >= 1 then
      Some(sign as real * (DigitsValue(whole) as real + DigitsValue(frac) as real / Pow10(|frac|) as real))
    else None
  }

  /** A decimal spelling converts back to its number under both conversions. */
  lemma ParseDigits(n: nat)
    ensures ParseInt(NatToDigits(n)) == Some(n)
    ensures ParseFloat(NatToDigits(n)) == Some(n as real)
  {
    var s := NatToDigits(n);
    DigitsRoundTrip(n);
    StripDigits(s);
    assert SplitSign(s) == (1, s);
    assert DotIndex(s) == |s|;
    assert s[..|s|] == s;
  }

  /** The same holds with the line break a file's last field keeps. */
  lemma ParseDigitsLine(n: nat)
    ensures ParseInt(NatToDigits(n) + "\n") == Some(n)
    ensures ParseFloat(NatToDigits(n) + "\n") == Some(n as real)
  {
    var s := NatToDigits(n);
    StripDigitsLine(s);
    StripDigits(s);
    SameStrip(s + "\n", s);
    ParseDigits(n);
  }

  /** The conversions see only the stripped string. */
  lemma SameStrip(x: string, y: string)
    requires Strip(x) == Strip(y)
    ensures ParseInt(x) == ParseInt(y) && ParseFloat(x) == ParseFloat(y)
  {
  }

  /** A digit string followed by a line break strips to the digits. */
  lemma StripDigitsLine(s: string)
    requires IsDigits(s) && s != []
    ensures Strip(s + "\n") == s
  {
    assert IsDigit(s[0]) && IsDigit(s[|s| - 1]);
    assert TrimStart(s + "\n") == s + "\n";
    assert (s + "\n")[..|s|] == s;
    assert TrimEnd(s + "\n") == TrimEnd(s);
    StripDigits(s);
  }

  /** `d.join(r)`: the pieces with the separator between each two. */
  function Join(r: seq<string>, d: char): string
    requires |r| >= 1
  {
    if |r| == 1 then r[0] else r[0] + [d] + Join(r[1..], d)
  }

  /** Python's `s.split(d)` for a one-character separator: the pieces
      between the separators, empty ones included. */
  function Split(s: string, d: char): (r: seq<string>)
    ensures |r| >= 1
    decreases |s|
  {
    if s == [] then [[]]
    else
      var rest := Split(s[1..], d);
      if s[0] == d then [[]] + rest else [[s[0]] + rest[0]] + rest[1..]
  }

  /** One piece more than separators, and none of them holds one. */
  lemma {:induction false} SplitPieces(s: string, d: char)
    ensures |Split(s, d)| == multiset(s)[d] + 1
    ensures forall k | 0 <= k < |Split(s, d)| :: d !in Split(s, d)[k]
    decreases |s|
  {
    if s != [] {
      SplitPieces(s[1..], d);
      assert s == [s[0]] + s[1..];
      var rest := Split(s[1..], d);
      var r := Split(s, d);
      if s[0] != d {
        assert r[0] == [s[0]] + rest[0];
        forall k | 0 < k < |r|
          ensures d !in r[k]
        {
          assert r[k] == rest[k];
        }
      } else {
        forall k | 0 < k < |r|
          ensures d !in r[k]
        {
          assert r[k] == rest[k - 1];
        }
      }
    }
  }

  /** Joining the pieces gives the string back. */
  lemma {:induction false} JoinSplit(s: string, d: char)
    ensures Join(Split(s, d), d) == s
    decreases |s|
  {
    if s != [] {
      JoinSplit(s[1..], d);
      var rest := Split(s[1..], d);
      if s[0] == d {
        JoinEmptyHead(rest, d);
      } else {
        JoinHead(s[0], rest, d);
      }
      assert s == [s[0]] + s[1..];
    }
  }

  /** An empty first piece contributes just the separator. */
  lemma JoinEmptyHead(r: seq<string>, d: char)
    requires |r| >= 1
    ensures Join([[]] + r, d) == [d] + Join(r, d)
  {
    assert ([[]] + r)[1..] == r;
  }

  /** A character in front of the first piece is in front of the join. */
  lemma JoinHead(c: char, r: seq<string>, d: char)
    requires |r| >= 1
    ensures Join([[c] + r[0]] + r[1..], d) == [c] + Join(r, d)
  {
    var q := [[c] + r[0]] + r[1..];
    assert q[1..] == r[1..];
    if |r| > 1 {
      assert Join(q, d) == ([c] + r[0]) + [d] + Join(r[1..], d);
      assert Join(r, d) == r[0] + [d] + Join(r[1..], d);
    }
  }

  /** A piece without the separator, then the separator, splits off. */
  lemma {:induction false} SplitCons(a: string, b: string, d: char)
    requires d !in a
    ensures Split(a + [d] + b, d) == [a] + Split(b, d)
    decreases |a|
  {
    if a == [] {
      assert a + [d] + b == [d] + b;
      assert ([d] + b)[1..] == b;
    } else {
      var s := a + [d] + b;
      assert s[0] == a[0] && s[0] != d;
      assert s[1..] == a[1..] + [d] + b;
      SplitCons(a[1..], b, d);
      var rest := Split(s[1..], d);
      assert rest[0] == a[1..] && rest[1..] == Split(b, d);
      assert [a[0]] + a[1..] == a;
    }
  }

  /** A string without the separator is one piece. */
  lemma {:induction false} SplitNone(a: string, d: char)
    requires d !in a
    ensures Split(a, d) == [a]
    decreases |a|
  {
    if a != [] {
      SplitNone(a[1..], d);
      assert [a[0]] + a[1..] == a;
    }
  }

  /** Splitting undoes joining pieces that do not hold the separator. */
  lemma {:induction false} SplitJoin(r: seq<string>, d: char)
    requires |r| >= 1 && forall k | 0 <= k < |r| :: d !in r[k]
    ensures Split(Join(r, d), d) == r
    decreases |r|
  {
    if |r| == 1 {
      SplitNone(r[0], d);
    } else {
      SplitJoin(r[1..], d);
      SplitCons(r[0], Join(r[1..], d), d);
      assert [r[0]] + r[1..] == r;
    }
  }

  /** Python's `<` on strings: lexicographic by code point, a proper prefix
      being smaller. */
  predicate StrLess(a: string, b: string)
  {
    if a == [] then b != []
    else if b == [] then false
    else if a[0] != b[0] then a[0] < b[0]
    else StrLess(a[1..], b[1..])
  }

  lemma {:induction false} StrLessIrreflexive(a: string)
    ensures !StrLess(a, a)
  {
    if a != [] { StrLessIrreflexive(a[1..]); }
  }

  lemma {:induction false} StrLessTransitive(a: string, b: string, c: string)
    requires StrLess(a, b) && StrLess(b, c)
    ensures StrLess(a, c)
  {
    if a != [] && b != [] && c != [] && a[0] == b[0] && b[0] == c[0] {
      StrLessTransitive(a[1..], b[1..], c[1..]);
    }
  }

  lemma {:induction false} StrLessTotal(a: string, b: string)
    ensures StrLess(a, b) || a == b || StrLess(b, a)
  {
    if a != [] && b != [] && a[0] == b[0] {
      StrLessTotal(a[1..], b[1..]);
      if a[1..] == b[1..] {
        assert a == [a[0]] + a[1..] && b == [b[0]] + b[1..];
      }
    }
  }
}
