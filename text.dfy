/**
 * The string operations the ledger engine relies on, on `string` (= seq<char>):
 * case folding, whitespace stripping, Python's ordering of `str`, and the
 * decimal renderings used for dates and amounts.
 */
module Text {

  // ---------------------------------------------------------------- case folding

  /** `str.lower()` on one character; only 'A'..'Z' are folded. */
  function LowerChar(c: char): char {
    if 'A' <= c <= 'Z' then (c as int + 32) as char else c
  }

  /** `str.lower()` restricted to ASCII letters. */
  function Lower(s: string): (r: string)
    ensures |r| == |s|
    ensures forall i :: 0 <= i < |s| ==> r[i] == LowerChar(s[i])
  {
    seq(|s|, i requires 0 <= i < |s| => LowerChar(s[i]))
  }

  // ---------------------------------------------------------------- whitespace

  /** The ASCII characters `str.isspace()` accepts: \t \n \v \f \r, \x1c..\x1f and ' '. */
  predicate IsSpace(c: char) {
    9 <= c as int <= 13 || 28 <= c as int <= 32
  }

  predicate AllSpace(s: string) {
    forall i :: 0 <= i < |s| ==> IsSpace(s[i])
  }

  /** The first index from `lo` on that holds no whitespace, or `|s|`. */
  function SkipSpaces(s: string, lo: nat): (i: nat)
    requires lo <= |s|
    ensures lo <= i <= |s|
    ensures forall x :: lo <= x < i ==> IsSpace(s[x])
    ensures i < |s| ==> !IsSpace(s[i])
    decreases |s| - lo
  {
    if lo < |s| && IsSpace(s[lo]) then SkipSpaces(s, lo + 1) else lo
  }

  /** The end of `s[lo..hi]` once its trailing whitespace is dropped. */
  function TrimEnd(s: string, lo: nat, hi: nat): (j: nat)
    requires lo <= hi <= |s|
    ensures lo <= j <= hi
    ensures forall x :: j <= x < hi ==> IsSpace(s[x])
    ensures lo < j ==> !IsSpace(s[j - 1])
    decreases hi
  {
    if lo < hi && IsSpace(s[hi - 1]) then TrimEnd(s, lo, hi - 1) else hi
  }

  /** `str.strip()`: the text between the leading and the trailing whitespace. */
  function Strip(s: string): string {
    var i := SkipSpaces(s, 0);
    s[i..TrimEnd(s, i, |s|)]
  }

  /**
   * `strip()` keeps an infix of its input that starts and ends with a
   * non-space character; everything it drops is whitespace.
   */
  lemma StripShape(s: string)
    ensures var i := SkipSpaces(s, 0); var j := TrimEnd(s, i, |s|);
      && Strip(s) == s[i..j]
      && (forall x :: 0 <= x < i ==> IsSpace(s[x]))
      && (forall x :: j <= x < |s| ==> IsSpace(s[x]))
      && (Strip(s) != [] ==> !IsSpace(Strip(s)[0]) && !IsSpace(Strip(s)[|Strip(s)| - 1]))
  {
  }

  /** A name is empty after `strip()` exactly when it was blank to begin with. */
  lemma StripEmptyIffBlank(s: string)
    ensures Strip(s) == [] <==> AllSpace(s)
  {
    var i := SkipSpaces(s, 0);
    if i < |s| {
      assert TrimEnd(s, i, |s|) > i;
    }
  }

  // ---------------------------------------------------------------- ordering

  /**
   * Python's `a <= b` on `str`: code points compared left to right, a proper
   * prefix sorting first.
   */
  predicate LexLe(a: string, b: string)
    decreases |a|
  {
    if |a| == 0 then true
    else if |b| == 0 then false
    else if a[0] != b[0] then a[0] < b[0]
    else LexLe(a[1..], b[1..])
  }

  lemma {:induction false} LexLeReflexive(a: string)
    ensures LexLe(a, a)
    decreases |a|
  {
    if |a| > 0 { LexLeReflexive(a[1..]); }
  }

  lemma {:induction false} LexLeTotal(a: string, b: string)
    ensures LexLe(a, b) || LexLe(b, a)
    decreases |a|
  {
    if |a| > 0 && |b| > 0 && a[0] == b[0] { LexLeTotal(a[1..], b[1..]); }
  }

  lemma {:induction false} LexLeAntisymmetric(a: string, b: string)
    requires LexLe(a, b) && LexLe(b, a)
    ensures a == b
    decreases |a|
  {
    if |a| > 0 && |b| > 0 {
      LexLeAntisymmetric(a[1..], b[1..]);
      assert a == [a[0]] + a[1..];
      assert b == [b[0]] + b[1..];
    }
  }

  lemma {:induction false} LexLeTransitive(a: string, b: string, c: string)
    requires LexLe(a, b) && LexLe(b, c)
    ensures LexLe(a, c)
    decreases |a|
  {
    if |a| > 0 && |b| > 0 && |c| > 0 && a[0] == b[0] && b[0] == c[0] {
      LexLeTransitive(a[1..], b[1..], c[1..]);
    }
  }

  /** A common prefix does not change the comparison. */
  lemma {:induction false} LexLeCommonPrefix(p: string, a: string, b: string)
    ensures LexLe(p + a, p + b) == LexLe(a, b)
    decreases |p|
  {
    if |p| > 0 {
      assert (p + a)[1..] == p[1..] + a;
      assert (p + b)[1..] == p[1..] + b;
      LexLeCommonPrefix(p[1..], a, b);
    } else {
      assert p + a == a;
      assert p + b == b;
    }
  }

  /** A common prefix hides no difference. */
  lemma PrefixCancel(p: string, a: string, b: string)
    ensures p + a == p + b ==> a == b
  {
    if p + a == p + b {
      assert a == (p + a)[|p|..];
      assert b == (p + b)[|p|..];
    }
  }

  /** Once two equally long strings differ, what follows them does not matter. */
  lemma {:induction false} LexLtExtend(a: string, b: string, x: string, y: string)
    requires |a| == |b| && LexLe(a, b) && a != b
    ensures LexLe(a + x, b + y) && a + x != b + y
    decreases |a|
  {
    assert (a + x)[0] == a[0] && (b + y)[0] == b[0];
    if a[0] == b[0] {
      assert a == [a[0]] + a[1..] && b == [b[0]] + b[1..];
      assert (a + x)[1..] == a[1..] + x;
      assert (b + y)[1..] == b[1..] + y;
      LexLtExtend(a[1..], b[1..], x, y);
    }
  }

  // ---------------------------------------------------------------- numerals

  predicate IsDigit(c: char) {
    '0' <= c <= '9'
  }

  function DigitChar(d: nat): (c: char)
    requires d < 10
    ensures IsDigit(c)
  {
    ('0' as int + d) as char
  }

  function DigitValue(c: char): int {
    c as int - '0' as int
  }

  /** `str(n)` for a non-negative int. */
  function Decimal(n: nat): (r: string)
    ensures 1 <= |r|
    ensures forall i :: 0 <= i < |r| ==> IsDigit(r[i])
    decreases n
  {
    if n < 10 then [DigitChar(n)] else Decimal(n / 10) + [DigitChar(n % 10)]
  }

  /** The value of a string of digits, most significant first. */
  function DigitsValue(s: string): int
    decreases |s|
  {
    if |s| == 0 then 0 else DigitsValue(s[..|s| - 1]) * 10 + DigitValue(s[|s| - 1])
  }

  lemma {:induction false} DecimalRoundTrip(n: nat)
    ensures DigitsValue(Decimal(n)) == n
    decreases n
  {
    if n >= 10 {
      DecimalRoundTrip(n / 10);
      var s := Decimal(n);
      assert s[..|s| - 1] == Decimal(n / 10);
    }
  }

  function Zeros(k: nat): (r: string)
    ensures |r| == k
    ensures forall i :: 0 <= i < k ==> r[i] == '0'
  {
    seq(k, _ => '0')
  }

  function Pow10(k: nat): nat {
    if k == 0 then 1 else 10 * Pow10(k - 1)
  }

  /** The last `w` decimal digits of `n`, most significant first. */
  function FixedDigits(n: nat, w: nat): (r: string)
    ensures |r| == w
  {
    if w == 0 then [] else FixedDigits(n / 10, w - 1) + [DigitChar(n % 10)]
  }

  function PadZeros(s: string, w: int): string {
    if |s| < w then Zeros(w - |s|) + s else s
  }

  /** Python's `f"{n:0{w}d}"`: the sign, then the digits zero-filled to a total width of at least `w`. */
  function Padded(n: int, w: nat): string {
    if n < 0 then "-" + PadZeros(Decimal(-n), w - 1) else PadZeros(Decimal(n), w)
  }

  lemma {:induction false} FixedDigitsOfZero(w: nat)
    ensures FixedDigits(0, w) == Zeros(w)
  {
    if w > 0 { FixedDigitsOfZero(w - 1); }
  }

  /** A number below 10^w, formatted at width `w`, is exactly its last `w` digits. */
  lemma {:induction false} PaddedIsFixedDigits(n: nat, w: nat)
    requires 1 <= w && n < Pow10(w)
    ensures |Decimal(n)| <= w
    ensures Padded(n, w) == FixedDigits(n, w)
    decreases w
  {
    if n < 10 {
      FixedDigitsOfZero(w - 1);
      assert FixedDigits(n, w) == FixedDigits(0, w - 1) + [DigitChar(n)];
    } else {
      assert Pow10(w) == 10 * Pow10(w - 1);
      PaddedIsFixedDigits(n / 10, w - 1);
      assert Decimal(n) == Decimal(n / 10) + [DigitChar(n % 10)];
      assert FixedDigits(n, w) == FixedDigits(n / 10, w - 1) + [DigitChar(n % 10)];
      assert Zeros(w - |Decimal(n)|) == Zeros(w - 1 - |Decimal(n / 10)|);
    }
  }

  /** Fixed-width numerals sort in numeric order. */
  lemma {:induction false} FixedDigitsMonotone(a: nat, b: nat, w: nat)
    requires a < b < Pow10(w)
    ensures LexLe(FixedDigits(a, w), FixedDigits(b, w)) && FixedDigits(a, w) != FixedDigits(b, w)
    decreases w
  {
    assert w != 0;
    assert Pow10(w) == 10 * Pow10(w - 1);
    var pa, pb := FixedDigits(a / 10, w - 1), FixedDigits(b / 10, w - 1);
    var da, db := [DigitChar(a % 10)], [DigitChar(b % 10)];
    if a / 10 < b / 10 {
      FixedDigitsMonotone(a / 10, b / 10, w - 1);
      LexLtExtend(pa, pb, da, db);
    } else {
      assert pa == pb && a % 10 < b % 10;
      LexLeCommonPrefix(pa, da, db);
      assert (pa + da)[w - 1] != (pb + db)[w - 1];
    }
  }

  // ---------------------------------------------------------------- amounts

  lemma SplitAt(a: string, b: string)
    ensures (a + b)[..|a|] == a && (a + b)[|a|..] == b
  {
  }

  /** A non-negative number of cents as `units.hh`. */
  function FormatMagnitude(m: nat): string {
    Decimal(m / 100) + ("." + FixedDigits(m % 100, 2))
  }

  /** Python's `f"{x:.2f}"` for an amount held as a whole number of cents. */
  function FormatCents(cents: int): string {
    if cents < 0 then "-" + FormatMagnitude(-cents) else FormatMagnitude(cents)
  }

  /** Reads back a rendering of the form FormatMagnitude produces. */
  function ParseMagnitude(body: string): int {
    if |body| < 3 then 0
    else DigitsValue(body[..|body| - 3]) * 100 + DigitsValue(body[|body| - 2..])
  }

  /** Reads back a rendering of the form FormatCents produces. */
  function ParseCents(s: string): int {
    if |s| > 0 && s[0] == '-' then -ParseMagnitude(s[1..]) else ParseMagnitude(s)
  }

  lemma TwoDigitsRoundTrip(f: nat)
    requires f < 100
    ensures DigitsValue(FixedDigits(f, 2)) == f
  {
    var frac := FixedDigits(f, 2);
    assert FixedDigits(f / 10, 1) == FixedDigits(f / 10 / 10, 0) + [DigitChar(f / 10 % 10)];
    assert frac == [DigitChar(f / 10), DigitChar(f % 10)];
    assert frac[..1] == [DigitChar(f / 10)] && frac[..1][..0] == [];
    assert DigitsValue(frac[..1]) == f / 10;
    assert DigitsValue(frac) == DigitsValue(frac[..1]) * 10 + DigitValue(frac[1]);
  }

  lemma MagnitudeRoundTrip(m: nat)
    ensures ParseMagnitude(FormatMagnitude(m)) == m
    ensures IsDigit(FormatMagnitude(m)[0])
  {
    var whole, frac := Decimal(m / 100), FixedDigits(m % 100, 2);
    var body := whole + ("." + frac);
    DecimalRoundTrip(m / 100);
    TwoDigitsRoundTrip(m % 100);
    SplitAt(whole, "." + frac);
    SplitAt(".", frac);
    assert body[|body| - 2..] == frac;
    assert body[0] == whole[0];
  }

  /** The two-decimal rendering of an amount loses nothing: it reads back as the same amount. */
  lemma CentsRoundTrip(cents: int)
    ensures ParseCents(FormatCents(cents)) == cents
  {
    if cents < 0 {
      MagnitudeRoundTrip(-cents);
      SplitAt("-", FormatMagnitude(-cents));
    } else {
      MagnitudeRoundTrip(cents);
    }
  }
}
