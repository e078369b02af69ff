/** Writing integers as decimal text, digit by digit from a fixed-point number. */
module DecimalText {
  import opened Arithmetic
  import opened Bits

  function Pow10(n: nat): (p: nat)
    ensures p >= 1
  {
    if n == 0 then 1 else 10 * Pow10(n - 1)
  }

  // ----- decimal text -----

  function DigitChar(d: nat): (c: char)
    requires d < 10
    ensures '0' <= c <= '9' && c as int - '0' as int == d
  {
    '0' + d as char
  }

  /** The canonical text of a number: no leading zeroes. */
  ghost function Decimal(u: nat): (s: string)
    ensures s != []
  {
    if u < 10 then [DigitChar(u)] else Decimal(u / 10) + [DigitChar(u % 10)]
  }

  /** The last `k` digits of a number, leading zeroes included. */
  ghost function Padded(u: nat, k: nat): (s: string)
    ensures |s| == k
  {
    if k == 0 then [] else Padded(u / 10, k - 1) + [DigitChar(u % 10)]
  }

  ghost predicate AllDigits(s: string) {
    forall i :: 0 <= i < |s| ==> '0' <= s[i] <= '9'
  }

  ghost predicate Canonical(s: string) {
    s != [] && AllDigits(s) && (|s| > 1 ==> s[0] != '0')
  }

  /** What a text of digits means. */
  ghost function Value(s: string): nat
    requires AllDigits(s)
  {
    if s == [] then 0 else 10 * Value(s[..|s| - 1]) + (s[|s| - 1] as int - '0' as int)
  }

  lemma {:induction false} DecimalIsCanonical(u: nat)
    ensures Canonical(Decimal(u)) && Value(Decimal(u)) == u
    ensures u > 0 ==> Decimal(u)[0] != '0'
  {
    if u < 10 {
      assert Decimal(u)[..0] == [];
    } else {
      DecimalIsCanonical(u / 10);
      assert Decimal(u)[..|Decimal(u)| - 1] == Decimal(u / 10);
    }
  }

  lemma {:induction false} ValueZero(s: string)
    requires AllDigits(s) && s != [] && s[0] != '0'
    ensures Value(s) > 0
  {
    if |s| > 1 {
      ValueZero(s[..|s| - 1]);
    }
  }

  /** The canonical text of a number is the only canonical text that means it. */
  lemma {:induction false} CanonicalIsDecimal(s: string)
    requires Canonical(s)
    ensures s == Decimal(Value(s))
  {
    var front, last := s[..|s| - 1], s[|s| - 1];
    if |s| == 1 {
      assert front == [] && s == [last];
    } else {
      CanonicalIsDecimal(front);
      ValueZero(front);
      assert s == front + [last];
    }
  }

  lemma {:induction false} PaddedValue(u: nat, k: nat)
    requires u < Pow10(k)
    ensures AllDigits(Padded(u, k)) && Value(Padded(u, k)) == u
  {
    if k > 0 {
      PaddedValue(u / 10, k - 1);
      assert Padded(u, k)[..k - 1] == Padded(u / 10, k - 1);
    }
  }

  lemma TopDigit(d: nat, low: nat, p: nat)
    requires d < 10 && low < p
    ensures 0 <= d * p + low < 10 * p
  {
    assert d * p <= 9 * p;
  }

  lemma ValueLast(s: string, c: char)
    requires AllDigits(s) && '0' <= c <= '9'
    ensures AllDigits(s + [c]) && Value(s + [c]) == 10 * Value(s) + (c as int - '0' as int)
  {
    assert (s + [c])[..|s|] == s;
  }

  lemma {:induction false} ValueConcat(s: string, t: string)
    requires AllDigits(s) && AllDigits(t)
    ensures AllDigits(s + t) && Value(s + t) == Value(s) * Pow10(|t|) + Value(t)
    decreases |t|
  {
    if t == [] {
      assert s + t == s;
    } else {
      var front, c := t[..|t| - 1], t[|t| - 1];
      ValueConcat(s, front);
      assert s + t == s + front + [c];
      ValueLast(s + front, c);
      Horner(Value(s), Pow10(|front|), Value(front), c as int - '0' as int);
    }
  }

  lemma {:induction false} ZeroesValue(s: string)
    requires forall i :: 0 <= i < |s| ==> s[i] == '0'
    ensures Value(s) == 0
  {
    if s != [] {
      ZeroesValue(s[..|s| - 1]);
    }
  }

  lemma ZeroPrefix(s: string, j: nat)
    requires AllDigits(s) && j <= |s| && forall i :: 0 <= i < j ==> s[i] == '0'
    ensures Value(s[j..]) == Value(s)
  {
    assert s == s[..j] + s[j..];
    ZeroesValue(s[..j]);
    ValueConcat(s[..j], s[j..]);
  }

  /** Dropping leading zeroes from the padded text leaves the canonical one. */
  lemma TrimIsDecimal(u: nat, k: nat, j: nat)
    requires u < Pow10(k) && j < k
    requires forall i :: 0 <= i < j ==> Padded(u, k)[i] == '0'
    requires j == k - 1 || Padded(u, k)[j] != '0'
    ensures Padded(u, k)[j..] == Decimal(u)
  {
    PaddedValue(u, k);
    ZeroPrefix(Padded(u, k), j);
    CanonicalIsDecimal(Padded(u, k)[j..]);
  }

  /** The text of a number from its upper part and its lower digits. */
  lemma DecimalJoin(high: nat, low: nat, k: nat)
    requires high > 0 && low < Pow10(k)
    ensures Decimal(high) + Padded(low, k) == Decimal(high * Pow10(k) + low)
  {
    DecimalIsCanonical(high);
    PaddedValue(low, k);
    ValueConcat(Decimal(high), Padded(low, k));
    CanonicalIsDecimal(Decimal(high) + Padded(low, k));
  }

  lemma PaddedJoin(d: nat, low: nat, k: nat)
    requires d < 10 && low < Pow10(k)
    ensures d * Pow10(k) + low < Pow10(k + 1)
    ensures [DigitChar(d)] + Padded(low, k) == Padded(d * Pow10(k) + low, k + 1)
  {
    var s := [DigitChar(d)];
    TopDigit(d, low, Pow10(k));
    assert Value(s) == d by {
      assert s[..0] == [];
    }
    PaddedValue(low, k);
    ValueConcat(s, Padded(low, k));
    var u := d * Pow10(k) + low;
    PaddedValue(u, k + 1);
    SameValue(s + Padded(low, k), Padded(u, k + 1));
  }

  lemma {:induction false} SameValue(s: string, t: string)
    requires AllDigits(s) && AllDigits(t) && |s| == |t| && Value(s) == Value(t)
    ensures s == t
  {
    if s != [] {
      var n := |s| - 1;
      SameValue(s[..n], t[..n]);
      assert s == s[..n] + [s[n]] && t == t[..n] + [t[n]];
    }
  }

  // ----- the digit generator -----

  /** A variant: bits after the binary point, index of the last digit, and width of the machine word. */
  datatype Scale = Scale(bits: nat, last: nat, width: nat)

  const X5 := Scale(26, 4, 32)
  const X10 := Scale(60, 9, 64)
  const D2 := Scale(10, 1, 32)
  const D9 := Scale(56, 8, 64)

  /** The constant that turns an integer into a fixed-point number with the first digit before the point. */
  function Factor(c: Scale): (m: nat)
    ensures m >= 1
  {
    (Pow2(c.bits) - 1 + Pow10(c.last)) / Pow10(c.last)
  }

  /** How much the factor is too large, because it is rounded up. */
  ghost function Excess(c: Scale): (e: nat)
    ensures Factor(c) * Pow10(c.last) == Pow2(c.bits) + e
  {
    RoundUp(Pow2(c.bits), Pow10(c.last));
    Factor(c) * Pow10(c.last) - Pow2(c.bits)
  }

  /** The number whose digits come out for `u`. */
  ghost function Shown(c: Scale, u: nat): nat {
    Enlarged(u, Excess(c), Pow2(c.bits))
  }

  /** The right digits come out exactly up to where the excess adds up to one unit of the last digit. */
  lemma ShownIsExact(c: Scale, u: nat)
    ensures Shown(c, u) == u <==> u * Excess(c) < Pow2(c.bits)
  {
    EnlargedIsExact(u, Excess(c), Pow2(c.bits));
  }

  /** No product leaves the machine word, there are bits for each digit, and the first digit is one. */
  ghost predicate Fits(c: Scale, u: nat) {
    && c.last < c.bits
    && Pow2(c.bits) + Pow10(c.last) <= Pow2(c.width)
    && 5 * Pow2(c.bits) <= Pow2(c.width)
    && u * Factor(c) < Pow2(c.width)
    && Shown(c, u) < 10 * Pow10(c.last)
  }

  lemma SmallMod(x: nat, w: nat)
    requires x < w
    ensures x % w == x
  {
  }

  /** What one step does: digit `k` of the rest `r` moves out of the fixed-point number. */
  lemma DigitStep(c: Scale, k: nat, x: nat, r: nat)
    requires k <= c.last < c.bits && 5 * Pow2(c.bits) <= Pow2(c.width)
    requires Holds(x, r, Pow2(c.bits - k), Pow10(c.last - k)) && r < 10 * Pow10(c.last - k)
    ensures 0 <= x / Pow2(c.bits - k) == r / Pow10(c.last - k) < 10
    ensures 0 <= r % Pow10(c.last - k) < Pow10(c.last - k)
    ensures 0 <= x % Pow2(c.bits - k) * 5 < Pow2(c.width)
    ensures k < c.last ==> Holds(x % Pow2(c.bits - k) * 5, r % Pow10(c.last - k), Pow2(c.bits - k - 1),
                                 Pow10(c.last - k - 1))
  {
    var s, t := Pow2(c.bits - k), Pow10(c.last - k);
    FirstDigit(x, r, s, t);
    DivMod(x, s);
    DivMod(r, t);
    DivBound(r, t, 10);
    Pow2Monotone(c.bits - k, c.bits);
    if k < c.last {
      MovePoint(x % s, r % t, Pow2(c.bits - k - 1), Pow10(c.last - k - 1));
    }
  }

  /** One digit: written in any case, kept if it is the last one or not a leading zero. */
  method PutDigit(a: array<char>, ptr: nat, nz: bool, c: Scale, k: nat, x: nat, ghost r: nat)
    returns (ptr': nat, nz': bool, x': nat)
    requires k <= c.last < c.bits && 5 * Pow2(c.bits) <= Pow2(c.width)
    requires Holds(x, r, Pow2(c.bits - k), Pow10(c.last - k)) && r < 10 * Pow10(c.last - k)
    requires ptr < a.Length
    modifies a
    ensures 0 <= r / Pow10(c.last - k) < 10 && 0 <= r % Pow10(c.last - k) < Pow10(c.last - k)
    ensures a[..] == old(a[..])[ptr := DigitChar(r / Pow10(c.last - k))]
    ensures nz' == (k == c.last || nz || r / Pow10(c.last - k) != 0)
    ensures ptr' == ptr + if nz' then 1 else 0
    ensures k < c.last ==> Holds(x', r % Pow10(c.last - k), Pow2(c.bits - k - 1), Pow10(c.last - k - 1))
  {
    DigitStep(c, k, x, r);
    var digit: nat := x / Pow2(c.bits - k);
    a[ptr] := DigitChar(digit);
    nz' := k == c.last || nz || digit != 0;
    ptr' := if nz' then ptr + 1 else ptr;
    var rest: nat := x % Pow2(c.bits - k) * 5;
    SmallMod(rest, Pow2(c.width));
    x' := rest % Pow2(c.width);
  }

  ghost predicate Zeroes(digits: string, j: nat) {
    j <= |digits| && forall i :: 0 <= i < j ==> digits[i] == '0'
  }

  /** What is kept of the first `k` digits: those from `j` on, or nothing yet while all are leading zeroes. */
  ghost predicate Kept(out: string, digits: string, k: nat, j: nat, nz: bool, lz: bool) {
    && k <= |digits|
    && if nz then
         && j <= k && out == digits[j..k] && Zeroes(digits, j)
         && if lz then j == 0 else j < k && (digits[j] != '0' || j == |digits| - 1)
       else !lz && out == [] && Zeroes(digits, k)
  }

  lemma KeptStep(out: string, digits: string, k: nat, j: nat, nz: bool, lz: bool)
    requires Kept(out, digits, k, j, nz, lz) && k < |digits|
    ensures var nz' := k == |digits| - 1 || nz || digits[k] != '0';
            Kept(if nz' then out + [digits[k]] else out, digits, k + 1, if nz then j else k, nz', lz)
  {
  }

  /** All digits are written: the whole padded text with leading zeroes, or the canonical text without. */
  lemma KeptAll(out: string, u: nat, n: nat, j: nat, nz: bool, lz: bool)
    requires n > 0 && u < Pow10(n) && Kept(out, Padded(u, n), n, j, nz, lz) && nz
    ensures out == if lz then Padded(u, n) else Decimal(u)
  {
    if !lz {
      TrimIsDecimal(u, n, j);
    }
  }

  ghost function Text(u: nat, n: nat, lz: bool): string {
    if lz then Padded(u, n) else Decimal(u)
  }

  /** The digits from `k` on are those of the rest `r`, which the fixed-point number `x` holds. */
  ghost predicate Rest(c: Scale, k: nat, x: nat, r: nat, digits: string) {
    && c.last < c.bits && |digits| == c.last + 1 && k <= |digits|
    && digits[k..] == Padded(r, |digits| - k)
    && (k <= c.last ==> Holds(x, r, Pow2(c.bits - k), Pow10(c.last - k)) && r < 10 * Pow10(c.last - k))
  }

  lemma RestStep(c: Scale, k: nat, x: nat, r: nat, digits: string, x': nat)
    requires Rest(c, k, x, r, digits) && k <= c.last
    requires 0 <= r / Pow10(c.last - k) < 10 && 0 <= r % Pow10(c.last - k) < Pow10(c.last - k)
    requires k < c.last ==> Holds(x', r % Pow10(c.last - k), Pow2(c.bits - k - 1), Pow10(c.last - k - 1))
    ensures digits[k] == DigitChar(r / Pow10(c.last - k))
    ensures Rest(c, k + 1, x', r % Pow10(c.last - k), digits)
  {
    var t := Pow10(c.last - k);
    DivMod(r, t);
    PaddedJoin(r / t, r % t, c.last - k);
    assert digits[k] == digits[k..][0];
    assert digits[k + 1..] == digits[k..][1..];
  }

  /** One digit, seen as part of the text of all digits. */
  method NextDigit(a: array<char>, p: nat, ptr: nat, nz: bool, c: Scale, k: nat, x: nat,
                   ghost r: nat, ghost digits: string, ghost j: nat, lz: bool)
    returns (ptr': nat, nz': bool, x': nat, ghost r': nat, ghost j': nat)
    requires k <= c.last && 5 * Pow2(c.bits) <= Pow2(c.width) && Rest(c, k, x, r, digits)
    requires p <= ptr <= p + k && p + c.last + 1 <= a.Length && Kept(a[p..ptr], digits, k, j, nz, lz)
    modifies a
    ensures p <= ptr' <= p + k + 1 && Rest(c, k + 1, x', r', digits)
    ensures Kept(a[p..ptr'], digits, k + 1, j', nz', lz) && (k == c.last ==> nz')
    ensures a[..p] == old(a[..p]) && a[p + c.last + 1..] == old(a[p + c.last + 1..])
  {
    ghost var before := a[..];
    KeptStep(a[p..ptr], digits, k, j, nz, lz);
    j' := if nz then j else k;
    ptr', nz', x' := PutDigit(a, ptr, nz, c, k, x, r);
    RestStep(c, k, x, r, digits, x');
    Extend(before, a[..], p, ptr, digits[k]);
    r' := r % Pow10(c.last - k);
  }

  /**
   * The digit generator writes the text of the number that is shown for `u`, and touches no more than the
   * places of all digits.
   */
  method Digits(a: array<char>, p: nat, c: Scale, lz: bool, u: nat) returns (ptr: nat)
    requires Fits(c, u) && p + c.last + 1 <= a.Length
    modifies a
    ensures p <= ptr <= p + c.last + 1
    ensures a[p..ptr] == Text(Shown(c, u), c.last + 1, lz)
    ensures a[..p] == old(a[..p]) && a[p + c.last + 1..] == old(a[p + c.last + 1..])
  {
    ptr := p;
    var nz := lz;
    ProductHolds(u, Factor(c), Pow2(c.bits), Pow10(c.last), Excess(c));
    var product: nat := u * Factor(c);
    SmallMod(product, Pow2(c.width));
    var x: nat := product % Pow2(c.width);
    ghost var r: nat := Shown(c, u);
    ghost var digits, j := Padded(r, c.last + 1), 0;
    var k: nat := 0;
    while k <= c.last
      invariant k <= c.last + 1 && p <= ptr <= p + k && Rest(c, k, x, r, digits)
      invariant Kept(a[p..ptr], digits, k, j, nz, lz) && (k == c.last + 1 ==> nz)
      invariant a[..p] == old(a[..p]) && a[p + c.last + 1..] == old(a[p + c.last + 1..])
    {
      ptr, nz, x, r, j := NextDigit(a, p, ptr, nz, c, k, x, r, digits, j, lz);
      k := k + 1;
    }
    KeptAll(a[p..ptr], Shown(c, u), c.last + 1, j, nz, lz);
  }

  lemma Extend(before: string, after: string, p: nat, ptr: nat, d: char)
    requires p <= ptr < |before| && after == before[ptr := d]
    ensures after[p..ptr] == before[p..ptr] && after[p..ptr + 1] == before[p..ptr] + [d]
    ensures after[..p] == before[..p]
  {
  }

  // ----- the variants and their limits -----

  const MAX_X5: nat := 59074
  const MAX_X10: nat := 2932500665

  lemma Constants(c: Scale, s: nat, t: nat, m: nat)
    requires Pow2(c.bits) == s && Pow10(c.last) == t && t >= 1 && s >= 1
    requires m * t - t < s <= m * t
    ensures Factor(c) == m && Excess(c) == m * t - s
  {
    QuotientIs(s - 1 + t, t, m);
  }

  /** The limits are exact: wherever nothing overflows, the text is right up to the limit and wrong above it. */
  lemma X5Limit(u: nat)
    ensures Shown(X5, u) == u <==> u <= MAX_X5
    ensures u <= MAX_X5 ==> Fits(X5, u)
  {
    Words();
    assert Pow2(26) == 67108864 && Pow10(4) == 10000;
    Constants(X5, 67108864, 10000, 6711);
    ShownIsExact(X5, u);
  }

  lemma X10Limit(u: nat)
    ensures Shown(X10, u) == u <==> u <= MAX_X10
    ensures u <= MAX_X10 ==> Fits(X10, u)
  {
    Words();
    assert Pow2(60) == 1152921504606846976 && Pow10(9) == 1000000000;
    Constants(X10, 1152921504606846976, 1000000000, 1152921505);
    ShownIsExact(X10, u);
  }

  /** Just above the limits nothing overflows yet, and the text of the next number comes out. */
  lemma LimitsAreSharp()
    ensures Fits(X5, MAX_X5 + 1) && Shown(X5, MAX_X5 + 1) == MAX_X5 + 2
    ensures Fits(X10, MAX_X10 + 1) && Shown(X10, MAX_X10 + 1) == MAX_X10 + 2
  {
    X5IsSharp();
    X10IsSharp();
  }

  lemma X5IsSharp()
    ensures Fits(X5, MAX_X5 + 1) && Shown(X5, MAX_X5 + 1) == MAX_X5 + 2
  {
    Words();
    assert Pow2(26) == 67108864 && Pow10(4) == 10000;
    Constants(X5, 67108864, 10000, 6711);
  }

  lemma X10IsSharp()
    ensures Fits(X10, MAX_X10 + 1) && Shown(X10, MAX_X10 + 1) == MAX_X10 + 2
  {
    Words();
    assert Pow2(60) == 1152921504606846976 && Pow10(9) == 1000000000;
    Constants(X10, 1152921504606846976, 1000000000, 1152921505);
  }

  /** A variant whose excess stays below one unit for the largest number writes all numbers. */
  lemma Full(c: Scale, u: nat, s: nat, t: nat, m: nat)
    requires Pow2(c.bits) == s && Pow10(c.last) == t && c.last < c.bits
    requires m * t - t < s <= m * t && (10 * t - 1) * (m * t - s) < s
    requires s + t <= Pow2(c.width) && 5 * s <= Pow2(c.width) && (10 * t - 1) * m < Pow2(c.width)
    requires u < 10 * t
    ensures Fits(c, u) && Shown(c, u) == u
  {
    Constants(c, s, t, m);
    MulMono(u, 10 * t - 1, m * t - s);
    MulMono(u, 10 * t - 1, m);
    ShownIsExact(c, u);
  }

  lemma D2Full(u: nat)
    requires u < 100
    ensures Fits(D2, u) && Shown(D2, u) == u
  {
    Words();
    assert Pow2(10) == 1024 && Pow10(1) == 10;
    Full(D2, u, 1024, 10, 103);
  }

  lemma D9Full(u: nat)
    requires u < 1000000000
    ensures Pow10(9) == 1000000000 && Fits(D9, u) && Shown(D9, u) == u
  {
    Words();
    assert Pow2(56) == 72057594037927936 && Pow10(8) == 100000000 && Pow10(9) == 1000000000;
    Full(D9, u, 72057594037927936, 100000000, 720575941);
  }

  // ----- whole integers, on machines with 64-bit words -----

  /** `ecb_i2a_x10` and `ecb_i2a_09` as they are called: with numbers in their ranges. */
  method WriteX10(a: array<char>, p: nat, u: nat) returns (ptr: nat)
    requires u <= MAX_X10 && p + 10 <= a.Length
    modifies a
    ensures p <= ptr <= p + 10 && a[p..ptr] == Decimal(u) && a[..p] == old(a[..p])
  {
    X10Limit(u);
    ptr := Digits(a, p, X10, false, u);
  }

  method Write09(a: array<char>, p: nat, u: nat) returns (ptr: nat)
    requires u < 1000000000 && p + 9 <= a.Length
    modifies a
    ensures ptr == p + 9 && a[p..ptr] == Padded(u, 9) && a[..p] == old(a[..p])
  {
    D9Full(u);
    ptr := Digits(a, p, D9, true, u);
  }

  method Write2(a: array<char>, p: nat, u: nat) returns (ptr: nat)
    requires u < 100 && p + 2 <= a.Length
    modifies a
    ensures p <= ptr <= p + 2 && a[p..ptr] == Decimal(u) && a[..p] == old(a[..p])
  {
    D2Full(u);
    ptr := Digits(a, p, D2, false, u);
  }

  /** The text of the upper part and the padded lower part make the text of the whole. */
  lemma JoinParts(high: nat, low: nat, u: nat)
    requires high > 0 && low < 1000000000 && u == high * 1000000000 + low
    ensures Decimal(high) + Padded(low, 9) == Decimal(u)
  {
    assert Pow10(9) == 1000000000;
    DecimalJoin(high, low, 9);
  }

  /** The two lower groups of nine digits. */
  method WriteLow(a: array<char>, p: nat, ptr: nat, high: nat, u2: nat, u1: nat) returns (end: nat)
    requires high > 0 && u2 < 1000000000 && u1 < 1000000000 && p <= ptr && ptr + 18 <= a.Length
    requires a[p..ptr] == Decimal(high)
    modifies a
    ensures end == ptr + 18 && a[..p] == old(a[..p])
    ensures a[p..end] == Decimal((high * 1000000000 + u2) * 1000000000 + u1)
  {
    var mid := Write09(a, ptr, u2);
    JoinParts(high, u2, high * 1000000000 + u2);
    assert a[p..mid] == Decimal(high * 1000000000 + u2) by {
      assert a[p..ptr] == old(a[p..ptr]);
      assert a[p..mid] == a[p..ptr] + a[ptr..mid];
    }
    ghost var upper := a[p..mid];
    end := Write09(a, mid, u1);
    JoinParts(high * 1000000000 + u2, u1, (high * 1000000000 + u2) * 1000000000 + u1);
    assert a[p..end] == upper + a[mid..end];
  }

  const TWO_32: nat := 0x1_0000_0000
  const TWO_64: nat := 0x1_0000_0000_0000_0000

  ghost function SignedText(v: int): string {
    if v < 0 then "-" + Decimal(-v) else Decimal(v)
  }

  /** Conversion to an unsigned word, and negation there. */
  function AsUnsigned(v: int, word: int): int {
    if v < 0 then v + word else v
  }

  function Negate(x: int, word: int): int {
    if x == 0 then 0 else word - x
  }

  /** The magnitude of a negative number, computed with unsigned words. */
  function Magnitude(v: int, word: int): (u: nat)
    requires -word < v < 0
    ensures u == -v
  {
    Negate(AsUnsigned(v, word), word)
  }

  method WriteU32(a: array<char>, p: nat, u: nat) returns (ptr: nat)
    requires u < TWO_32 && p + 10 <= a.Length
    modifies a
    ensures p <= ptr <= p + 10 && a[p..ptr] == Decimal(u) && a[..p] == old(a[..p])
  {
    if u <= MAX_X10 {
      ptr := WriteX10(a, p, u);
    } else {
      var u1: nat, u2: nat := u % 1000000000, u / 1000000000;
      a[p] := DigitChar(u2);
      assert a[p..p + 1] == Decimal(u2);
      ghost var upper := a[p..p + 1];
      ptr := Write09(a, p + 1, u1);
      assert a[p..ptr] == upper + a[p + 1..ptr];
      JoinParts(u2, u1, u);
    }
  }

  /** The upper digits, and nine lower ones behind them. */
  method WriteParts(a: array<char>, p: nat, u: nat) returns (ptr: nat)
    requires MAX_X10 < u <= MAX_X10 * 1000000000 && p + 19 <= a.Length
    modifies a
    ensures p <= ptr <= p + 19 && a[p..ptr] == Decimal(u) && a[..p] == old(a[..p])
  {
    var u1: nat, u2: nat := u % 1000000000, u / 1000000000;
    ptr := WriteX10(a, p, u2);
    ghost var upper := a[p..ptr];
    var mid := ptr;
    ptr := Write09(a, mid, u1);
    assert a[p..ptr] == upper + a[mid..ptr];
    JoinParts(u2, u1, u);
  }

  /** Three branches: one generator for small numbers, two for most, three for the largest. */
  method WriteU64(a: array<char>, p: nat, u: nat) returns (ptr: nat)
    requires u < TWO_64 && p + 20 <= a.Length
    modifies a
    ensures p <= ptr <= p + 20 && a[p..ptr] == Decimal(u) && a[..p] == old(a[..p])
  {
    if u <= MAX_X10 {
      ptr := WriteX10(a, p, u);
    } else if u <= MAX_X10 * 1000000000 {
      ptr := WriteParts(a, p, u);
    } else {
      var u1: nat, ua: nat := u % 1000000000, u / 1000000000;
      var u2: nat, u3: nat := ua % 1000000000, ua / 1000000000;
      ptr := Write2(a, p, u3);
      ptr := WriteLow(a, p, ptr, u3, u2, u1);
    }
  }

  /** The place for a minus sign is always written, but kept only for negative numbers. */
  method WriteSign(a: array<char>, p: nat, v: int) returns (start: nat)
    requires p < a.Length
    modifies a
    ensures p <= start <= p + 1 && a[p..start] == (if v < 0 then "-" else "") && a[..p] == old(a[..p])
  {
    a[p] := '-';
    start := if v < 0 then p + 1 else p;
  }

  lemma JoinSign(all: string, p: nat, start: nat, ptr: nat, v: int)
    requires p <= start <= ptr <= |all| && all[p..start] == (if v < 0 then "-" else "")
    requires all[start..ptr] == Decimal(if v < 0 then -v else v)
    ensures all[p..ptr] == SignedText(v)
  {
    assert all[p..ptr] == all[p..start] + all[start..ptr];
  }

  lemma KeepPrefix(before: string, after: string, p: nat, start: nat)
    requires p <= start <= |before| && |after| == |before| && after[..start] == before[..start]
    ensures after[p..start] == before[p..start] && after[..p] == before[..p]
  {
    assert after[..start][p..] == before[..start][p..];
    assert after[..start][..p] == before[..start][..p];
  }

  /** The magnitude of every 32-bit number is in the range of the generator with ten digits. */
  method WriteI32(a: array<char>, p: nat, v: int) returns (ptr: nat)
    requires -0x8000_0000 <= v < 0x8000_0000 && p + 11 <= a.Length
    modifies a
    ensures p <= ptr <= p + 11 && a[p..ptr] == SignedText(v) && a[..p] == old(a[..p])
  {
    var start := WriteSign(a, p, v);
    var u: nat := if v < 0 then Magnitude(v, TWO_32) else v;
    ghost var before := a[..];
    ptr := WriteX10(a, start, u);
    KeepPrefix(before, a[..], p, start);
    JoinSign(a[..], p, start, ptr, v);
  }

  /** As for unsigned numbers, except that the first of three parts is a single digit. */
  method WriteMagnitude(a: array<char>, p: nat, u: nat) returns (ptr: nat)
    requires u <= 0x8000_0000_0000_0000 && p + 19 <= a.Length
    modifies a
    ensures p <= ptr <= p + 19 && a[p..ptr] == Decimal(u) && a[..p] == old(a[..p])
  {
    if u <= MAX_X10 {
      ptr := WriteX10(a, p, u);
    } else if u <= MAX_X10 * 1000000000 {
      ptr := WriteParts(a, p, u);
    } else {
      var u1: nat, ua: nat := u % 1000000000, u / 1000000000;
      var u2: nat, u3: nat := ua % 1000000000, ua / 1000000000;
      a[p] := DigitChar(u3);
      assert a[p..p + 1] == Decimal(u3);
      ptr := WriteLow(a, p, p + 1, u3, u2, u1);
    }
  }

  method WriteI64(a: array<char>, p: nat, v: int) returns (ptr: nat)
    requires -0x8000_0000_0000_0000 <= v < 0x8000_0000_0000_0000 && p + 20 <= a.Length
    modifies a
    ensures p <= ptr <= p + 20 && a[p..ptr] == SignedText(v) && a[..p] == old(a[..p])
  {
    var start := WriteSign(a, p, v);
    var u: nat := if v < 0 then Magnitude(v, TWO_64) else v;
    ghost var before := a[..];
    ptr := WriteMagnitude(a, start, u);
    KeepPrefix(before, a[..], p, start);
    JoinSign(a[..], p, start, ptr, v);
  }
}
