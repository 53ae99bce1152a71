/** Checked integer arithmetic for capacity accounting (src/checked.cpp).

    Machine words are mathematical integers restricted to their range, so every place where the program
    relies on wrap-around or truncation is written out with an explicit `%`. */
module Checked {

  const U64_LIMIT: int := 0x1_0000_0000_0000_0000
  const LIMB: int := 0x1_0000_0000
  const PPM_SCALE: u64 := 1_000_000
  const MAX_RATIO_TERM: u64 := 1_000_000
  const HARD_MAX_CAPACITY_UNITS: u64 := 0x1_0000_0000_0000

  type u64 = x: int | 0 <= x < 0x1_0000_0000_0000_0000
  type u32 = x: int | 0 <= x < 0x1_0000_0000
  type byte = x: int | 0 <= x < 256

  datatype Option<+T> = None | Some(value: T)

  // ------------------------------------------------------------------ sums

  function AddChecked(a: u64, b: u64): (r: Option<u64>)
    ensures r.Some? <==> a + b < U64_LIMIT
    ensures r.Some? ==> r.value == a + b
  {
    if a > U64_LIMIT - 1 - b then None else Some(a + b)
  }

  function AddSat(a: u64, b: u64): (r: u64)
    ensures r > 0 <==> a > 0 || b > 0
    ensures r <= a + b
    ensures a <= r && b <= r
  {
    match AddChecked(a, b)
    case Some(s) => s
    case None => U64_LIMIT - 1
  }

  function Sum(values: seq<u64>): (total: nat) {
    if values == [] then 0 else Sum(values[..|values| - 1]) + values[|values| - 1]
  }

  lemma {:induction false} PrefixSumBounded(values: seq<u64>, i: nat)
    requires i <= |values|
    ensures Sum(values[..i]) <= Sum(values)
    decreases |values| - i
  {
    if i == |values| {
      assert values[..i] == values;
    } else {
      assert values[..i + 1][..i] == values[..i];
      PrefixSumBounded(values, i + 1);
    }
  }

  /** The running sum stops at the first prefix that does not fit; that happens exactly when the
      whole sum does not fit. */
  method SumChecked(values: seq<u64>) returns (r: Option<u64>)
    ensures r == if Sum(values) < U64_LIMIT then Some(Sum(values)) else None
  {
    var acc: u64 := 0;
    for i := 0 to |values|
      invariant acc == Sum(values[..i])
    {
      assert values[..i + 1][..i] == values[..i];
      var next := AddChecked(acc, values[i]);
      if next.None? {
        PrefixSumBounded(values, i + 1);
        return None;
      }
      acc := next.value;
    }
    assert values[..|values|] == values;
    return Some(acc);
  }

  // ------------------------------------------- wide product and division

  function Pow2(n: nat): (p: nat)
    ensures p > 0
  {
    if n == 0 then 1 else 2 * Pow2(n - 1)
  }

  lemma ProductBound(a: int, b: int, m: int, n: int)
    requires 0 <= a < m && 0 <= b < n
    ensures 0 <= a * b <= (m - 1) * (n - 1)
  {
    assert a * b <= (m - 1) * b <= (m - 1) * (n - 1);
  }

  /** Schoolbook product of two 64-bit words over 32-bit limbs. */
  method WideProduct(a: u64, b: u64) returns (hi: u64, lo: u64)
    ensures hi * U64_LIMIT + lo == a * b
  {
    var a0, a1 := a % LIMB, a / LIMB;
    var b0, b1 := b % LIMB, b / LIMB;
    ProductBound(a0, b0, LIMB, LIMB);
    ProductBound(a0, b1, LIMB, LIMB);
    ProductBound(a1, b0, LIMB, LIMB);
    ProductBound(a1, b1, LIMB, LIMB);
    var p00: u64, p01: u64 := a0 * b0, a0 * b1;
    var p10: u64, p11: u64 := a1 * b0, a1 * b1;
    var mid: u64 := p00 / LIMB + p01 % LIMB + p10 % LIMB;
    // The shift by 32 drops the upper half of `mid`; the two operands of the bitwise-or are disjoint.
    lo := p00 % LIMB + mid % LIMB * LIMB;
    var upper := p11 + p01 / LIMB + p10 / LIMB + mid / LIMB;
    LimbExpansion(a, b);
    CarryChain(p00, p01, p10, p11);
    assert upper * U64_LIMIT + lo == a * b;
    ProductBound(a, b, U64_LIMIT, U64_LIMIT);
    hi := upper;
  }

  lemma CarryChain(p00: nat, p01: nat, p10: nat, p11: nat)
    ensures var mid := p00 / LIMB + p01 % LIMB + p10 % LIMB;
            (p11 + p01 / LIMB + p10 / LIMB + mid / LIMB) * U64_LIMIT + (p00 % LIMB + mid % LIMB * LIMB)
            == p11 * U64_LIMIT + (p01 + p10) * LIMB + p00
  {
  }

  lemma LimbExpansion(a: nat, b: nat)
    ensures var a0, a1, b0, b1 := a % LIMB, a / LIMB, b % LIMB, b / LIMB;
            a * b == a1 * b1 * U64_LIMIT + (a0 * b1 + a1 * b0) * LIMB + a0 * b0
  {
    var a0, a1, b0, b1 := a % LIMB, a / LIMB, b % LIMB, b / LIMB;
    calc {
      a * b;
      (a1 * LIMB + a0) * (b1 * LIMB + b0);
      a1 * LIMB * (b1 * LIMB + b0) + a0 * (b1 * LIMB + b0);
      a1 * b1 * (LIMB * LIMB) + a1 * b0 * LIMB + (a0 * b1 * LIMB + a0 * b0);
    }
  }

  /** Bit `k - 1` of `lo` extends the leading bits of `lo`. */
  lemma LeadingBits(lo: nat, k: nat)
    requires k > 0
    ensures lo / Pow2(k - 1) == 2 * (lo / Pow2(k)) + lo / Pow2(k - 1) % 2
  {
    var p := Pow2(k - 1);
    var q := lo / p;
    assert lo == q * p + lo % p;
    HalveQuotient(lo, p);
  }

  lemma HalveQuotient(n: nat, p: nat)
    requires p > 0
    ensures n / (2 * p) == n / p / 2
  {
    var q := n / p;
    var r := n % p;
    var h := q / 2;
    assert n == q * p + r;
    assert q * p == 2 * h * p + q % 2 * p;
    assert n == h * (2 * p) + (q % 2 * p + r);
    DivisionUnique(n, 2 * p, h, q % 2 * p + r);
  }

  lemma DivisionUnique(n: int, d: int, q: int, r: int)
    requires d > 0 && 0 <= r < d
    requires n == q * d + r
    ensures n / d == q && n % d == r
  {
    var q' := n / d;
    DivModIdentity(n, d);
    if q < q' {
      MulMono(q + 1, q', d);
    } else if q' < q {
      MulMono(q' + 1, q, d);
    }
  }

  lemma DivModIdentity(n: int, d: int)
    requires d > 0
    ensures n == n / d * d + n % d && 0 <= n % d < d
  {
  }

  lemma MulMono(a: int, b: int, c: int)
    requires a <= b && 0 <= c
    ensures a * c <= b * c && c * a <= c * b
  {
  }

  /** One shift-subtract step. The shift loses the top bit of `rem`, which `carry` remembers, and the
      subtraction is a 64-bit one: it borrows through the lost bit exactly when it has to. */
  lemma DivisionStep(rem: u64, bit: nat, d: u64)
    requires rem < d && bit <= 1
    ensures var carry, shifted := rem / Pow63(), rem * 2 % U64_LIMIT + bit;
            var t := 2 * rem + bit;
            if carry != 0 || shifted >= d
            then (shifted - d) % U64_LIMIT == t - d && t - d < d
            else shifted == t
  {
    var shifted, t := rem * 2 % U64_LIMIT + bit, 2 * rem + bit;
    if rem / Pow63() != 0 {
      assert shifted == t - U64_LIMIT;
      DivisionUnique(shifted - d, U64_LIMIT, -1, t - d);
    }
  }

  function Pow63(): nat { 0x8000_0000_0000_0000 }

  /** 128-by-64 shift-subtract division, most significant bit first. */
  method DivideWide(hi: u64, lo: u64, d: u64) returns (quotient: u64, remainder: u64)
    requires hi < d
    ensures hi * U64_LIMIT + lo == quotient * d + remainder
    ensures remainder < d
  {
    var rem: u64 := hi;
    var quot: nat := 0;
    var bit := 64;
    ghost var seen := hi;   // the part of the dividend already consumed
    Pow2At64();
    while bit > 0
      invariant 0 <= bit <= 64
      invariant Divided(seen, quot, d, rem)
      invariant quot < Pow2(64 - bit)
      invariant Remaining(seen, lo, bit) == hi * U64_LIMIT + lo
    {
      bit := bit - 1;
      var next := lo / Pow2(bit) % 2;
      ConsumeBit(hi, lo, seen, bit);
      rem, quot := ShiftSubtract(rem, quot, next, d, seen);
      seen := 2 * seen + next;
    }
    quotient, remainder := quot, rem;
  }

  method ShiftSubtract(rem: u64, quot: nat, next: nat, d: u64, ghost seen: nat) returns (rem': u64, quot': nat)
    requires Divided(seen, quot, d, rem) && next <= 1
    ensures Divided(2 * seen + next, quot', d, rem')
    ensures quot' <= 2 * quot + 1
  {
    var carry := rem / Pow63();
    DivisionStep(rem, next, d);
    DoubleIdentity(seen, quot, d, rem, next);
    rem' := rem * 2 % U64_LIMIT + next;
    quot' := quot * 2;
    if carry != 0 || rem' >= d {
      rem' := (rem' - d) % U64_LIMIT;
      quot' := quot' + 1;
    }
  }

  ghost predicate Divided(n: int, q: int, d: int, r: int) {
    n == q * d + r && 0 <= r < d
  }

  ghost function Remaining(seen: nat, lo: nat, bit: nat): nat {
    seen * Pow2(bit) + lo % Pow2(bit)
  }

  lemma DoubleIdentity(n: int, q: int, d: int, r: int, bit: int)
    requires Divided(n, q, d, r)
    ensures 2 * r + bit < d && bit >= 0 ==> Divided(2 * n + bit, q * 2, d, 2 * r + bit)
    ensures d <= 2 * r + bit < 2 * d ==> Divided(2 * n + bit, q * 2 + 1, d, 2 * r + bit - d)
  {
    assert (q * 2 + 1) * d == q * 2 * d + d;
    assert q * 2 * d == 2 * (q * d);
  }

  lemma ConsumeBit(hi: nat, lo: nat, seen: nat, bit: nat)
    requires Remaining(seen, lo, bit + 1) == hi * U64_LIMIT + lo
    ensures Remaining(2 * seen + lo / Pow2(bit) % 2, lo, bit) == hi * U64_LIMIT + lo
  {
    var p := Pow2(bit);
    var b, high := lo / p % 2, lo / (2 * p);
    LeadingBits(lo, bit + 1);
    DivModIdentity(lo, p);
    DivModIdentity(lo, 2 * p);
    assert lo / p == 2 * high + b;
    DistributeBit(high, b, p);
    DistributeBit(seen, b, p);
  }

  lemma DistributeBit(x: int, b: int, p: int)
    ensures (2 * x + b) * p == x * (2 * p) + b * p
  {
  }

  lemma Pow2At64()
    ensures Pow2(64) == U64_LIMIT
  {
    Pow2At32();
    Pow2Add(32, 32);
  }

  lemma Pow2At32()
    ensures Pow2(32) == LIMB
  {
    Pow2At8();
    Pow2Add(8, 8);
    Pow2Add(16, 16);
  }

  lemma Pow2At8()
    ensures Pow2(8) == 256
  {
    assert Pow2(4) == 16;
    Pow2Add(4, 4);
  }

  lemma {:induction false} Pow2Add(m: nat, n: nat)
    ensures Pow2(m + n) == Pow2(m) * Pow2(n)
  {
    if m == 0 {
      assert Pow2(0) * Pow2(n) == Pow2(n);
    } else {
      Pow2Add(m - 1, n);
      Rotate(2, Pow2(m - 1), Pow2(n));
    }
  }

  /** floor(a * b / d) and its remainder on 64-bit words: it fails exactly when there is no such quotient. */
  method LongDivisionEx(a: u64, b: u64, d: u64) returns (ok: bool, quotient: u64, remainder: u64)
    ensures ok <==> d != 0 && a * b / d < U64_LIMIT
    ensures ok ==> a * b == quotient * d + remainder && remainder < d
    ensures ok ==> quotient == a * b / d && remainder == a * b % d
  {
    quotient, remainder := 0, 0;
    if d == 0 {
      return false, 0, 0;
    }
    var hi: u64, lo: u64;
    if a == 0 || b <= (U64_LIMIT - 1) / a {
      SmallProduct(a, b);
      hi, lo := 0, a * b;
    } else {
      hi, lo := WideProduct(a, b);
    }
    if hi == 0 {
      QuotientFits(lo, d);
      return true, lo / d, lo % d;
    }
    if hi >= d {
      LargeQuotient(hi, lo, d);
      return false, 0, 0;
    }
    quotient, remainder := DivideWide(hi, lo, d);
    DivisionUnique(a * b, d, quotient, remainder);
    ok := true;
  }

  lemma SmallProduct(a: u64, b: u64)
    requires a == 0 || b <= (U64_LIMIT - 1) / a
    ensures 0 <= a * b < U64_LIMIT
  {
    if a != 0 {
      var q := (U64_LIMIT - 1) / a;
      DivModIdentity(U64_LIMIT - 1, a);
      MulMono(b, q, a);
      MulMono(0, a, b);
    }
  }

  lemma QuotientFits(n: nat, d: nat)
    requires d != 0
    ensures 0 <= n / d <= n
  {
    DivModIdentity(n, d);
    MulMono(1, d, n / d);
  }

  lemma LargeQuotient(hi: u64, lo: u64, d: u64)
    requires 0 < d <= hi
    ensures (hi * U64_LIMIT + lo) / d >= U64_LIMIT
  {
    var n := hi * U64_LIMIT + lo;
    DivModIdentity(n, d);
    if n / d < U64_LIMIT {
      MulMono(n / d, U64_LIMIT - 1, d);
      assert false;
    }
  }

  // --------------------------------------------------------- multiply-divide

  /** floor(a * b / d) as the 128-bit fast path computes it. */
  function MulDivFloor(a: u64, b: u64, d: u64): (r: Option<u64>)
    ensures r.Some? <==> d != 0 && a * b / d < U64_LIMIT
    ensures r.Some? ==> r.value == a * b / d
    ensures r.Some? ==> r.value * d <= a * b < (r.value + 1) * d
  {
    if d == 0 then None
    else if a == 0 || b == 0 then
      assert a * b == 0; Some(0)
    else
      var q := a * b / d;
      assert a * b == q * d + a * b % d;
      assert q >= 0 by { ProductBound(a, b, U64_LIMIT, U64_LIMIT); }
      if q >= U64_LIMIT then None else Some(q)
  }

  method MulDivFloorReference(a: u64, b: u64, d: u64) returns (r: Option<u64>)
    ensures r == MulDivFloor(a, b, d)
  {
    var ok, q, rem := LongDivisionEx(a, b, d);
    if ok && (a == 0 || b == 0) {
      assert a * b == 0;
    }
    r := if ok then Some(q) else None;
  }

  function MulDivFloorSat(a: u64, b: u64, d: u64): u64 {
    match MulDivFloor(a, b, d)
    case Some(q) => q
    case None => U64_LIMIT - 1
  }

  /** The least integer not below n / d. */
  function CeilDiv(n: nat, d: nat): (q: nat)
    requires d != 0
    ensures q * d >= n && (q > 0 ==> (q - 1) * d < n)
  {
    assert n == n / d * d + n % d;
    if n % d == 0 then n / d else n / d + 1
  }

  method MulDivCeil(a: u64, b: u64, d: u64) returns (r: Option<u64>)
    ensures r.Some? <==> d != 0 && CeilDiv(a * b, d) < U64_LIMIT
    ensures r.Some? ==> r.value == CeilDiv(a * b, d)
  {
    if d == 0 {
      return None;
    }
    if a == 0 || b == 0 {
      assert a * b == 0;
      return Some(0);
    }
    var ok, q, rem := LongDivisionEx(a, b, d);
    if !ok {
      return None;
    }
    if rem == 0 {
      return Some(q);
    }
    return AddChecked(q, 1);
  }

  // ------------------------------------------------------------------ ratios

  datatype Ratio = Ratio(num: u64, den: u64)

  predicate RatioGe(a: Ratio, b: Ratio) { a.num * b.den >= b.num * a.den }
  predicate RatioLe(a: Ratio, b: Ratio) { RatioGe(b, a) }
  predicate RatioGt(a: Ratio, b: Ratio) { !RatioGe(b, a) }
  predicate RatioLt(a: Ratio, b: Ratio) { !RatioGe(a, b) }

  /** So many units, scaled by the ratio and rounded down. */
  function Scaled(u: nat, r: Ratio): nat {
    if r.den == 0 then 0
    else
      var n: nat := u * r.num;
      n / r.den
  }

  /** With bounded terms the cross products are computed without wrap-around. */
  lemma CrossProductsFit(a: Ratio, b: Ratio)
    requires a.num <= MAX_RATIO_TERM && b.den <= MAX_RATIO_TERM
    ensures 0 <= a.num * b.den < U64_LIMIT
  {
    ProductBound(a.num, b.den, MAX_RATIO_TERM + 1, MAX_RATIO_TERM + 1);
  }

  /** Cross-multiplied comparison orders ratios as the rational numbers they denote. */
  lemma RatioOrderIsRational(a: Ratio, b: Ratio)
    requires a.den != 0 && b.den != 0
    ensures RatioGe(a, b) <==> a.num as real / a.den as real >= b.num as real / b.den as real
  {
    var x, y := a.num as real / a.den as real, b.num as real / b.den as real;
    var da, db := a.den as real, b.den as real;
    assert x * da == a.num as real && y * db == b.num as real;
    CrossReal(x, y, da, db);
    assert x * da * db == (a.num * b.den) as real;
    assert y * db * da == (b.num * a.den) as real;
  }

  lemma CrossReal(x: real, y: real, da: real, db: real)
    requires da > 0.0 && db > 0.0
    ensures x >= y <==> x * da * db >= y * db * da
  {
    var p := da * db;
    assert p > 0.0;
    assert x * da * db == x * p && y * db * da == y * p;
    if x >= y {
      assert (x - y) * p >= 0.0;
    } else {
      assert (y - x) * p > 0.0;
    }
  }

  lemma RatioLeTransitive(a: Ratio, b: Ratio, c: Ratio)
    requires a.den != 0 && b.den != 0 && c.den != 0
    requires RatioLe(a, b) && RatioLe(b, c)
    ensures RatioLe(a, c)
  {
    RatioOrderIsRational(b, a);
    RatioOrderIsRational(c, b);
    RatioOrderIsRational(c, a);
  }

  // --------------------------------------- scaling by a ratio is monotone

  /** floor(u * n / d) grows with the scaled amount and with the ratio. */
  lemma ScaleMono(u: nat, v: nat, r: Ratio, s: Ratio)
    requires r.den != 0 && s.den != 0
    requires u <= v && RatioLe(r, s)
    ensures u * r.num / r.den <= v * s.num / s.den
  {
    var x, y := u * r.num / r.den, v * s.num / s.den;
    DivModIdentity(u * r.num, r.den);
    DivModIdentity(v * s.num, s.den);
    if y + 1 <= x {
      // v * s.num < (y + 1) * s.den <= x * s.den and x * r.den <= u * r.num
      MulMono(y + 1, x, s.den);
      MulStrict(v * s.num, x * s.den, r.den);
      MulMono(x * r.den, u * r.num, s.den);
      MulMono(r.num * s.den, s.num * r.den, u);
      MulMono(u, v, s.num * r.den);
      Rotate(x, s.den, r.den);
      Rotate(u, r.num, s.den);
      Rotate(v, s.num, r.den);
      assert false;
    }
  }

  lemma Rotate(a: int, b: int, c: int)
    ensures a * b * c == a * (b * c) == a * c * b
  {
  }

  lemma MulStrict(a: int, b: int, c: int)
    requires a < b && 0 < c
    ensures a * c < b * c
  {
    MulMono(a + 1, b, c);
  }
}
