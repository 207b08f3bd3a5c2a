/** Square-and-multiply exponentiation in fixed point, truncating after every product.

    The web client runs it on unbounded integers (`PowLoop`), the on-chain program and the SDK on checked
    128-bit integers (`CheckedLoop`). Both are the loop of the source; the exact power is `Powers.Pow`. */
module FixedPow {
  import opened Outcomes
  import opened Powers

  const SCALE: nat := 1_000_000_000
  const U128_MAX: nat := 0xFFFF_FFFF_FFFF_FFFF_FFFF_FFFF_FFFF_FFFF

  function MulFp(x: nat, y: nat): nat {
    x * y / SCALE
  }

  function CheckedMulFp(x: nat, y: nat): Option<nat> {
    if x * y > U128_MAX then None else Some(MulFp(x, y))
  }

  /** The unbounded loop from state (result, base, exponent). */
  function PowLoop(r: nat, b: nat, e: nat): nat
    decreases e
  {
    if e == 0 then r
    else
      var r' := if e % 2 == 1 then MulFp(r, b) else r;
      if e / 2 > 0 then PowLoop(r', MulFp(b, b), e / 2) else r'
  }

  /** The checked loop from state (result, base, exponent): None as soon as one product leaves 128 bits. */
  function CheckedLoop(r: nat, b: nat, e: nat): Option<nat>
    decreases e
  {
    if e == 0 then Some(r)
    else
      match if e % 2 == 1 then CheckedMulFp(r, b) else Some(r)
      case None => None
      case Some(r') =>
        if e / 2 == 0 then Some(r')
        else
          match CheckedMulFp(b, b)
          case None => None
          case Some(b') => CheckedLoop(r', b', e / 2)
  }

  function PowFp(b: nat, e: nat): nat {
    PowLoop(SCALE, b, e)
  }

  function CheckedPowFp(b: nat, e: nat): Option<nat> {
    CheckedLoop(SCALE, b, e)
  }

  // ----- The three loops of the source -----

  /** The loop of the on-chain program, which the SDK repeats on bigints. */
  method PowFixedChecked(baseFp: nat, exponent: nat) returns (r: Option<nat>)
    ensures r == CheckedPowFp(baseFp, exponent)
  {
    var resultFp: nat, base: nat, e: nat := SCALE, baseFp, exponent;
    while e > 0
      invariant CheckedLoop(resultFp, base, e) == CheckedPowFp(baseFp, exponent)
    {
      if e % 2 == 1 {
        if resultFp * base > U128_MAX { return None; }
        resultFp := resultFp * base / SCALE;
      }
      e := e / 2;
      if e > 0 {
        if base * base > U128_MAX { return None; }
        base := base * base / SCALE;
      }
    }
    return Some(resultFp);
  }

  /** The web client's loop, which never gives up. */
  method PowFixedClient(baseFp: nat, exponent: nat) returns (r: nat)
    ensures r == PowFp(baseFp, exponent)
  {
    r := SCALE;
    var base: nat, e: nat := baseFp, exponent;
    while e > 0
      invariant PowLoop(r, base, e) == PowFp(baseFp, exponent)
    {
      if e % 2 == 1 {
        r := r * base / SCALE;
      }
      e := e / 2;
      if e > 0 {
        base := base * base / SCALE;
      }
    }
  }

  // ----- Checked refines unbounded -----

  lemma {:induction false} CheckedIsExactWhenFinite(r: nat, b: nat, e: nat)
    ensures CheckedLoop(r, b, e).Some? ==> CheckedLoop(r, b, e).value == PowLoop(r, b, e)
    decreases e
  {
    if e > 0 {
      var r' := if e % 2 == 1 then MulFp(r, b) else r;
      CheckedIsExactWhenFinite(r', MulFp(b, b), e / 2);
    }
  }

  // ----- Accuracy -----

  /** How a truncated value v may stand to the exact power b^n, in units of SCALE. */
  datatype Bound = NeverAbove | RelativeLoss | AbsoluteLoss

  ghost predicate Within(k: Bound, b: nat, v: nat, n: nat) {
    && (n == 0 ==> v == SCALE)
    && match k
       case NeverAbove => v * Pow(SCALE, n) <= SCALE * Pow(b, n)
       case RelativeLoss =>
         && v >= SCALE
         && (n > 0 ==> v * (Pow(SCALE, n - 1) * Pow(SCALE, n - 1)) >= Pow(b, n) * Pow(SCALE - 1, n - 1))
       case AbsoluteLoss =>
         && v <= SCALE
         && (n > 0 ==> (v + n - 1) * Pow(SCALE, n) >= SCALE * Pow(b, n))
  }

  /** The base a bound applies to. */
  ghost predicate Fits(k: Bound, b: nat) {
    match k
    case NeverAbove => true
    case RelativeLoss => b >= SCALE
    case AbsoluteLoss => b <= SCALE
  }

  lemma FloorOfProduct(x: nat, y: nat)
    ensures MulFp(x, y) * SCALE <= x * y < MulFp(x, y) * SCALE + SCALE
  {
  }

  lemma MulFpUnit(v: nat)
    ensures MulFp(SCALE, v) == v && MulFp(v, SCALE) == v
  {
  }

  /** Products of never-above values: A = SCALE^i, C = SCALE^j, P = b^i, Q = b^j. */
  lemma UpperProduct(x: nat, y: nat, A: nat, C: nat, P: nat, Q: nat)
    requires x * A <= SCALE * P && y * C <= SCALE * Q
    ensures MulFp(x, y) * (A * C) <= SCALE * (P * Q)
  {
    var z := MulFp(x, y);
    FloorOfProduct(x, y);
    MulMono(x * A, SCALE * P, y * C, SCALE * Q);
    MulMono(z * SCALE, x * y, A * C, A * C);
    assert (x * A) * (y * C) == (x * y) * (A * C);
    assert (SCALE * P) * (SCALE * Q) == SCALE * (P * Q) * SCALE;
    assert (z * SCALE) * (A * C) == z * (A * C) * SCALE;
    MulCancel(z * (A * C), SCALE * (P * Q), SCALE);
  }

  /** Both factors are at least one, so truncating loses at most one part in SCALE. */
  lemma LowerStep(x: nat, y: nat)
    requires x >= SCALE && y >= SCALE
    ensures MulFp(x, y) >= SCALE
    ensures MulFp(x, y) * (SCALE * SCALE) >= x * y * (SCALE - 1)
  {
    var z := MulFp(x, y);
    FloorOfProduct(x, y);
    MulMono(SCALE, x, SCALE, y);
  }

  /** A = SCALE^(i-1) twice, C = SCALE^(j-1) twice, P = b^i, Q = b^j, D = (SCALE-1)^(i-1), E = (SCALE-1)^(j-1). */
  lemma LowerProduct(x: nat, y: nat, A: nat, C: nat, P: nat, Q: nat, D: nat, E: nat)
    requires x >= SCALE && y >= SCALE
    requires x * A >= P * D && y * C >= Q * E
    ensures MulFp(x, y) * ((SCALE * SCALE) * (A * C)) >= (P * Q) * ((SCALE - 1) * (D * E))
  {
    var z := MulFp(x, y);
    LowerStep(x, y);
    MulMono(P * D, x * A, Q * E, y * C);
    MulMono(x * y * (SCALE - 1), z * (SCALE * SCALE), A * C, A * C);
    assert (x * A) * (y * C) == (x * y) * (A * C);
    assert (P * D) * (Q * E) == (P * Q) * (D * E);
    assert z * (SCALE * SCALE) * (A * C) == z * ((SCALE * SCALE) * (A * C));
    MulMono((P * Q) * (D * E), (x * y) * (A * C), SCALE - 1, SCALE - 1);
    assert (P * Q) * (D * E) * (SCALE - 1) == (P * Q) * ((SCALE - 1) * (D * E));
    assert (x * y) * (A * C) * (SCALE - 1) == x * y * (SCALE - 1) * (A * C);
  }

  lemma FactorBound(x: nat, A: nat, q: nat, m: nat, C: nat)
    requires q <= m * C
    ensures (x * A) * q <= (x * m) * (A * C)
  {
    MulMono(x * A, x * A, q, m * C);
    MulSwap(x, A, m, C);
  }

  /** p and q are ideal products overestimating x*A and y*C by at most u and w units of a scale s. */
  lemma LossesAddUp(x: nat, u: nat, A: nat, p: nat, y: nat, w: nat, C: nat, q: nat, s: nat)
    requires p <= (x + u) * A && q <= (y + w) * C && q <= s * C && x <= s
    ensures p * q <= (x * y + (u + w) * s) * (A * C)
  {
    var k := A * C;
    FactorBound(x, A, q, y + w, C);
    FactorBound(u, A, q, s, C);
    MulMono(p, (x + u) * A, q, q);
    Distribute(x, u, A);
    Distribute(x * A, u * A, q);
    Distribute(x * (y + w), u * s, k);
    Distribute(y, w, x);
    MulMono(x, s, w, w);
    Distribute(u, w, s);
    MulMono(x * (y + w) + u * s, x * y + (u + w) * s, k, k);
  }

  /** A = SCALE^i, C = SCALE^j, P = b^i, Q = b^j; both values at most one, so the two losses add up. */
  lemma SmallProduct(x: nat, y: nat, A: nat, C: nat, P: nat, Q: nat, i: nat, j: nat)
    requires i > 0 && j > 0 && x <= SCALE && y <= SCALE && Q <= C
    requires (x + i - 1) * A >= SCALE * P && (y + j - 1) * C >= SCALE * Q
    ensures MulFp(x, y) <= SCALE
    ensures (MulFp(x, y) + i + j - 1) * (A * C) >= SCALE * (P * Q)
  {
    var z := MulFp(x, y);
    FloorOfProduct(x, y);
    MulMono(x, SCALE, y, SCALE);
    LossesAddUp(x, i - 1, A, SCALE * P, y, j - 1, C, SCALE * Q, SCALE);
    MulMono(x * y + (i - 1 + j - 1) * SCALE, (z + i + j - 1) * SCALE, A * C, A * C);
    assert (SCALE * P) * (SCALE * Q) == SCALE * (P * Q) * SCALE;
    assert (z + i + j - 1) * SCALE * (A * C) == (z + i + j - 1) * (A * C) * SCALE;
    MulCancel(SCALE * (P * Q), (z + i + j - 1) * (A * C), SCALE);
  }

  lemma LowerExponents(i: nat, j: nat)
    requires i > 0 && j > 0
    ensures Pow(SCALE, i + j - 1) * Pow(SCALE, i + j - 1)
         == (SCALE * SCALE) * ((Pow(SCALE, i - 1) * Pow(SCALE, i - 1)) * (Pow(SCALE, j - 1) * Pow(SCALE, j - 1)))
    ensures Pow(SCALE - 1, i + j - 1) == (SCALE - 1) * (Pow(SCALE - 1, i - 1) * Pow(SCALE - 1, j - 1))
  {
    var a, c := Pow(SCALE, i - 1), Pow(SCALE, j - 1);
    PowAdd(SCALE, i, j - 1);
    assert Pow(SCALE, i + j - 1) == SCALE * a * c;
    assert (SCALE * a * c) * (SCALE * a * c) == (SCALE * SCALE) * ((a * a) * (c * c));
    PowAdd(SCALE - 1, i, j - 1);
    MulAssoc(SCALE - 1, Pow(SCALE - 1, i - 1), Pow(SCALE - 1, j - 1));
  }

  /** Every bound survives a truncated product, the exponents adding up. */
  lemma WithinProduct(k: Bound, b: nat, x: nat, i: nat, y: nat, j: nat)
    requires Fits(k, b) && Within(k, b, x, i) && Within(k, b, y, j)
    ensures Within(k, b, MulFp(x, y), i + j)
  {
    MulFpUnit(x);
    MulFpUnit(y);
    if i > 0 && j > 0 {
      PowAdd(SCALE, i, j);
      PowAdd(b, i, j);
      match k
      case NeverAbove =>
        UpperProduct(x, y, Pow(SCALE, i), Pow(SCALE, j), Pow(b, i), Pow(b, j));
      case RelativeLoss =>
        LowerExponents(i, j);
        LowerStep(x, y);
        var a, c := Pow(SCALE, i - 1), Pow(SCALE, j - 1);
        LowerProduct(x, y, a * a, c * c, Pow(b, i), Pow(b, j), Pow(SCALE - 1, i - 1), Pow(SCALE - 1, j - 1));
      case AbsoluteLoss =>
        PowMonotone(b, SCALE, j);
        SmallProduct(x, y, Pow(SCALE, i), Pow(SCALE, j), Pow(b, i), Pow(b, j), i, j);
    }
  }

  lemma HalveExponent(e: nat, n: nat)
    ensures n * e == (n + n) * (e / 2) + (if e % 2 == 1 then n else 0)
    ensures e / 2 > 0 ==> n + n <= (n + n) * (e / 2)
  {
    var h := e / 2;
    if e % 2 == 1 {
      assert e == 2 * h + 1;
      assert n * (2 * h + 1) == (n + n) * h + n;
    } else {
      assert e == 2 * h;
      assert n * (2 * h) == (n + n) * h;
    }
    if h > 0 { MulMono(1, h, n + n, n + n); }
  }

  /** The loop invariant of square-and-multiply: result is a b^m value, base a b^n value, and m + n*e is fixed. */
  lemma {:induction false} LoopWithin(k: Bound, b0: nat, r: nat, m: nat, b: nat, n: nat, e: nat)
    requires Fits(k, b0) && Within(k, b0, r, m) && Within(k, b0, b, n)
    ensures Within(k, b0, PowLoop(r, b, e), m + n * e)
    decreases e
  {
    if e > 0 {
      HalveExponent(e, n);
      WithinProduct(k, b0, r, m, b, n);
      WithinProduct(k, b0, b, n, b, n);
      var odd := e % 2 == 1;
      LoopWithin(k, b0, if odd then MulFp(r, b) else r, if odd then m + n else m, MulFp(b, b), n + n, e / 2);
    }
  }

  lemma StartWithin(k: Bound, b: nat)
    requires Fits(k, b)
    ensures Within(k, b, SCALE, 0) && Within(k, b, b, 1)
  {
    assert Pow(b, 1) == b * Pow(b, 0) && Pow(SCALE, 1) == SCALE * Pow(SCALE, 0);
  }

  lemma PowWithin(k: Bound, b: nat, e: nat)
    requires Fits(k, b)
    ensures Within(k, b, PowFp(b, e), e)
  {
    StartWithin(k, b);
    LoopWithin(k, b, SCALE, 0, b, 1, e);
  }

  /** Truncation only ever loses: r * SCALE^(e-1) <= b^e. */
  lemma PowNeverAbove(b: nat, e: nat)
    requires e >= 1
    ensures PowFp(b, e) * Pow(SCALE, e - 1) <= Pow(b, e)
  {
    PowWithin(NeverAbove, b, e);
    var r := PowFp(b, e);
    assert r * (SCALE * Pow(SCALE, e - 1)) == r * Pow(SCALE, e - 1) * SCALE;
    MulCancel(r * Pow(SCALE, e - 1), Pow(b, e), SCALE);
  }

  /** For a base of at least one, each of the e - 1 products keeps all but one part in SCALE. */
  lemma PowRelativeLoss(b: nat, e: nat)
    requires e >= 1 && b >= SCALE
    ensures PowFp(b, e) >= SCALE
    ensures PowFp(b, e) * (Pow(SCALE, e - 1) * Pow(SCALE, e - 1)) >= Pow(b, e) * Pow(SCALE - 1, e - 1)
  {
    PowWithin(RelativeLoss, b, e);
  }

  /** For a base of at most one, the e - 1 products lose less than e units of the last place in all. */
  lemma PowAbsoluteLoss(b: nat, e: nat)
    requires e >= 1 && b <= SCALE
    ensures PowFp(b, e) <= SCALE
    ensures (PowFp(b, e) + e - 1) * Pow(SCALE, e - 1) >= Pow(b, e)
  {
    PowWithin(AbsoluteLoss, b, e);
    var r := PowFp(b, e) + e - 1;
    assert r * (SCALE * Pow(SCALE, e - 1)) == r * Pow(SCALE, e - 1) * SCALE;
    MulCancel(Pow(b, e), r * Pow(SCALE, e - 1), SCALE);
  }

  lemma {:induction false} Bernoulli(s: nat, n: nat)
    requires 1 <= s && n <= s
    ensures Pow(s - 1, n) * s >= Pow(s, n) * (s - n)
  {
    if n > 0 {
      Bernoulli(s, n - 1);
      BernoulliStep(s, n, Pow(s - 1, n - 1), Pow(s, n - 1));
    }
  }

  lemma BernoulliStep(s: nat, n: nat, p: nat, q: nat)
    requires 1 <= n <= s && p * s >= q * (s - n + 1)
    ensures (s - 1) * p * s >= s * q * (s - n)
  {
    MulMono(q * (s - n + 1), p * s, s - 1, s - 1);
    assert (s - 1) * p * s == p * s * (s - 1);
    assert q * (s - n + 1) * (s - 1) == s * q * (s - n) + q * (n - 1);
  }

  lemma LossFraction(r: nat, x: nat, a: nat, d: nat, u: nat, s: nat)
    requires r * (a * a) >= x * d && d * s >= a * (s - u) && a > 0 && u <= s
    ensures r * (s * a) >= x * (s - u)
  {
    MulMono(a * (s - u), d * s, x, x);
    MulMono(x * d, r * (a * a), s, s);
    assert x * d * s == x * (d * s);
    assert x * (a * (s - u)) == x * (s - u) * a;
    assert r * (a * a) * s == r * (s * a) * a;
    MulCancel(x * (s - u), r * (s * a), a);
  }

  /** The relative loss is at most (e - 1) / SCALE. */
  lemma PowLossBound(b: nat, e: nat)
    requires 1 <= e <= SCALE && b >= SCALE
    ensures PowFp(b, e) * Pow(SCALE, e) >= Pow(b, e) * (SCALE - (e - 1))
  {
    PowRelativeLoss(b, e);
    Bernoulli(SCALE, e - 1);
    PowPositive(SCALE, e - 1);
    LossFraction(PowFp(b, e), Pow(b, e), Pow(SCALE, e - 1), Pow(SCALE - 1, e - 1), e - 1, SCALE);
  }

  // ----- Overflow detection -----

  /** When the checked loop gives up, two of its values, of exponents together at most the target's, overflow. */
  lemma {:induction false} OverflowWitness(k: Bound, b0: nat, r: nat, m: nat, b: nat, n: nat, e: nat)
    returns (x: nat, i: nat, y: nat, j: nat)
    requires Fits(k, b0) && Within(k, b0, r, m) && Within(k, b0, b, n)
    requires CheckedLoop(r, b, e).None?
    ensures Within(k, b0, x, i) && Within(k, b0, y, j) && i + j <= m + n * e && x * y > U128_MAX
    decreases e
  {
    HalveExponent(e, n);
    var odd := e % 2 == 1;
    if odd && r * b > U128_MAX {
      x, i, y, j := r, m, b, n;
    } else if b * b > U128_MAX {
      x, i, y, j := b, n, b, n;
    } else {
      WithinProduct(k, b0, r, m, b, n);
      WithinProduct(k, b0, b, n, b, n);
      x, i, y, j := OverflowWitness(k, b0, if odd then MulFp(r, b) else r, if odd then m + n else m,
                                    MulFp(b, b), n + n, e / 2);
    }
  }

  /** A base of at most one never overflows 128 bits. */
  lemma SmallBaseNeverOverflows(b: nat, e: nat)
    requires b <= SCALE
    ensures CheckedPowFp(b, e) == Some(PowFp(b, e))
  {
    CheckedIsExactWhenFinite(SCALE, b, e);
    StartWithin(AbsoluteLoss, b);
    if CheckedPowFp(b, e).None? {
      var x, i, y, j := OverflowWitness(AbsoluteLoss, b, SCALE, 0, b, 1, e);
      MulMono(x, SCALE, y, SCALE);
      assert false;
    }
  }

  /** Two never-above values of exponents i + j <= e whose product exceeds the limit put b^e over it too. */
  lemma OverflowReachesExact(b: nat, x: nat, i: nat, y: nat, j: nat, e: nat, limit: nat)
    requires b >= SCALE && i + j <= e && x * y > limit
    requires Within(NeverAbove, b, x, i) && Within(NeverAbove, b, y, j)
    ensures Pow(b, e) * (SCALE * SCALE) > limit * Pow(SCALE, e)
  {
    var A, C, P, Q := Pow(SCALE, i), Pow(SCALE, j), Pow(b, i), Pow(b, j);
    var d := e - i - j;
    PowAdd(b, i, j);
    PowAdd(b, i + j, d);
    PowAdd(SCALE, i, j);
    PowAdd(SCALE, i + j, d);
    PowMonotone(SCALE, b, d);
    PowPositive(SCALE, i + j);
    PowPositive(SCALE, d);
    ScaledProducts(x, A, P, y, C, Q, SCALE, limit);
    ExtendStrict(limit, A * C, P * Q, SCALE * SCALE, Pow(SCALE, d), Pow(b, d));
  }

  lemma ExtendStrict(limit: nat, a: nat, p: nat, s: nat, K: nat, L: nat)
    requires limit * a < p * s && 0 < K <= L
    ensures limit * (a * K) < (p * L) * s
  {
    MulMono(limit * a + 1, p * s, K, L);
    assert limit * a * K == limit * (a * K);
    assert p * s * L == (p * L) * s;
  }

  lemma ScaledProducts(x: nat, A: nat, P: nat, y: nat, C: nat, Q: nat, s: nat, limit: nat)
    requires x * A <= s * P && y * C <= s * Q && x * y > limit && A * C > 0
    ensures limit * (A * C) < (P * Q) * (s * s)
  {
    MulMono(x * A, s * P, y * C, s * Q);
    MulMono(limit + 1, x * y, A * C, A * C);
    assert (x * A) * (y * C) == (x * y) * (A * C);
    assert (s * P) * (s * Q) == (P * Q) * (s * s);
  }

  /** The last product of a finite run fits 128 bits, so a finite result is at most the limit over SCALE. */
  lemma {:induction false} FiniteResultFits(r: nat, b: nat, e: nat)
    requires e >= 1 && CheckedLoop(r, b, e).Some?
    ensures CheckedLoop(r, b, e).value * SCALE <= U128_MAX
    decreases e
  {
    if e / 2 > 0 {
      FiniteResultFits(if e % 2 == 1 then MulFp(r, b) else r, MulFp(b, b), e / 2);
    } else {
      FloorOfProduct(r, b);
    }
  }

  /** Overflow detection is never spurious: "infinite" means the exact power really exceeds the limit. */
  lemma InfiniteIsNeverSpurious(b: nat, e: nat)
    requires b >= SCALE && CheckedPowFp(b, e).None?
    ensures Pow(b, e) * (SCALE * SCALE) > U128_MAX * Pow(SCALE, e)
  {
    StartWithin(NeverAbove, b);
    var x, i, y, j := OverflowWitness(NeverAbove, b, SCALE, 0, b, 1, e);
    OverflowReachesExact(b, x, i, y, j, e, U128_MAX);
  }

  /** ... and almost complete: "finite" means it exceeds it by no more than the accumulated relative loss. */
  lemma FiniteIsNearlyExact(b: nat, e: nat)
    requires b >= SCALE && 1 <= e <= SCALE && CheckedPowFp(b, e).Some?
    ensures Pow(b, e) * (SCALE - (e - 1)) * SCALE <= U128_MAX * Pow(SCALE, e)
  {
    CheckedIsExactWhenFinite(SCALE, b, e);
    FiniteResultFits(SCALE, b, e);
    PowLossBound(b, e);
    ChainBounds(PowFp(b, e), Pow(SCALE, e), Pow(b, e) * (SCALE - (e - 1)), SCALE, U128_MAX);
  }

  lemma ChainBounds(r: nat, a: nat, x: nat, s: nat, limit: nat)
    requires x <= r * a && r * s <= limit
    ensures x * s <= limit * a
  {
    MulMono(x, r * a, s, s);
    MulMono(r * s, limit, a, a);
    assert r * a * s == r * s * a;
  }

  // ----- Monotonicity -----

  lemma MulFpMonotone(a: nat, b: nat, c: nat, d: nat)
    requires a <= b && c <= d
    ensures a * c <= b * d && MulFp(a, c) <= MulFp(b, d)
  {
    MulMono(a, b, c, d);
    FloorOfProduct(a, c);
    FloorOfProduct(b, d);
  }

  lemma {:induction false} LoopMonotone(r: nat, r': nat, b: nat, b': nat, e: nat)
    requires r <= r' && b <= b'
    ensures PowLoop(r, b, e) <= PowLoop(r', b', e)
    ensures CheckedLoop(r', b', e).Some? ==> CheckedLoop(r, b, e).Some?
    decreases e
  {
    if e > 0 {
      MulFpMonotone(r, r', b, b');
      MulFpMonotone(b, b', b, b');
      var odd := e % 2 == 1;
      LoopMonotone(if odd then MulFp(r, b) else r, if odd then MulFp(r', b') else r', MulFp(b, b), MulFp(b', b'), e / 2);
    }
  }

  /** A larger base never gives a smaller power, "infinite" counting as the top. */
  lemma PowFpMonotone(b: nat, b': nat, e: nat)
    requires b <= b'
    ensures PowFp(b, e) <= PowFp(b', e)
    ensures CheckedPowFp(b', e).Some? ==> CheckedPowFp(b, e).Some?
    ensures CheckedPowFp(b', e).Some? ==> CheckedPowFp(b, e).value <= CheckedPowFp(b', e).value
  {
    LoopMonotone(SCALE, SCALE, b, b', e);
    CheckedIsExactWhenFinite(SCALE, b, e);
    CheckedIsExactWhenFinite(SCALE, b', e);
  }
}
