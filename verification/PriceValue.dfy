/** What a quote is worth, independently of how it is computed: the velocity it is quoted at, and its price against the exact
    value base * (1 + velocity / 10^4)^t * (1 - discount), up to truncation. */
module PriceValue {
  import opened Widths
  import opened Powers
  import opened FixedPow
  import opened Quotes

  // ----- Velocity -----

  /** The velocity v, weighted by the square of the distance of the score from 100 and truncated toward zero. */
  ghost predicate IsWeighted(w: int, v: int, score: int) {
    var distance := 100 - score;
    && (v >= 0 ==> w >= 0 && 10_000 * w <= v * (distance * distance) < 10_000 * (w + 1))
    && (v <= 0 ==> w <= 0 && 10_000 * (-w) <= (-v) * (distance * distance) < 10_000 * (-w + 1))
  }

  lemma WeightIsQuadratic(v: int, score: int)
    requires 0 <= score <= 100
    ensures IsWeighted(EffectiveVelocity(v, score), v, score)
  {
    var weight := (100 - score) * (100 - score);
    MulMono(0, 100 - score, 0, 100 - score);
    if v >= 0 {
      MulMono(0, v, weight, weight);
    } else {
      MulMono(0, -v, weight, weight);
      assert (-v) * weight == -(v * weight);
    }
  }

  /** All three programs quote at the weighted velocity. */
  lemma VelocityIsWeighted(i: QuoteInput)
    requires Valid(i)
    ensures ChainQuote(i).Ok? && IsWeighted(ChainQuote(i).value.velocityBps, i.salesVelocityBps, i.dignityScore)
    ensures ClientOf(i).Ok? && IsWeighted(ClientOf(i).value.velocityBps, i.salesVelocityBps, i.dignityScore)
    ensures SdkQuote(i).Ok? && IsWeighted(SdkQuote(i).value.velocityBps, i.salesVelocityBps, i.dignityScore)
  {
    WeightIsQuadratic(i.salesVelocityBps, i.dignityScore);
    ChainVersusClient(i);
    SdkVersusChain(i);
  }

  // ----- Growth -----

  /** x / 10^4 is one step of growth, in fixed point x * 10^5: what the truncated power of it says about x^t. */
  lemma GrowthBounds(x: nat, t: nat)
    requires x >= 1 && 1 <= t <= MAX_TIME_ELAPSED_SECS
    ensures PowFp(x * 100_000, t) * Pow(10_000, t) <= SCALE * Pow(x, t)
    ensures x >= 10_000 ==> Pow(x, t) * (SCALE - (t - 1)) <= PowFp(x * 100_000, t) * Pow(10_000, t)
    ensures x <= 10_000 ==> SCALE * Pow(x, t) <= (PowFp(x * 100_000, t) + t - 1) * Pow(10_000, t)
  {
    var b, r, k := x * 100_000, PowFp(x * 100_000, t), Pow(100_000, t);
    var (xt, n) := (Pow(x, t), Pow(10_000, t));
    PowProduct(x, 100_000, t);
    PowProduct(10_000, 100_000, t);
    PowPositive(100_000, t);
    assert Pow(b, t) == xt * k && Pow(SCALE, t) == n * k;
    assert Pow(SCALE, t) == SCALE * Pow(SCALE, t - 1);
    PowNeverAbove(b, t);
    UpperGrowth(r, Pow(SCALE, t - 1), SCALE, xt, n, k);
    if x >= 10_000 {
      PowLossBound(b, t);
      HotGrowth(r, n, k, xt, SCALE - (t - 1));
    }
    if x <= 10_000 {
      PowAbsoluteLoss(b, t);
      ColdGrowth(r + t - 1, Pow(SCALE, t - 1), SCALE, xt, n, k);
    }
  }

  lemma UpperGrowth(r: nat, y: nat, s: nat, xt: nat, n: nat, k: nat)
    requires r * y <= xt * k && s * y == n * k && k > 0
    ensures r * n <= s * xt
  {
    MulMono(r * y, xt * k, s, s);
    assert r * y * s == r * n * k;
    assert xt * k * s == s * xt * k;
    MulCancel(r * n, s * xt, k);
  }

  lemma HotGrowth(r: nat, n: nat, k: nat, xt: nat, u: nat)
    requires r * (n * k) >= xt * k * u && k > 0
    ensures xt * u <= r * n
  {
    assert r * (n * k) == r * n * k;
    assert xt * k * u == xt * u * k;
    MulCancel(xt * u, r * n, k);
  }

  lemma ColdGrowth(r: nat, y: nat, s: nat, xt: nat, n: nat, k: nat)
    requires r * y >= xt * k && s * y == n * k && k > 0
    ensures s * xt <= r * n
  {
    MulMono(xt * k, r * y, s, s);
    assert r * y * s == r * n * k;
    assert xt * k * s == s * xt * k;
    MulCancel(s * xt, r * n, k);
  }

  // ----- Price -----

  /** The exact value of a quote is base * d * x^t over 10^4 * (10^4)^t; a price is at most that. */
  ghost predicate AtMostExact(price: nat, base: nat, d: nat, x: nat, t: nat) {
    price * 10_000 * Pow(10_000, t) <= base * d * Pow(x, t)
  }

  /** A price is below the exact value by less than two, beside what t - 1 truncated products lose: a fraction of (t - 1) / 10^9
      when growing, (t - 1) / 10^9 of the discounted base when shrinking. */
  ghost predicate NearlyExact(price: nat, base: nat, d: nat, x: nat, t: nat) {
    && (t == 0 ==> base * d < (price + 1) * 10_000)
    && (t > 0 && x >= 10_000 ==> base * d * Pow(x, t) * (1_000_000_000 - (t - 1)) < 1_000_000_000 * 10_000 * (price + 2) * Pow(10_000, t))
    && (t > 0 && x <= 10_000 ==>
          base * d * 1_000_000_000 * Pow(x, t) < (1_000_000_000 * 10_000 * (price + 2) + base * d * (t - 1)) * Pow(10_000, t))
  }

  /** From growth to the grown price. */
  ghost predicate Grown(p: nat, base: nat, r: nat) {
    (p == 1 || p * SCALE <= base * r) && base * r < (p + 1) * SCALE
  }

  /** From the grown price to the discounted one. */
  ghost predicate Cut(f: nat, p: nat, d: nat) {
    f >= 1 && (f == 1 || f * 10_000 <= p * d) && p * d < (f + 1) * 10_000
  }

  lemma UpperPrice(f: nat, p: nat, d: nat, base: nat, r: nat, xt: nat, n: nat)
    requires Cut(f, p, d) && Grown(p, base, r) && d <= 10_000 && f > 1
    requires r * n <= SCALE * xt
    ensures f * 10_000 * n <= base * d * xt
  {
    if p <= 1 { MulMono(p, 1, d, 10_000); assert false; }
    MulMono(f * 10_000, p * d, SCALE, SCALE);
    MulMono(p * SCALE, base * r, d, d);
    assert p * d * SCALE == p * SCALE * d;
    MulMono(f * 10_000 * SCALE, base * r * d, n, n);
    MulMono(r * n, SCALE * xt, base * d, base * d);
    assert base * r * d * n == r * n * (base * d);
    assert SCALE * xt * (base * d) == base * d * xt * SCALE;
    assert f * 10_000 * SCALE * n == f * 10_000 * n * SCALE;
    MulCancel(f * 10_000 * n, base * d * xt, SCALE);
  }

  lemma LowerPrice(f: nat, p: nat, d: nat, base: nat, r: nat)
    requires Cut(f, p, d) && Grown(p, base, r) && 0 < d <= 10_000
    ensures base * r * d < SCALE * 10_000 * (f + 2)
  {
    MulMono(base * r + 1, (p + 1) * SCALE, d, d);
    assert (base * r + 1) * d == base * r * d + d;
    assert (p + 1) * SCALE * d == (p * d + d) * SCALE;
    assert p * d + d <= (f + 2) * 10_000;
  }

  lemma HotPrice(f: nat, d: nat, base: nat, r: nat, xt: nat, n: nat, u: nat)
    requires base * r * d < SCALE * 10_000 * (f + 2) && xt * u <= r * n && n > 0
    ensures base * d * xt * u < SCALE * 10_000 * (f + 2) * n
  {
    MulMono(xt * u, r * n, base * d, base * d);
    assert base * d * (xt * u) == base * d * xt * u;
    assert base * d * (r * n) == base * r * d * n;
    MulMono(base * r * d + 1, SCALE * 10_000 * (f + 2), n, n);
    assert (base * r * d + 1) * n == base * r * d * n + n;
  }

  lemma ColdPrice(f: nat, d: nat, base: nat, r: nat, xt: nat, n: nat, e: nat)
    requires base * r * d < SCALE * 10_000 * (f + 2) && SCALE * xt <= (r + e) * n && n > 0
    ensures base * d * SCALE * xt < (SCALE * 10_000 * (f + 2) + base * d * e) * n
  {
    MulMono(SCALE * xt, (r + e) * n, base * d, base * d);
    assert base * d * (SCALE * xt) == base * d * SCALE * xt;
    assert base * d * ((r + e) * n) == (base * r * d + base * d * e) * n;
    MulMono(base * r * d + base * d * e + 1, SCALE * 10_000 * (f + 2) + base * d * e, n, n);
    assert (base * r * d + base * d * e + 1) * n == (base * r * d + base * d * e) * n + n;
  }

  /** What the loyalty discount leaves, in ten-thousandths: thirty less for every point above 70. */
  ghost function Kept(score: nat): (d: nat)
    requires score <= 100
    ensures 9_100 <= d <= 10_000
  {
    10_000 - 30 * (if score > 70 then score - 70 else 0)
  }

  ghost function BasePrice(initialPrice: u64): nat {
    if initialPrice == 0 then 1 else initialPrice
  }

  /** The factor the grown price comes from, truncated growth or none at all, and its bounds. */
  lemma GrownPrice(base: nat, velocity: int, t: nat) returns (r: nat)
    requires base >= 1 && -10_000 < velocity && t <= MAX_TIME_ELAPSED_SECS
    ensures Grown(ClientExpPrice(base, velocity, t), base, r)
    ensures t == 0 ==> ClientExpPrice(base, velocity, t) == base
    ensures var (x, n) := (10_000 + velocity, Pow(10_000, t));
            && r * n <= SCALE * Pow(x, t)
            && (t > 0 && x >= 10_000 ==> Pow(x, t) * (SCALE - (t - 1)) <= r * n)
            && (t > 0 && x <= 10_000 ==> SCALE * Pow(x, t) <= (r + t - 1) * n)
  {
    var n := Pow(10_000, t);
    if t == 0 || velocity == 0 {
      r := SCALE;
      if t > 0 {
        MulMono(n, n, SCALE - (t - 1), SCALE);
        MulMono(SCALE, SCALE + t - 1, n, n);
      }
    } else {
      var x := 10_000 + velocity;
      assert x * SCALE / 10_000 == x * 100_000;
      r := PowFp(x * 100_000, t);
      GrowthBounds(x, t);
    }
  }

  /** The discounted price, before the cap, against the exact value. */
  lemma DiscountedValue(base: nat, velocity: int, t: nat, score: nat)
    requires base >= 1 && -10_000 < velocity && t <= MAX_TIME_ELAPSED_SECS && score <= 100
    ensures var (f, d, x) := (Discounted(ClientExpPrice(base, velocity, t), score), Kept(score), 10_000 + velocity);
            f >= 1 && (f == 1 || AtMostExact(f, base, d, x, t)) && NearlyExact(f, base, d, x, t)
  {
    var p, d, x := ClientExpPrice(base, velocity, t), Kept(score), 10_000 + velocity;
    var f, n := Discounted(p, score), Pow(10_000, t);
    assert LoyaltyDiscountBps(score) == d;
    PowPositive(10_000, t);
    var r := GrownPrice(base, velocity, t);
    assert Cut(f, p, d);
    if f > 1 { UpperPrice(f, p, d, base, r, Pow(x, t), n); }
    LowerPrice(f, p, d, base, r);
    if t > 0 && x >= 10_000 { HotPrice(f, d, base, r, Pow(x, t), n, SCALE - (t - 1)); }
    if t > 0 && x <= 10_000 { ColdPrice(f, d, base, r, Pow(x, t), n, t - 1); }
  }

  /** What the web client shows: the exact value up to truncation, capped at 120 times the base price and blocked from 100. */
  lemma ClientPriceIsExactValue(i: QuoteInput)
    requires Valid(i)
    ensures ClientOf(i).Ok?
    ensures var (c, base, d, x) := (ClientOf(i).value, BasePrice(i.initialPrice), Kept(i.dignityScore), 10_000 + ClientOf(i).value.velocityBps);
            && x >= 1 && 1 <= c.finalPrice <= 120 * base
            && (c.finalPrice == 1 || AtMostExact(c.finalPrice, base, d, x, i.timeElapsed))
            && (c.finalPrice < 120 * base ==> NearlyExact(c.finalPrice, base, d, x, i.timeElapsed))
            && (c.blocked <==> c.finalPrice >= 100 * base)
            && c.surcharge == if c.finalPrice > base then c.finalPrice - base else 0
  {
    var base, d := BasePrice(i.initialPrice), Kept(i.dignityScore);
    var velocity := EffectiveVelocity(i.salesVelocityBps, i.dignityScore);
    EffectiveVelocityRange(i.salesVelocityBps, i.dignityScore);
    DiscountedValue(base, velocity, i.timeElapsed, i.dignityScore);
    var f := Discounted(ClientExpPrice(base, velocity, i.timeElapsed), i.dignityScore);
    if f > 120 * base { LessIsAtMost(120 * base, f, base, d, 10_000 + velocity, i.timeElapsed); }
  }

  lemma LessIsAtMost(price: nat, more: nat, base: nat, d: nat, x: nat, t: nat)
    requires price <= more && AtMostExact(more, base, d, x, t)
    ensures AtMostExact(price, base, d, x, t)
  {
    MulMono(price * 10_000, more * 10_000, Pow(10_000, t), Pow(10_000, t));
  }

  /** What the program charges: when finite, the exact value up to truncation, capped and blocked as the client shows it; when
      infinite, a value of at least 100 times the base price or beyond 64 bits. */
  lemma ChainPriceIsExactValue(i: QuoteInput)
    requires Valid(i)
    ensures ChainQuote(i).Ok?
    ensures var (q, base, d, x) := (ChainQuote(i).value, BasePrice(i.initialPrice), Kept(i.dignityScore), 10_000 + ChainQuote(i).value.velocityBps);
            && x >= 1
            && (!q.isInfinite ==>
                  && 1 <= q.finalPrice <= 120 * base
                  && (q.finalPrice == 1 || AtMostExact(q.finalPrice, base, d, x, i.timeElapsed))
                  && (q.finalPrice < 120 * base ==> NearlyExact(q.finalPrice, base, d, x, i.timeElapsed))
                  && (q.blocked <==> q.finalPrice >= 100 * base))
            && (q.isInfinite ==>
                  && q.blocked && q.finalPrice == 0xFFFF_FFFF_FFFF_FFFF
                  && AtMostExact(if 100 * base <= U64_MAX then 100 * base else U64_MAX + 1, base, d, x, i.timeElapsed))
  {
    var base, d := BasePrice(i.initialPrice), Kept(i.dignityScore);
    ClientPriceIsExactValue(i);
    ChainVersusClient(i);
    var c, q := ClientOf(i).value, ChainQuote(i).value;
    if q.isInfinite {
      LessIsAtMost(if 100 * base <= U64_MAX then 100 * base else U64_MAX + 1, c.finalPrice, base, d, 10_000 + c.velocityBps, i.timeElapsed);
    }
  }

  /** At time zero nothing is left to truncation but one division: the price is the base price less the discount. */
  lemma OpeningPrice(i: QuoteInput)
    requires Valid(i) && i.timeElapsed == 0
    ensures ChainQuote(i).Ok? && !ChainQuote(i).value.isInfinite && !ChainQuote(i).value.blocked
    ensures var (price, base, d) := (ChainQuote(i).value.finalPrice, BasePrice(i.initialPrice), Kept(i.dignityScore));
            price == if base * d < 10_000 then 1 else base * d / 10_000
  {
    ChainPriceIsExactValue(i);
    var (q, base, d, x) := (ChainQuote(i).value, BasePrice(i.initialPrice), Kept(i.dignityScore), 10_000 + ChainQuote(i).value.velocityBps);
    assert Pow(10_000, 0) == 1 && Pow(x, 0) == 1;
    MulMono(base, base, d, 10_000);
    if q.isInfinite { assert false; }
    if q.finalPrice != 1 { assert q.finalPrice * 10_000 <= base * d; }
  }
}
