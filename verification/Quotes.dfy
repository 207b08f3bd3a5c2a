/** The VRGDA quote, written three times: on chain with checked 128-bit arithmetic, in the SDK with emulated
    checks, and in the web client on unbounded integers. This module proves when the three decide alike. */
module Quotes {
  import opened Outcomes
  import opened Powers
  import opened FixedPow
  import opened Widths

  const BPS_SCALE: int := 10_000
  const LOYALTY_THRESHOLD: int := 70
  const LOYALTY_POINT_DISCOUNT_BPS: int := 30
  const BLOCK_MULTIPLIER: nat := 100
  const BOT_PRICE_CAP_MULTIPLIER: nat := 120
  const MAX_TIME_ELAPSED_SECS: nat := 30 * 24 * 60 * 60

  datatype QuoteInput = QuoteInput(initialPrice: u64, salesVelocityBps: i64, timeElapsed: u64, dignityScore: u8)

  datatype Quote = Quote(finalPrice: u64, isInfinite: bool, blocked: bool, velocityBps: int)

  datatype QuoteError = InvalidDignityScore | InvalidSalesVelocity | InvalidTimeElapsed

  function Max(a: int, b: int): int {
    if a < b then b else a
  }

  function Min(a: int, b: int): int {
    if a < b then a else b
  }

  /** Division truncating toward zero, as Rust and BigInt divide. */
  function TruncDiv(a: int, d: int): int
    requires d > 0
  {
    if a >= 0 then a / d else -((-a) / d)
  }

  function EffectiveVelocity(velocityBps: int, score: int): int {
    TruncDiv(velocityBps * ((100 - score) * (100 - score)), BPS_SCALE)
  }

  function LoyaltyDiscountBps(score: int): int {
    BPS_SCALE - Max(0, score - LOYALTY_THRESHOLD) * LOYALTY_POINT_DISCOUNT_BPS
  }

  function CheckedMul(a: nat, b: nat): Option<nat> {
    if a * b > U128_MAX then None else Some(a * b)
  }

  // ----- On chain -----

  function InfinityQuote(velocityBps: int): Quote {
    Quote(U64_MAX, true, true, velocityBps)
  }

  function ChainExpPrice(base: nat, velocityBps: int, time: nat): Option<nat> {
    if time == 0 || velocityBps == 0 then Some(Max(base, 1))
    else if BPS_SCALE + velocityBps <= 0 then Some(1)
    else
      match CheckedMul(BPS_SCALE + velocityBps, SCALE)
      case None => None
      case Some(scaled) =>
        match CheckedPowFp(scaled / BPS_SCALE, time)
        case None => None
        case Some(growth) =>
          match CheckedMul(Max(base, 1), growth)
          case None => None
          case Some(p) => Some(Max(p / SCALE, 1))
  }

  function ChainFinish(base: nat, expPrice: nat, score: u8, velocityBps: int): Quote
    requires score <= 100
  {
    match CheckedMul(expPrice, LoyaltyDiscountBps(score))
    case None => InfinityQuote(velocityBps)
    case Some(p) =>
      var capped := Min(Max(p / BPS_SCALE, 1), base * BOT_PRICE_CAP_MULTIPLIER);
      if capped > U64_MAX then InfinityQuote(velocityBps)
      else
        var final := Max(capped, 1);
        Quote(final, false, final >= base * BLOCK_MULTIPLIER, velocityBps)
  }

  function ChainQuote(i: QuoteInput): Result<Quote, QuoteError> {
    if i.dignityScore > 100 then Err(InvalidDignityScore)
    else if i.salesVelocityBps <= -BPS_SCALE then Err(InvalidSalesVelocity)
    else if i.timeElapsed > MAX_TIME_ELAPSED_SECS then Err(InvalidTimeElapsed)
    else
      var base := Max(i.initialPrice, 1);
      var velocity := EffectiveVelocity(i.salesVelocityBps, i.dignityScore);
      if !(I64_MIN <= velocity <= I64_MAX) then Ok(InfinityQuote(i.salesVelocityBps))
      else
        match ChainExpPrice(base, velocity, i.timeElapsed)
        case None => Ok(InfinityQuote(velocity))
        case Some(expPrice) => Ok(ChainFinish(base, expPrice, i.dignityScore, velocity))
  }

  // ----- Web client -----

  datatype ClientQuote = ClientQuote(finalPrice: int, surcharge: int, blocked: bool, isInfinite: bool, velocityBps: int)

  function ClientExpPrice(base: nat, velocityBps: int, time: nat): nat {
    if time == 0 || velocityBps == 0 then Max(base, 1)
    else if BPS_SCALE + velocityBps <= 0 then 1
    else Max(base * PowFp((BPS_SCALE + velocityBps) * SCALE / BPS_SCALE, time) / SCALE, 1)
  }

  /** The price after the loyalty discount and before the cap, on unbounded integers. */
  function Discounted(expPrice: nat, score: int): nat
    requires 0 <= score <= 100
  {
    Max(expPrice * LoyaltyDiscountBps(score) / BPS_SCALE, 1)
  }

  function ClientShieldQuote(initialPrice: int, salesVelocityBps: int, time: int, score: int)
    : Result<ClientQuote, QuoteError>
  {
    if score < 0 || score > 100 then Err(InvalidDignityScore)
    else if salesVelocityBps <= -BPS_SCALE then Err(InvalidSalesVelocity)
    else if time < 0 || time > MAX_TIME_ELAPSED_SECS then Err(InvalidTimeElapsed)
    else
      var base := Max(initialPrice, 1);
      var velocity := EffectiveVelocity(salesVelocityBps, score);
      var discounted := Discounted(ClientExpPrice(base, velocity, time), score);
      var capped := if discounted > base * BOT_PRICE_CAP_MULTIPLIER then base * BOT_PRICE_CAP_MULTIPLIER else discounted;
      Ok(ClientQuote(capped, if capped > base then capped - base else 0, capped >= base * BLOCK_MULTIPLIER, false, velocity))
  }

  function ClientOf(i: QuoteInput): Result<ClientQuote, QuoteError> {
    ClientShieldQuote(i.initialPrice, i.salesVelocityBps, i.timeElapsed, i.dignityScore)
  }

  // ----- SDK -----

  /** Unlike the chain, the SDK has no limit on the elapsed time and tests the 64-bit range before the cap. */
  function SdkQuote(i: QuoteInput): Result<Quote, QuoteError> {
    if i.dignityScore > 100 then Err(InvalidDignityScore)
    else if i.salesVelocityBps <= -BPS_SCALE then Err(InvalidSalesVelocity)
    else
      var base := Max(i.initialPrice, 1);
      var velocity := EffectiveVelocity(i.salesVelocityBps, i.dignityScore);
      match SdkExpPrice(base, velocity, i.timeElapsed)
      case None => Ok(InfinityQuote(velocity))
      case Some(expPrice) =>
        match CheckedMul(expPrice, LoyaltyDiscountBps(i.dignityScore))
        case None => Ok(InfinityQuote(velocity))
        case Some(p) =>
          if p / BPS_SCALE > U64_MAX then Ok(InfinityQuote(velocity))
          else
            var final := Min(Max(p / BPS_SCALE, 1), base * BOT_PRICE_CAP_MULTIPLIER);
            Ok(Quote(final, false, final >= base * BLOCK_MULTIPLIER, velocity))
  }

  function SdkExpPrice(base: nat, velocityBps: int, time: nat): Option<nat> {
    if time > 0 && velocityBps != 0 then
      if BPS_SCALE + velocityBps <= 0 then Some(1)
      else
        match CheckedMul(BPS_SCALE + velocityBps, SCALE)
        case None => None
        case Some(scaled) =>
          match CheckedPowFp(scaled / BPS_SCALE, time)
          case None => None
          case Some(growth) =>
            match CheckedMul(base, growth)
            case None => None
            case Some(p) => Some(Max(p / SCALE, 1))
    else Some(base)
  }

  // ----- Ranges: which branches can be taken -----

  ghost predicate Valid(i: QuoteInput) {
    i.dignityScore <= 100 && i.salesVelocityBps > -BPS_SCALE && i.timeElapsed <= MAX_TIME_ELAPSED_SECS
  }

  /** Weighting a velocity by a score never enlarges it and never changes its sign. */
  lemma EffectiveVelocityRange(v: int, score: int)
    requires 0 <= score <= 100
    ensures v >= 0 ==> 0 <= EffectiveVelocity(v, score) <= v
    ensures v <= 0 ==> v <= EffectiveVelocity(v, score) <= 0
  {
    var w := (100 - score) * (100 - score);
    MulMono(100 - score, 100, 100 - score, 100);
    MulMono(0, 100 - score, 0, 100 - score);
    WeightedRange(v, w);
  }

  lemma WeightedRange(v: int, w: nat)
    requires w <= BPS_SCALE
    ensures v >= 0 ==> 0 <= TruncDiv(v * w, BPS_SCALE) <= v
    ensures v <= 0 ==> v <= TruncDiv(v * w, BPS_SCALE) <= 0
  {
    if v >= 0 {
      MulMono(v, v, w, BPS_SCALE);
      MulMono(0, v, w, w);
    } else {
      assert v * w == -((-v) * w);
      MulMono(-v, -v, w, BPS_SCALE);
      MulMono(0, -v, w, w);
    }
  }

  function PerStepGrowth(velocityBps: int): nat
    requires velocityBps > -BPS_SCALE
  {
    (BPS_SCALE + velocityBps) * SCALE / BPS_SCALE
  }

  lemma PerStepGrowthRange(velocityBps: int)
    requires velocityBps > -BPS_SCALE
    ensures PerStepGrowth(velocityBps) == (BPS_SCALE + velocityBps) * 100_000
    ensures velocityBps >= 0 <==> PerStepGrowth(velocityBps) >= SCALE
  {
  }

  /** A power the checked loop calls infinite is above 200 even as the unbounded loop truncates it. */
  lemma InfinitePowIsLarge(b: nat, t: nat)
    requires b >= SCALE && 1 <= t <= MAX_TIME_ELAPSED_SECS && CheckedPowFp(b, t).None?
    ensures PowFp(b, t) >= 200 * SCALE
  {
    InfiniteIsNeverSpurious(b, t);
    PowLossBound(b, t);
    PowPositive(SCALE, t);
    LargeFromBounds(PowFp(b, t), Pow(SCALE, t), Pow(b, t), SCALE - (t - 1), SCALE * SCALE, U128_MAX);
  }

  lemma LargeFromBounds(g: nat, a: nat, x: nat, u: nat, s: nat, limit: nat)
    requires a > 0 && u > 0
    requires x * s > limit * a && g * a >= x * u
    ensures g * s >= limit * u
  {
    MulMono(limit * a, x * s, u, u);
    MulMono(x * u, g * a, s, s);
    assert limit * a * u == limit * u * a;
    assert x * s * u == x * u * s;
    assert g * a * s == g * s * a;
    MulCancel(limit * u, g * s, a);
  }

  /** A growth factor of 200 outlasts the largest loyalty discount and still reaches the price cap. */
  lemma LargeGrowthReachesCap(base: nat, growth: nat, score: int)
    requires base >= 1 && growth >= 200 * SCALE && 0 <= score <= 100
    ensures Discounted(Max(base * growth / SCALE, 1), score) >= base * BOT_PRICE_CAP_MULTIPLIER
  {
    MulMono(200 * SCALE, growth, base, base);
    var p := Max(base * growth / SCALE, 1);
    assert p >= 200 * base;
    MulMono(200 * base, p, 9_100, LoyaltyDiscountBps(score));
  }

  /** The checked price is the unbounded price whenever it exists, and then no later product overflows;
      when it does not exist, the unbounded price is at the cap. */
  lemma ChainExpVersusClient(base: nat, velocity: int, time: nat, score: int)
    requires 1 <= base <= U64_MAX && -BPS_SCALE < velocity <= I64_MAX && time <= MAX_TIME_ELAPSED_SECS
    requires 0 <= score <= 100
    ensures ChainExpPrice(base, velocity, time) == SdkExpPrice(base, velocity, time)
    ensures match ChainExpPrice(base, velocity, time)
            case Some(p) => p == ClientExpPrice(base, velocity, time) && p * BPS_SCALE <= U128_MAX
            case None =>
              Discounted(ClientExpPrice(base, velocity, time), score) >= base * BOT_PRICE_CAP_MULTIPLIER
  {
    if time > 0 && velocity != 0 {
      var b := PerStepGrowth(velocity);
      PerStepGrowthRange(velocity);
      CheckedIsExactWhenFinite(SCALE, b, time);
      if b < SCALE {
        SmallBaseNeverOverflows(b, time);
        PowAbsoluteLoss(b, time);
        MulMono(base, U64_MAX, PowFp(b, time), SCALE);
      } else if CheckedPowFp(b, time).None? {
        InfinitePowIsLarge(b, time);
        LargeGrowthReachesCap(base, PowFp(b, time), score);
      } else if base * PowFp(b, time) > U128_MAX {
        if PowFp(b, time) < 200 * SCALE { MulMono(base, U64_MAX, PowFp(b, time), 200 * SCALE); }
        LargeGrowthReachesCap(base, PowFp(b, time), score);
      }
    }
  }

  /** The defensive branches of the chain quote are dead: the velocity fits, growth is positive, and neither the
      growth rate nor the discount product overflows. */
  lemma DefensiveBranchesUnreachable(i: QuoteInput)
    requires Valid(i)
    ensures var velocity := EffectiveVelocity(i.salesVelocityBps, i.dignityScore);
            && I64_MIN <= velocity <= I64_MAX
            && BPS_SCALE + velocity > 0
            && (BPS_SCALE + velocity) * SCALE <= U128_MAX
            && match ChainExpPrice(Max(i.initialPrice, 1), velocity, i.timeElapsed)
               case Some(p) => p * LoyaltyDiscountBps(i.dignityScore) <= U128_MAX
               case None => velocity > 0
  {
    var velocity := EffectiveVelocity(i.salesVelocityBps, i.dignityScore);
    EffectiveVelocityRange(i.salesVelocityBps, i.dignityScore);
    ChainExpVersusClient(Max(i.initialPrice, 1), velocity, i.timeElapsed, i.dignityScore);
    match ChainExpPrice(Max(i.initialPrice, 1), velocity, i.timeElapsed) {
      case Some(p) => MulMono(p, p, LoyaltyDiscountBps(i.dignityScore), BPS_SCALE);
      case None =>
        if velocity < 0 { NonpositiveHeatIsFinite(Max(i.initialPrice, 1), velocity, i.timeElapsed); }
    }
  }

  lemma NonpositiveHeatIsFinite(base: nat, velocity: int, time: nat)
    requires 1 <= base <= U64_MAX && -BPS_SCALE < velocity <= 0
    ensures ChainExpPrice(base, velocity, time).Some?
    ensures 1 <= ChainExpPrice(base, velocity, time).value <= base
  {
    if time > 0 && velocity != 0 {
      var b := PerStepGrowth(velocity);
      PerStepGrowthRange(velocity);
      SmallBaseNeverOverflows(b, time);
      PowAbsoluteLoss(b, time);
      MulMono(base, base, PowFp(b, time), SCALE);
      MulMono(base, U64_MAX, PowFp(b, time), SCALE);
    }
  }

  /** Demand that is flat or falling never makes a quote infinite or blocked, and never raises it above the base price. */
  lemma CoolingQuoteIsFinite(i: QuoteInput)
    requires Valid(i) && i.salesVelocityBps <= 0
    ensures ChainQuote(i).Ok?
    ensures var q := ChainQuote(i).value;
            !q.isInfinite && !q.blocked && 1 <= q.finalPrice <= Max(i.initialPrice, 1)
  {
    var base, velocity := Max(i.initialPrice, 1), EffectiveVelocity(i.salesVelocityBps, i.dignityScore);
    EffectiveVelocityRange(i.salesVelocityBps, i.dignityScore);
    NonpositiveHeatIsFinite(base, velocity, i.timeElapsed);
    ChainVersusClient(i);
    var p := ChainExpPrice(base, velocity, i.timeElapsed).value;
    MulMono(p, base, LoyaltyDiscountBps(i.dignityScore), BPS_SCALE);
  }

  // ----- Chain and client -----

  /** Chain and client accept the same inputs and reject the others for the same reason. */
  lemma ChainAndClientRejectAlike(i: QuoteInput)
    ensures ChainQuote(i).Err? <==> !Valid(i)
    ensures ChainQuote(i).Err? ==> ClientOf(i).Err? && ClientOf(i).error == ChainQuote(i).error
    ensures ClientOf(i).Err? ==> ChainQuote(i).Err?
  {
  }

  /** The chain quote in terms of the client's: identical when finite, and blocked exactly when the client is
      blocked or its price leaves 64 bits. */
  lemma ChainVersusClient(i: QuoteInput)
    requires Valid(i)
    ensures ChainQuote(i).Ok? && ClientOf(i).Ok?
    ensures var q, c := ChainQuote(i).value, ClientOf(i).value;
            && q.velocityBps == c.velocityBps
            && (!q.isInfinite ==>
                  && q.finalPrice == c.finalPrice
                  && q.blocked == c.blocked
                  && c.surcharge == Max(0, q.finalPrice - Max(i.initialPrice, 1)))
            && (q.isInfinite ==> q.blocked && q.finalPrice == U64_MAX)
            && (q.blocked <==> c.blocked || c.finalPrice > U64_MAX)
  {
    var base := Max(i.initialPrice, 1);
    var velocity := EffectiveVelocity(i.salesVelocityBps, i.dignityScore);
    EffectiveVelocityRange(i.salesVelocityBps, i.dignityScore);
    ChainExpVersusClient(base, velocity, i.timeElapsed, i.dignityScore);
    match ChainExpPrice(base, velocity, i.timeElapsed) {
      case Some(p) => MulMono(p, p, LoyaltyDiscountBps(i.dignityScore), BPS_SCALE);
      case None =>
    }
  }

  /** Client and chain take the same decision on every ticket whose blocking threshold fits 64 bits. */
  lemma ClientAndChainDecideAlike(i: QuoteInput)
    requires Valid(i) && 100 * Max(i.initialPrice, 1) <= U64_MAX + 1
    ensures ChainQuote(i).value.blocked == ClientOf(i).value.blocked
  {
    ChainVersusClient(i);
  }

  /** Without that hypothesis they can differ, and the condition for it is exact: the client shows an unblocked
      price that the chain cannot represent. */
  lemma WhenClientAndChainDiffer(i: QuoteInput)
    requires Valid(i)
    ensures ChainQuote(i).value.blocked != ClientOf(i).value.blocked
       <==> U64_MAX < ClientOf(i).value.finalPrice < 100 * Max(i.initialPrice, 1)
  {
    ChainVersusClient(i);
  }

  /** The hypothesis is needed: every base from 2^64 / 99.9999 upward has a valid input on which they differ. */
  lemma ThresholdHypothesisNeeded(base: u64) returns (i: QuoteInput)
    requires 999_999 * base >= 10_000 * (U64_MAX + 1)
    ensures Valid(i) && i.initialPrice == base
    ensures ChainQuote(i).value.blocked && !ClientOf(i).value.blocked
  {
    i := QuoteInput(base, 989_999, 1, 0);
    var growth := 99_999_900_000;
    assert PowFp(growth, 1) == growth by {
      assert PowLoop(SCALE, growth, 1) == MulFp(SCALE, growth);
      MulFpUnit(growth);
    }
    assert EffectiveVelocity(989_999, 0) == 989_999;
    assert ClientOf(i).value.finalPrice == base * growth / SCALE;
    ChainVersusClient(i);
  }

  // ----- SDK and chain -----

  /** Wherever the chain accepts, the SDK blocks exactly the same tickets, and a finite SDK quote is the chain's.
      They differ only where the SDK tests 64 bits before the cap and the chain after it. */
  lemma SdkVersusChain(i: QuoteInput)
    requires Valid(i)
    ensures SdkQuote(i).Ok? && ChainQuote(i).Ok?
    ensures var s, q := SdkQuote(i).value, ChainQuote(i).value;
            && s.velocityBps == q.velocityBps
            && s.blocked == q.blocked
            && (!s.isInfinite ==> s == q)
            && (s != q <==> s.isInfinite && !q.isInfinite)
            && (s != q ==> q.finalPrice == 120 * Max(i.initialPrice, 1))
  {
    var base := Max(i.initialPrice, 1);
    var velocity := EffectiveVelocity(i.salesVelocityBps, i.dignityScore);
    EffectiveVelocityRange(i.salesVelocityBps, i.dignityScore);
    ChainExpVersusClient(base, velocity, i.timeElapsed, i.dignityScore);
    match ChainExpPrice(base, velocity, i.timeElapsed) {
      case Some(p) => MulMono(p, p, LoyaltyDiscountBps(i.dignityScore), BPS_SCALE);
      case None =>
    }
  }

  /** When the two quotes differ, in terms the caller can compute: the uncapped price leaves 64 bits, the cap
      does not, and the uncapped price itself did not overflow. */
  lemma WhenSdkAndChainDiffer(i: QuoteInput)
    requires Valid(i)
    ensures SdkQuote(i) != ChainQuote(i) <==>
              (var base := Max(i.initialPrice, 1);
               var expPrice := SdkExpPrice(base, EffectiveVelocity(i.salesVelocityBps, i.dignityScore), i.timeElapsed);
               && expPrice.Some?
               && Discounted(expPrice.value, i.dignityScore) > U64_MAX
               && 120 * base <= U64_MAX)
  {
    var base := Max(i.initialPrice, 1);
    var velocity := EffectiveVelocity(i.salesVelocityBps, i.dignityScore);
    EffectiveVelocityRange(i.salesVelocityBps, i.dignityScore);
    ChainExpVersusClient(base, velocity, i.timeElapsed, i.dignityScore);
    match ChainExpPrice(base, velocity, i.timeElapsed) {
      case Some(p) => MulMono(p, p, LoyaltyDiscountBps(i.dignityScore), BPS_SCALE);
      case None =>
    }
  }

  lemma DivideExactly(x: nat)
    ensures x * SCALE / SCALE == x
  {
  }

  /** One step of growth by a whole factor. */
  lemma OneStepPrice(base: nat, factor: nat)
    requires base >= 1 && 2 <= factor <= U64_MAX && base * factor <= 4 * U64_MAX
    ensures SdkExpPrice(base, 10_000 * (factor - 1), 1) == Some(base * factor)
  {
    var growth := factor * SCALE;
    assert base * growth == base * factor * SCALE;
    assert PerStepGrowth(10_000 * (factor - 1)) == growth by { PerStepGrowthRange(10_000 * (factor - 1)); }
    MulFpUnit(growth);
    assert CheckedPowFp(growth, 1) == Some(growth);
    DivideExactly(base * factor);
  }

  /** Two steps of growth by 2^33. */
  lemma TwoStepPrice(base: nat)
    requires 1 <= base <= 100_000
    ensures SdkExpPrice(base, 10_000 * (0x2_0000_0000 - 1), 2) == Some(base * 0x4_0000_0000_0000_0000)
  {
    var b := 0x2_0000_0000 * SCALE;
    var square := 0x4_0000_0000_0000_0000 * SCALE;
    assert MulFp(b, b) == square && b * b <= U128_MAX;
    MulFpUnit(square);
    assert CheckedLoop(SCALE, square, 1) == Some(square);
    assert CheckedPowFp(b, 2) == Some(square);
    assert base * square == base * 0x4_0000_0000_0000_0000 * SCALE;
    DivideExactly(base * 0x4_0000_0000_0000_0000);
  }

  /** For every base price whose cap fits 64 bits there is an input on which SDK and chain quote differently. */
  lemma SdkAndChainDifferAt(price: u64) returns (i: QuoteInput)
    requires 120 * Max(price, 1) <= U64_MAX
    ensures Valid(i) && i.initialPrice == price && SdkQuote(i) != ChainQuote(i)
  {
    var base := Max(price, 1);
    if base <= 100_000 {
      i := QuoteInput(price, 10_000 * (0x2_0000_0000 - 1), 2, 0);
      TwoStepPrice(base);
    } else {
      var factor := U64_MAX / base + 1;
      FactorFacts(base, factor);
      i := QuoteInput(price, 10_000 * (factor - 1), 1, 0);
      OneStepPrice(base, factor);
    }
    assert EffectiveVelocity(i.salesVelocityBps, 0) == i.salesVelocityBps;
    WhenSdkAndChainDiffer(i);
  }

  lemma FactorFacts(base: nat, factor: nat)
    requires base > 100_000 && 120 * base <= U64_MAX && factor == U64_MAX / base + 1
    ensures 120 <= factor <= 200_000_000_000_000 && U64_MAX < base * factor <= 2 * U64_MAX
  {
    var q := U64_MAX / base;
    assert U64_MAX == q * base + U64_MAX % base;
    assert base * factor == q * base + base;
    if q < 119 { MulMono(q, 118, base, base); }
    if q >= 200_000_000_000_000 { MulMono(200_000_000_000_000, q, 100_000, base); }
  }

  /** The base prices at which the two can differ at all. */
  lemma SdkAndChainCanDiffer(price: u64)
    ensures (exists i: QuoteInput :: Valid(i) && i.initialPrice == price && SdkQuote(i) != ChainQuote(i))
            <==> 120 * Max(price, 1) <= U64_MAX
  {
    if 120 * Max(price, 1) <= U64_MAX { var i := SdkAndChainDifferAt(price); }
    if i: QuoteInput :| Valid(i) && i.initialPrice == price && SdkQuote(i) != ChainQuote(i) { WhenSdkAndChainDiffer(i); }
  }

  /** The SDK never rejects what the chain accepts; it accepts more exactly where the elapsed time is too long. */
  lemma SdkAcceptsMore(i: QuoteInput)
    ensures SdkQuote(i).Err? ==> SdkQuote(i) == ChainQuote(i)
    ensures SdkQuote(i).Ok? && ChainQuote(i).Err?
       <==> i.dignityScore <= 100 && i.salesVelocityBps > -BPS_SCALE && i.timeElapsed > MAX_TIME_ELAPSED_SECS
  {
  }
}
