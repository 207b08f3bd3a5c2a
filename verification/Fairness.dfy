/** Fairness end to end: more dignity never costs more, exactly when demand is not falling. */
module Fairness {
  import opened Outcomes
  import opened Powers
  import opened FixedPow
  import opened Widths
  import opened Quotes
  import opened Dignity

  lemma EffectiveVelocityAntitone(v: nat, low: int, high: int)
    requires 0 <= low <= high <= 100
    ensures EffectiveVelocity(v, high) <= EffectiveVelocity(v, low)
  {
    MulMono(100 - high, 100 - low, 100 - high, 100 - low);
    MulMono(v, v, (100 - high) * (100 - high), (100 - low) * (100 - low));
  }

  /** Cooler demand prices no higher, and stays finite where hotter demand is finite. */
  lemma ExpPriceMonotone(base: nat, cool: nat, hot: nat, time: nat)
    requires base >= 1 && cool <= hot
    ensures ChainExpPrice(base, hot, time).Some? ==> ChainExpPrice(base, cool, time).Some?
    ensures ChainExpPrice(base, hot, time).Some?
        ==> ChainExpPrice(base, cool, time).value <= ChainExpPrice(base, hot, time).value
  {
    if time > 0 && hot > 0 {
      PerStepGrowthRange(cool);
      PerStepGrowthRange(hot);
      var b, b' := PerStepGrowth(cool), PerStepGrowth(hot);
      PowFpMonotone(b, b', time);
      CheckedIsExactWhenFinite(SCALE, b, time);
      CheckedIsExactWhenFinite(SCALE, b', time);
      PowRelativeLoss(b', time);
      MulMono(base, base, PowFp(b, time), PowFp(b', time));
      MulMono(base, base, SCALE, PowFp(b', time));
      var p, p' := base * PowFp(b, time), base * PowFp(b', time);
      assert p / SCALE <= p' / SCALE && base <= p' / SCALE;
    }
  }

  lemma FinishMonotone(base: nat, p: nat, high: u8, velocity: int, p': nat, low: u8, velocity': int)
    requires base >= 1 && p <= p' && low <= high <= 100
    ensures var q, q' := ChainFinish(base, p, high, velocity), ChainFinish(base, p', low, velocity');
            q.finalPrice <= q'.finalPrice && (q.blocked ==> q'.blocked)
  {
    MulMono(p, p', LoyaltyDiscountBps(high), LoyaltyDiscountBps(low));
    var d, d' := p * LoyaltyDiscountBps(high), p' * LoyaltyDiscountBps(low);
    assert d / BPS_SCALE <= d' / BPS_SCALE;
  }

  /** At nonnegative velocity a higher score never raises the price and never blocks a buyer who was not blocked. */
  lemma HigherScoreNeverRaisesPrice(i: QuoteInput, score: u8)
    requires Valid(i) && i.salesVelocityBps >= 0 && i.dignityScore <= score <= 100
    ensures var q, q' := ChainQuote(i.(dignityScore := score)).value, ChainQuote(i).value;
            q.finalPrice <= q'.finalPrice && (q.blocked ==> q'.blocked)
  {
    var j := i.(dignityScore := score);
    var base := Max(i.initialPrice, 1);
    var hot := EffectiveVelocity(i.salesVelocityBps, i.dignityScore);
    var cool := EffectiveVelocity(i.salesVelocityBps, score);
    EffectiveVelocityRange(i.salesVelocityBps, i.dignityScore);
    EffectiveVelocityRange(i.salesVelocityBps, score);
    EffectiveVelocityAntitone(i.salesVelocityBps, i.dignityScore, score);
    ExpPriceMonotone(base, cool, hot, i.timeElapsed);
    ChainVersusClient(j);
    if ChainExpPrice(base, hot, i.timeElapsed).Some? {
      FinishMonotone(base, ChainExpPrice(base, cool, i.timeElapsed).value, score, cool,
                     ChainExpPrice(base, hot, i.timeElapsed).value, i.dignityScore, hot);
    }
  }

  lemma OneStepQuote(v: i64, score: u8)
    requires -BPS_SCALE < v < 0 && score <= 1
    ensures ChainQuote(QuoteInput(10_000, v, 1, score)).Ok?
    ensures ChainQuote(QuoteInput(10_000, v, 1, score)).value.finalPrice == BPS_SCALE + EffectiveVelocity(v, score)
  {
    var velocity := EffectiveVelocity(v, score);
    EffectiveVelocityRange(v, score);
    if velocity < 0 {
      var b := PerStepGrowth(velocity);
      PerStepGrowthRange(velocity);
      SmallBaseNeverOverflows(b, 1);
      assert PowFp(b, 1) == MulFp(SCALE, b);
      MulFpUnit(b);
    }
    assert ChainExpPrice(10_000, velocity, 1) == Some(BPS_SCALE + velocity);
  }

  /** At any negative velocity some buyer pays more for a higher score: scoring dampens the price decay. */
  lemma ColdPriceRises(v: i64) returns (i: QuoteInput)
    requires -BPS_SCALE < v < 0
    ensures Valid(i) && i.salesVelocityBps == v && i.dignityScore == 0
    ensures ChainQuote(i).value.finalPrice < ChainQuote(i.(dignityScore := 1)).value.finalPrice
  {
    i := QuoteInput(10_000, v, 1, 0);
    OneStepQuote(v, 0);
    OneStepQuote(v, 1);
    assert EffectiveVelocity(v, 0) == v < EffectiveVelocity(v, 1);
  }

  /** The fairness promise holds for a sales velocity if and only if that velocity is not negative. */
  lemma FairExactlyWhenNotCooling(v: i64)
    requires v > -BPS_SCALE
    ensures v >= 0 <==>
              forall i: QuoteInput, score: u8 |
                Valid(i) && i.salesVelocityBps == v && i.dignityScore <= score <= 100 ::
                ChainQuote(i.(dignityScore := score)).value.finalPrice <= ChainQuote(i).value.finalPrice
  {
    if v >= 0 {
      forall i: QuoteInput, score: u8 | Valid(i) && i.salesVelocityBps == v && i.dignityScore <= score <= 100
        ensures ChainQuote(i.(dignityScore := score)).value.finalPrice <= ChainQuote(i).value.finalPrice
      {
        HigherScoreNeverRaisesPrice(i, score);
      }
    } else {
      var i := ColdPriceRises(v);
      assert ChainQuote(i.(dignityScore := 1)).value.finalPrice > ChainQuote(i).value.finalPrice;
    }
  }

  /** From evidence to price: extra attestations, in any order and in any mode, never raise the price of a
      ticket whose demand is not falling, and never block its buyer. */
  lemma MoreAttestationsNeverRaisePrice(i: QuoteInput, mode: UserMode, few: seq<Attestation>, more: seq<Attestation>)
    requires i.salesVelocityBps >= 0 && i.timeElapsed <= MAX_TIME_ELAPSED_SECS
    requires forall a :: a in few ==> a in more
    ensures var q := ChainQuote(i.(dignityScore := ScoreInMode(few, mode)));
            var q' := ChainQuote(i.(dignityScore := ScoreInMode(more, mode)));
            q.Ok? && q'.Ok? && q'.value.finalPrice <= q.value.finalPrice && (q'.value.blocked ==> q.value.blocked)
  {
    ScoreMonotone(few, more, mode);
    var s, s' := ScoreInMode(few, mode), ScoreInMode(more, mode);
    assert i.(dignityScore := s).(dignityScore := s') == i.(dignityScore := s');
    HigherScoreNeverRaisesPrice(i.(dignityScore := s), s');
  }
}
