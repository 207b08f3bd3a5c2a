/** The final score of an open-world session, and the bounded adjustment a language model may make to it. Weighted
    averages are computed exactly, in hundredths or tenths, where the engine uses binary floating point. */
module OpenWorldScores {
  import opened Outcomes
  import opened OpenWorld
  import opened Powers

  datatype Grade = S | A | B | C | D

  datatype Score = Score(truth: int, purity: int, relation: int, humanity: int, composite: int, grade: Grade)

  datatype Delta = Delta(truth: int, purity: int, relation: int, humanity: int)

  function GradeOf(composite: int): Grade {
    if composite >= 88 then S else if composite >= 78 then A else if composite >= 66 then B else if composite >= 52 then C else D
  }

  function Rank(g: Grade): int {
    match g
    case S => 5
    case A => 4
    case B => 3
    case C => 2
    case D => 1
  }

  function GradeDistance(a: Grade, b: Grade): nat {
    if Rank(a) >= Rank(b) then Rank(a) - Rank(b) else Rank(b) - Rank(a)
  }

  /** Math.round of the weighted sum. */
  function Composite(truth: int, purity: int, relation: int, humanity: int): int {
    Clamp((35 * truth + 25 * purity + 20 * relation + 20 * humanity + 50) / 100, 0, 100)
  }

  function Scored(truth: int, purity: int, relation: int, humanity: int): Score {
    var composite := Composite(truth, purity, relation, humanity);
    Score(truth, purity, relation, humanity, composite, GradeOf(composite))
  }

  function RelationToScore(value: int): int {
    Clamp((200 * (value + 3) + 6) / 12, 0, 100)
  }

  function TruthScore(p: Player, e: Evidence): (r: int)
    ensures 0 <= r <= 100
  {
    var t0 := Clamp(Round(p.truth), 0, 100);
    var t1 := if e.usedClueAny then t0 else Clamp(t0 - 12, 0, 100);
    var t2 := if Get(e.usedClueByNpc, NPCS[0], 0) > 0 || Get(e.usedClueByNpc, NPCS[1], 0) > 0 then t1 else Clamp(t1 - 16, 0, 100);
    if e.resolutionConfirmed then t2 else Clamp(t2 - 20, 0, 100)
  }

  function RelationScore(p: Player, heat: int): (r: int)
    ensures 0 <= r <= 100
  {
    var core := RelationToScore(Get(p.relations, NPCS[0], 0)) + RelationToScore(Get(p.relations, NPCS[1], 0));
    var others := RelationToScore(Get(p.relations, NPCS[2], 0)) + RelationToScore(Get(p.relations, NPCS[3], 0));
    var relation := Clamp((8 * core + 2 * others + 10) / 20, 0, 100);
    if heat >= 85 then Clamp(relation - 10, 0, 100) else relation
  }

  function HumanityScore(p: Player, t: Tallies, heat: int): (r: int)
    ensures 0 <= r <= 100
  {
    var tenths := 560 + 60 * t.allies + 30 * t.rests - 110 * t.lies
                  - (if heat > 65 then 6 * (heat - 65) else 0) - (if p.pollution > 4 then 30 * (p.pollution - 4) else 0);
    var humanity := Clamp((tenths + 5) / 10, 0, 100);
    if heat >= 85 then Clamp(humanity - 8, 0, 100) else humanity
  }

  function ComputeScore(s: Session): Score {
    Scored(TruthScore(s.player, s.evidence), Clamp(100 - Clamp(s.player.pollution * 11, 0, 100), 0, 100),
           RelationScore(s.player, s.world.heat), HumanityScore(s.player, s.tallies, s.world.heat))
  }

  ghost predicate IsScore(s: Score) {
    && 0 <= s.truth <= 100 && 0 <= s.purity <= 100 && 0 <= s.relation <= 100 && 0 <= s.humanity <= 100
    && s == Scored(s.truth, s.purity, s.relation, s.humanity)
  }

  lemma ComputedIsScore(s: Session)
    ensures IsScore(ComputeScore(s))
  {
  }

  // ----- The adjustment -----

  function Shifted(raw: Score, d: Delta): Score {
    Scored(Clamp(raw.truth + d.truth, 0, 100), Clamp(raw.purity + d.purity, 0, 100),
           Clamp(raw.relation + d.relation, 0, 100), Clamp(raw.humanity + d.humanity, 0, 100))
  }

  /** The adjusted score, or the raw one when the grade would move by more than one step. */
  function Adjusted(raw: Score, d: Delta): Score {
    var shifted := Shifted(raw, d);
    if GradeDistance(shifted.grade, raw.grade) > 1 then raw else shifted
  }

  function Abs(x: int): nat {
    if x < 0 then -x else x
  }

  ghost predicate AtMost(d: Delta, bound: nat) {
    Abs(d.truth) <= bound && Abs(d.purity) <= bound && Abs(d.relation) <= bound && Abs(d.humanity) <= bound
  }

  function Size(d: Delta): nat {
    Abs(d.truth) + Abs(d.purity) + Abs(d.relation) + Abs(d.humanity)
  }

  /** Math.round(x * 6 / total) */
  function ScaledToSix(x: int, total: nat): int
    requires total > 0
  {
    (12 * x + total) / (2 * total)
  }

  function Clamped(raw: Delta): Delta {
    Delta(Clamp(raw.truth, -3, 3), Clamp(raw.purity, -3, 3), Clamp(raw.relation, -3, 3), Clamp(raw.humanity, -3, 3))
  }

  function NormalizedDelta(raw: Delta): Delta {
    var d := Clamped(raw);
    if Size(d) <= 6 then d
    else
      Delta(ScaledToSix(d.truth, Size(d)), ScaledToSix(d.purity, Size(d)), ScaledToSix(d.relation, Size(d)), ScaledToSix(d.humanity, Size(d)))
  }

  lemma ShiftBound(x: int, d: int, bound: nat)
    requires 0 <= x <= 100 && Abs(d) <= bound
    ensures x - bound <= Clamp(x + d, 0, 100) <= x + bound
  {
  }

  lemma CompositeBound(t: int, p: int, r: int, h: int, t': int, p': int, r': int, h': int, bound: nat)
    requires 0 <= t <= 100 && 0 <= p <= 100 && 0 <= r <= 100 && 0 <= h <= 100
    requires t - bound <= t' <= t + bound && p - bound <= p' <= p + bound
    requires r - bound <= r' <= r + bound && h - bound <= h' <= h + bound
    ensures Composite(t, p, r, h) - bound <= Composite(t', p', r', h') <= Composite(t, p, r, h) + bound
  {
    var before, after := 35 * t + 25 * p + 20 * r + 20 * h + 50, 35 * t' + 25 * p' + 20 * r' + 20 * h' + 50;
    assert before - 100 * bound <= after <= before + 100 * bound;
    assert before / 100 - bound <= after / 100 <= before / 100 + bound;
  }

  lemma GradeStep(c: int, c': int)
    requires c - 10 <= c' <= c + 10
    ensures GradeDistance(GradeOf(c'), GradeOf(c)) <= 1
  {
  }

  /** A shift of at most ten points in every dimension moves the composite by at most as much and the grade by at most one
      step, so the fallback is never taken. */
  lemma SmallShiftsNeverFallBack(raw: Score, d: Delta, bound: nat)
    requires IsScore(raw) && AtMost(d, bound) && bound <= 10
    ensures Adjusted(raw, d) == Shifted(raw, d)
    ensures Abs(Adjusted(raw, d).composite - raw.composite) <= bound && GradeDistance(Adjusted(raw, d).grade, raw.grade) <= 1
  {
    var s := Shifted(raw, d);
    ShiftBound(raw.truth, d.truth, bound);
    ShiftBound(raw.purity, d.purity, bound);
    ShiftBound(raw.relation, d.relation, bound);
    ShiftBound(raw.humanity, d.humanity, bound);
    CompositeBound(raw.truth, raw.purity, raw.relation, raw.humanity, s.truth, s.purity, s.relation, s.humanity, bound);
    GradeStep(raw.composite, s.composite);
  }

  /** Eleven points can skip a grade, so ten is the exact limit. */
  lemma ElevenPointsFallBack() returns (raw: Score, d: Delta)
    ensures IsScore(raw) && AtMost(d, 11) && Adjusted(raw, d) == raw && Shifted(raw, d) != raw
  {
    raw, d := Scored(77, 77, 77, 77), Delta(11, 11, 11, 11);
  }

  lemma QuotientBounds(a: int, k: nat)
    requires k > 0
    ensures a / k * k <= a < a / k * k + k
  {
  }

  lemma ScaledBound(x: int, total: nat)
    requires 6 < total && -3 <= x <= 3
    ensures Abs(ScaledToSix(x, total)) * (2 * total) <= 12 * Abs(x) + total
    ensures Abs(ScaledToSix(x, total)) <= 3
  {
    var q, twice := ScaledToSix(x, total), 2 * total;
    QuotientBounds(12 * x + total, twice);
    assert (-q) * twice == -(q * twice);
    if Abs(q) > 3 {
      MulMono(4, Abs(q), twice, twice);
      assert false;
    }
  }

  lemma AddUp(a: nat, b: nat, c: nat, d: nat, k: nat, total: nat, x: nat, y: nat, z: nat, w: nat)
    requires a * k <= 12 * x + total && b * k <= 12 * y + total && c * k <= 12 * z + total && d * k <= 12 * w + total
    requires x + y + z + w == total && k == 2 * total > 0
    ensures a + b + c + d <= 8
  {
    assert (a + b + c + d) * k == a * k + b * k + c * k + d * k;
    if a + b + c + d > 8 { MulMono(9, a + b + c + d, k, k); }
  }

  /** Whatever the model proposes, each dimension moves by at most three; scaling to a total of six rounds, so the total
      can still reach eight, and no more. */
  lemma NormalizedDeltaIsSmall(raw: Delta)
    ensures AtMost(NormalizedDelta(raw), 3) && Size(NormalizedDelta(raw)) <= 8
  {
    var (t, p, r, h) := (Clamp(raw.truth, -3, 3), Clamp(raw.purity, -3, 3), Clamp(raw.relation, -3, 3), Clamp(raw.humanity, -3, 3));
    var total := Size(Delta(t, p, r, h));
    if total > 6 {
      ScaledBound(t, total);
      ScaledBound(p, total);
      ScaledBound(r, total);
      ScaledBound(h, total);
      AddUp(Abs(ScaledToSix(t, total)), Abs(ScaledToSix(p, total)), Abs(ScaledToSix(r, total)), Abs(ScaledToSix(h, total)),
            2 * total, total, Abs(t), Abs(p), Abs(r), Abs(h));
    }
  }

  /** How many of the four entries equal v. */
  function Entries(d: Delta, v: int): nat {
    (if d.truth == v then 1 else 0) + (if d.purity == v then 1 else 0)
    + (if d.relation == v then 1 else 0) + (if d.humanity == v then 1 else 0)
  }

  /** The clamped proposals that scaling to six leaves above six. */
  predicate Overshoots(d: Delta) {
    var total := Size(d);
    || total == 7
    || (total == 8 && Entries(d, 3) + Entries(d, -3) + Entries(d, -2) <= 1)
    || (total == 10 && Entries(d, 1) + Entries(d, -1) > 0)
    || total == 11
    || (total == 12 && Entries(d, -3) <= 1)
  }

  /** What scaling takes off one entry. Math.round favours positive halves, so the sign matters. */
  function Loss(x: int, total: nat): int {
    if total == 7 then 0
    else if total == 8 then (if Abs(x) == 3 || x == -2 then 1 else 0)
    else if total < 12 then (if Abs(x) >= 2 then 1 else 0)
    else if x == 3 then 1 else 2
  }

  lemma ScaledEntry(x: int, total: nat)
    requires 7 <= total <= 12 && -3 <= x <= 3 && (total == 12 ==> Abs(x) == 3)
    ensures Abs(ScaledToSix(x, total)) == Abs(x) - Loss(x, total)
  {
    assert total == 7 || total == 8 || total == 9 || total == 10 || total == 11 || total == 12;
    assert x == -3 || x == -2 || x == -1 || x == 0 || x == 1 || x == 2 || x == 3;
  }

  lemma LossesOvershoot(d: Delta)
    requires AtMost(d, 3) && 7 <= Size(d)
    ensures var total := Size(d);
            total - Loss(d.truth, total) - Loss(d.purity, total) - Loss(d.relation, total) - Loss(d.humanity, total) > 6
            <==> Overshoots(d)
  {
  }

  /** Which proposals the cap of six fails for: exactly those whose clamped entries overshoot. */
  lemma TotalExceedsSixExactly(raw: Delta)
    ensures Size(NormalizedDelta(raw)) > 6 <==> Overshoots(Clamped(raw))
  {
    var d := Clamped(raw);
    var total := Size(d);
    if total > 6 {
      ScaledEntry(d.truth, total);
      ScaledEntry(d.purity, total);
      ScaledEntry(d.relation, total);
      ScaledEntry(d.humanity, total);
      LossesOvershoot(d);
    }
  }

  /** The largest total there is, and one with a single negative entry that stays above six. */
  lemma TotalCanReachEight()
    ensures Size(NormalizedDelta(Delta(3, 3, 3, 3))) == 8 && Size(NormalizedDelta(Delta(3, 3, 3, -3))) == 7
  {
  }

  // ----- The game -----

  /** A session and, once it is completed, its final score. */
  datatype Game = Game(session: Session, finalized: Option<Score>)

  function Finished(g: Game, proposal: Delta): Game {
    if g.finalized.Some? then g else g.(finalized := Some(Adjusted(ComputeScore(g.session), NormalizedDelta(proposal))))
  }

  function Played(g: Game, a: Action, proposal: Delta): Game {
    if g.finalized.Some? then g
    else
      var g' := g.(session := Applied(g.session, a));
      if g'.session.timeSpent >= TIME_BUDGET then Finished(g', proposal) else g'
  }
}
