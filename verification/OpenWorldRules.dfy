/** The rules of the open-world game as a player would be told them: what an action costs, what it is worth, how repetition
    wears it out, and how the score is made up. Each is shown of the engine, in terms of amounts alone. */
module OpenWorldRules {
  import opened OpenWorld
  import opened OpenWorldScores
  import opened OpenWorldRuns

  /** p is v rounded to the nearest integer, halves upward. */
  ghost predicate Nearest(p: int, v: real) {
    -0.5 < p as real - v <= 0.5
  }

  /** What is left of an amount the (n + 1)-th time: the amount over 1 + 0.6 n, rounded. */
  ghost predicate WornOut(p: int, amount: real, n: nat) {
    var divisor := 1.0 + 0.6 * n as real;
    -0.5 * divisor < p as real * divisor - amount <= 0.5 * divisor
  }

  lemma RoundIsNearest(v: real)
    ensures Nearest(Round(v), v)
  {
  }

  lemma ProposedIsWornOut(amount: real, n: nat)
    ensures WornOut(Proposed(amount, Novelty(n)), amount, n)
  {
    var divisor, novelty, p := 1.0 + 0.6 * n as real, Novelty(n), Proposed(amount, Novelty(n)) as real;
    assert novelty * divisor == 1.0;
    RoundIsNearest(amount * novelty);
    ScaleUp(p, amount, novelty, divisor);
  }

  lemma ScaleUp(p: real, amount: real, novelty: real, divisor: real)
    requires divisor > 0.0 && novelty * divisor == 1.0 && -0.5 < p - amount * novelty <= 0.5
    ensures -0.5 * divisor < p * divisor - amount <= 0.5 * divisor
  {
    var gap := p - amount * novelty;
    assert amount * novelty * divisor == amount * (novelty * divisor);
    assert p * divisor - amount == gap * divisor;
    assert (gap + 0.5) * divisor > 0.0 && (0.5 - gap) * divisor >= 0.0;
  }

  // ----- Actions -----

  /** The clock after an action. */
  lemma TimeCosts(s: Session, a: Action)
    requires 0 <= s.timeSpent <= 100
    ensures var cost := match a case Move(_) => 12 case Interrogate(_) => 14 case Search => 10 case UseClue(_, _) => 16
                                case Lie(_) => 8 case Ally(_) => 12 case Rest => 9;
            Applied(s, a).timeSpent == if s.timeSpent + cost <= 100 then s.timeSpent + cost else 100
  {
    ActionCost(s, a);
  }

  /** The truth after an amount is added: between 0 and 120. */
  ghost predicate TruthGrows(before: real, after: real, gain: real) {
    after == if before + gain > 120.0 then 120.0 else if before + gain < 0.0 then 0.0 else before + gain
  }

  ghost function Repeats(s: Session, a: Action): nat {
    Get(s.tallies.actionCounts, ActionKey(a, s.player.location), 0)
  }

  /** A search that finds a clue is worth the clue's truth, halved from time 40 and nothing from 75. */
  lemma SearchIsWorth(s: Session) returns (p: int)
    requires 0 <= s.timeSpent <= 100 && NextClue(CLUES, s.player.inventory).Some?
    ensures WornOut(p, NextClue(CLUES, s.player.inventory).value.truthValue as real, Repeats(s, Search))
    ensures var after := Applied(s, Search);
            TruthGrows(s.player.truth, after.player.truth,
                       if after.timeSpent < 40 then p as real else if after.timeSpent < 75 then p as real / 2.0 else 0.0)
  {
    var amount := NextClue(CLUES, s.player.inventory).value.truthValue as real;
    ProposedIsWornOut(amount, Repeats(s, Search));
    p := Proposed(amount, Novelty(Repeats(s, Search)));
  }

  /** A question is worth 8 to somebody well disposed and 5 otherwise; from time 40 at most 2 unless a clue has been used on
      that character, and from 75 nothing unless that character is also one of the two core ones. */
  lemma QuestionIsWorth(s: Session, npc: string) returns (p: int)
    requires 0 <= s.timeSpent <= 100 && npc in NPCS
    ensures WornOut(p, if Get(s.player.relations, npc, 0) >= 1 then 8.0 else 5.0, Repeats(s, Interrogate(npc)))
    ensures var (after, faced) := (Applied(s, Interrogate(npc)), Get(s.evidence.usedClueByNpc, npc, 0) > 0);
            TruthGrows(s.player.truth, after.player.truth,
                       if after.timeSpent < 40 then p as real
                       else if after.timeSpent < 75 then (if faced || p < 2 then p as real else 2.0)
                       else if (npc == "npc-1" || npc == "npc-2") && s.evidence.usedClueAny && faced then p as real
                       else 0.0)
  {
    var amount := if Get(s.player.relations, npc, 0) >= 1 then 8.0 else 5.0;
    ProposedIsWornOut(amount, Repeats(s, Interrogate(npc)));
    p := Proposed(amount, Novelty(Repeats(s, Interrogate(npc))));
  }

  /** Using a clue is worth 55 hundredths of its truth, and nothing from time 75. */
  lemma ClueIsWorth(s: Session, npc: string, id: string) returns (p: int)
    requires 0 <= s.timeSpent <= 100 && npc in NPCS && FindClue(s.player.inventory, id).Some?
    ensures WornOut(p, FindClue(s.player.inventory, id).value.truthValue as real * 0.55, Repeats(s, UseClue(npc, id)))
    ensures var after := Applied(s, UseClue(npc, id));
            TruthGrows(s.player.truth, after.player.truth, if after.timeSpent < 75 then p as real else 0.0)
  {
    var amount := FindClue(s.player.inventory, id).value.truthValue as real * 0.55;
    ProposedIsWornOut(amount, Repeats(s, UseClue(npc, id)));
    p := Proposed(amount, Novelty(Repeats(s, UseClue(npc, id))));
  }

  /** No other action moves the truth. */
  lemma NothingElseIsWorth(s: Session, a: Action)
    requires a.Move? || a.Lie? || a.Ally? || a.Rest?
             || (a.Search? && NextClue(CLUES, s.player.inventory).None?)
             || (a.Interrogate? && a.target !in NPCS)
             || (a.UseClue? && (a.target !in NPCS || FindClue(s.player.inventory, a.clue).None?))
    ensures Applied(s, a).player.truth == s.player.truth
  {
  }

  /** The action does something: a known place, a known character, a clue in hand. */
  ghost predicate TakesEffect(s: Session, a: Action) {
    match a
    case Move(target) => target in LOCATIONS
    case Interrogate(target) => target in NPCS
    case UseClue(target, clue) => target in NPCS && FindClue(s.player.inventory, clue).Some?
    case _ => true
  }

  /** What an action does to the heat, 0 to 120, and to the pollution, 0 to 12. */
  lemma HeatAndPollution(s: Session, a: Action)
    requires 0 <= s.world.heat <= 120 && 0 <= s.player.pollution <= 12
    ensures var heat := s.world.heat + if !TakesEffect(s, a) then 0
                                       else match a case Move(_) => 2 case Search => 2 case Interrogate(_) => 4 case UseClue(_, _) => 1
                                                    case Lie(_) => 4 case Ally(_) => 1 case Rest => -10;
            Applied(s, a).world.heat == if heat < 0 then 0 else if heat > 120 then 120 else heat
    ensures var pollution := s.player.pollution
                             + if !TakesEffect(s, a) then 0
                               else match a
                                    case Search => (if NextClue(CLUES, s.player.inventory).Some? then NextClue(CLUES, s.player.inventory).value.pollutionRisk else 0)
                                    case UseClue(_, _) => -1
                                    case Lie(_) => 2
                                    case Ally(npc) => (if Get(s.player.relations, npc, 0) >= 0 then -1 else 0)
                                    case Rest => -1
                                    case _ => 0;
            Applied(s, a).player.pollution == if pollution < 0 then 0 else if pollution > 12 then 12 else pollution
  {
  }

  /** The change in one relation, -3 to 3, and in dignity, which follows its sign. */
  lemma RelationsAndDignity(s: Session, a: Action, npc: string)
    requires 0 <= s.player.dignity <= 100 && -3 <= Get(s.player.relations, npc, 0) <= 3
    requires (a.Interrogate? || a.UseClue? || a.Lie? || a.Ally?) && a.target == npc
    ensures var before := Get(s.player.relations, npc, 0);
            var delta := if !TakesEffect(s, a) then 0
                         else match a
                              case Interrogate(_) => (if before >= 0 then 1 else -1)
                              case UseClue(_, _) => 1
                              case Lie(_) => -1
                              case _ => (if before >= 0 then 1 else 0);
            var (relation, dignity) := (before + delta, s.player.dignity + delta);
            && Get(Applied(s, a).player.relations, npc, 0) == (if relation < -3 then -3 else if relation > 3 then 3 else relation)
            && Applied(s, a).player.dignity == (if dignity < 0 then 0 else if dignity > 100 then 100 else dignity)
  {
  }

  // ----- Repetition -----

  /** How often an action has been accepted under a key. */
  function Accepted(events: seq<Event>, key: string): nat {
    if events == [] then 0
    else
      var g, e := Run(events[..|events| - 1]), events[|events| - 1];
      Accepted(events[..|events| - 1], key)
      + if e.Act? && g.finalized.None? && ActionKey(e.action, g.session.player.location) == key then 1 else 0
  }

  lemma TalliesAfter(g: Game, e: Event, key: string)
    ensures var (before, after) := (g.session.tallies.actionCounts, Step(g, e).session.tallies.actionCounts);
            Get(after, key, 0) == Get(before, key, 0)
              + if e.Act? && g.finalized.None? && ActionKey(e.action, g.session.player.location) == key then 1 else 0
  {
  }

  /** What wears an action out is exactly how often the run has accepted it. */
  lemma {:induction false} RepetitionIsCounted(events: seq<Event>, key: string)
    ensures Get(Run(events).session.tallies.actionCounts, key, 0) == Accepted(events, key)
  {
    if events != [] {
      RepetitionIsCounted(events[..|events| - 1], key);
      TalliesAfter(Run(events[..|events| - 1]), events[|events| - 1], key);
    }
  }

  // ----- The score -----

  /** Truth: the progress rounded, at most 100, less 12 without any clue used, 16 without one used on a core character, 20
      without a confirmed resolution; never below zero. */
  lemma TruthScoreIs(p: Player, e: Evidence)
    ensures var rounded := Round(p.truth);
            var capped := if rounded > 100 then 100 else if rounded < 0 then 0 else rounded;
            var less := capped - (if e.usedClueAny then 0 else 12)
                        - (if Get(e.usedClueByNpc, "npc-1", 0) > 0 || Get(e.usedClueByNpc, "npc-2", 0) > 0 then 0 else 16)
                        - (if e.resolutionConfirmed then 0 else 20);
            TruthScore(p, e) == if less < 0 then 0 else less
  {
  }

  /** Purity: eleven less for every unit of pollution. The composite: 35, 25, 20 and 20 hundredths, rounded. The bands: 88, 78,
      66, 52. */
  lemma ScoreIs(s: Session)
    requires s.player.pollution >= 0
    ensures var score := ComputeScore(s);
            && score.truth == TruthScore(s.player, s.evidence)
            && score.purity == (if s.player.pollution * 11 > 100 then 0 else 100 - s.player.pollution * 11)
            && score.relation == RelationScore(s.player, s.world.heat)
            && score.humanity == HumanityScore(s.player, s.tallies, s.world.heat)
            && 0 <= score.composite <= 100
            && -50 < 100 * score.composite - (35 * score.truth + 25 * score.purity + 20 * score.relation + 20 * score.humanity) <= 50
            && (score.grade.S? <==> score.composite >= 88) && (score.grade.A? <==> 78 <= score.composite < 88)
            && (score.grade.B? <==> 66 <= score.composite < 78) && (score.grade.C? <==> 52 <= score.composite < 66)
  {
  }

  /** One relation from -3 to 3 on a scale of 100, rounded. */
  lemma RelationToScoreIs(v: int)
    requires -3 <= v <= 3
    ensures -3 < 6 * RelationToScore(v) - 100 * (v + 3) <= 3
  {
  }

  /** Relation: four fifths from the two core characters' average and one from the others', rounded; ten less in the heat. */
  lemma RelationScoreIs(p: Player, heat: int) returns (average: int)
    ensures var of := (npc: string) => RelationToScore(Get(p.relations, npc, 0));
            && 0 <= average <= 100
            && -10 < 20 * average - (8 * (of("npc-1") + of("npc-2")) + 2 * (of("npc-3") + of("npc-4"))) <= 10
    ensures RelationScore(p, heat) == if heat < 85 then average else if average < 10 then 0 else average - 10
  {
    average := RelationScore(p, 0);
  }

  /** Humanity: 56, six more for an alliance, three for a rest, eleven less for a lie, six tenths less for each degree of heat
      over 65, three less for each unit of pollution over 4, rounded; eight less in the heat. */
  lemma HumanityScoreIs(p: Player, t: Tallies, heat: int) returns (sum: int)
    ensures var exact := 56.0 + 6.0 * t.allies as real + 3.0 * t.rests as real - 11.0 * t.lies as real
                         - (if heat > 65 then 0.6 * (heat - 65) as real else 0.0)
                         - (if p.pollution > 4 then 3.0 * (p.pollution - 4) as real else 0.0);
            Nearest(sum, exact)
    ensures var capped := if sum < 0 then 0 else if sum > 100 then 100 else sum;
            HumanityScore(p, t, heat) == if heat < 85 then capped else if capped < 8 then 0 else capped - 8
  {
    var tenths := 560 + 60 * t.allies + 30 * t.rests - 110 * t.lies
                  - (if heat > 65 then 6 * (heat - 65) else 0) - (if p.pollution > 4 then 30 * (p.pollution - 4) else 0);
    sum := (tenths + 5) / 10;
  }

  // ----- Places and tallies -----

  /** A move to a place of the world leads there; nothing else moves the player. Every action is a tick and costs 14 a unit of
      time from the budget. */
  lemma PlaceAndBudget(s: Session, a: Action)
    ensures Applied(s, a).player.location == if a.Move? && a.target in LOCATIONS then a.target else s.player.location
    ensures Applied(s, a).world.timeTick == s.world.timeTick + 1
    ensures var budget := s.world.budgetBps - 14 * Cost(a);
            Applied(s, a).world.budgetBps == if budget < 0 then 0 else if budget > 10_000 then 10_000 else budget
  {
  }

  predicate IsLie(a: Action) { a.Lie? }

  predicate IsAlly(a: Action) { a.Ally? }

  predicate IsRest(a: Action) { a.Rest? }

  /** How often an action of a kind has been accepted. */
  function AcceptedOf(events: seq<Event>, kind: Action -> bool): nat {
    if events == [] then 0
    else
      var g, e := Run(events[..|events| - 1]), events[|events| - 1];
      AcceptedOf(events[..|events| - 1], kind) + if e.Act? && g.finalized.None? && kind(e.action) then 1 else 0
  }

  /** The tallies the score uses count what the run has accepted. */
  lemma {:induction false} TalliesCount(events: seq<Event>)
    ensures var t := Run(events).session.tallies;
            t.lies == AcceptedOf(events, IsLie) && t.allies == AcceptedOf(events, IsAlly) && t.rests == AcceptedOf(events, IsRest)
  {
    if events != [] { TalliesCount(events[..|events| - 1]); }
  }

  // ----- The end -----

  /** A session ends when it is asked to, or with the action that uses up the time. */
  lemma EndsExactly(g: Game, e: Event)
    requires g.finalized.None? && 0 <= g.session.timeSpent <= 100
    ensures Step(g, e).finalized.Some? <==> e.Finish? || g.session.timeSpent + Cost(e.action) >= 100
    ensures e.Finish? ==> Step(g, e).session == g.session
    ensures e.Act? ==> Step(g, e).session == Applied(g.session, e.action)
  {
    if e.Act? { ActionCost(g.session, e.action); }
  }

  ghost function Within(v: int, lo: int, hi: int): int {
    if v < lo then lo else if v > hi then hi else v
  }

  /** 6 v / total, rounded to the nearest integer, halves upward. */
  ghost predicate SixthsOf(r: int, v: int, total: int) {
    -total < 2 * total * r - 12 * v <= total
  }

  /** What is left of a proposal: entries limited to three either way, and, when they add up to more than six, scaled to six. */
  lemma ProposalIs(raw: Delta)
    ensures var (d, t, p, r, h) := (NormalizedDelta(raw), Within(raw.truth, -3, 3), Within(raw.purity, -3, 3),
                                    Within(raw.relation, -3, 3), Within(raw.humanity, -3, 3));
            var total := Abs(t) + Abs(p) + Abs(r) + Abs(h);
            && (total <= 6 ==> d == Delta(t, p, r, h))
            && (total > 6 ==> SixthsOf(d.truth, t, total) && SixthsOf(d.purity, p, total)
                              && SixthsOf(d.relation, r, total) && SixthsOf(d.humanity, h, total))
  {
    var d := Clamped(raw);
    if Size(d) > 6 {
      ScaledIsSixths(d.truth, Size(d));
      ScaledIsSixths(d.purity, Size(d));
      ScaledIsSixths(d.relation, Size(d));
      ScaledIsSixths(d.humanity, Size(d));
    }
  }

  lemma ScaledIsSixths(v: int, total: nat)
    requires total > 0
    ensures SixthsOf(ScaledToSix(v, total), v, total)
  {
    QuotientBounds(12 * v + total, 2 * total);
  }

  lemma ScoredIs(t: int, p: int, r: int, h: int)
    requires 0 <= t <= 100 && 0 <= p <= 100 && 0 <= r <= 100 && 0 <= h <= 100
    ensures var s := Scored(t, p, r, h);
            && -50 < 100 * s.composite - (35 * t + 25 * p + 20 * r + 20 * h) <= 50
            && (s.grade.S? <==> s.composite >= 88) && (s.grade.A? <==> 78 <= s.composite < 88)
            && (s.grade.B? <==> 66 <= s.composite < 78) && (s.grade.C? <==> 52 <= s.composite < 66)
  {
  }

  /** The raw score's dimensions, each moved by the delta, weighed and graded again. */
  ghost predicate Moved(final: Score, raw: Score, d: Delta) {
    && final.truth == Within(raw.truth + d.truth, 0, 100) && final.purity == Within(raw.purity + d.purity, 0, 100)
    && final.relation == Within(raw.relation + d.relation, 0, 100) && final.humanity == Within(raw.humanity + d.humanity, 0, 100)
    && -50 < 100 * final.composite - (35 * final.truth + 25 * final.purity + 20 * final.relation + 20 * final.humanity) <= 50
    && (final.grade.S? <==> final.composite >= 88) && (final.grade.A? <==> 78 <= final.composite < 88)
    && (final.grade.B? <==> 66 <= final.composite < 78) && (final.grade.C? <==> 52 <= final.composite < 66)
  }

  lemma ShiftedIsMoved(raw: Score, d: Delta)
    ensures Moved(Shifted(raw, d), raw, d)
  {
    ScoredIs(Within(raw.truth + d.truth, 0, 100), Within(raw.purity + d.purity, 0, 100),
             Within(raw.relation + d.relation, 0, 100), Within(raw.humanity + d.humanity, 0, 100));
  }

  /** The final score is the engine's, moved by what is left of the proposal. */
  lemma FinalScoreIs(g: Game, e: Event)
    requires g.finalized.None? && Step(g, e).finalized.Some?
    ensures Moved(Step(g, e).finalized.value, ComputeScore(Step(g, e).session), NormalizedDelta(e.proposal))
  {
    var raw, d := ComputeScore(Step(g, e).session), NormalizedDelta(e.proposal);
    FinalScoreArises(g, e);
    ComputedIsScore(Step(g, e).session);
    NormalizedDeltaIsSmall(e.proposal);
    SmallShiftsNeverFallBack(raw, d, 3);
    ShiftedIsMoved(raw, d);
  }
}
