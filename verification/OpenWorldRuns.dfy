/** Open-world sessions over whole runs of actions and early endings, each taken as one step. */
module OpenWorldRuns {
  import opened Outcomes
  import opened OpenWorld
  import opened OpenWorldScores

  /** A request, with what the language model will propose if it ends the session. */
  datatype Event = Act(action: Action, proposal: Delta) | Finish(proposal: Delta)

  const NewGame: Game := Game(NewSession, None)

  function Step(g: Game, e: Event): Game {
    match e
    case Act(a, proposal) => Played(g, a, proposal)
    case Finish(proposal) => Finished(g, proposal)
  }

  function Run(events: seq<Event>): Game {
    if events == [] then NewGame else Step(Run(events[..|events| - 1]), events[|events| - 1])
  }

  // ----- One action -----

  lemma ActionCost(s: Session, a: Action)
    ensures Applied(s, a).timeSpent == Clamp(s.timeSpent + Cost(a), 0, TIME_BUDGET) && Cost(a) >= 8
  {
  }

  predicate UsesClue(s: Session, a: Action) {
    a.UseClue? && a.target in NPCS && FindClue(s.player.inventory, a.clue).Some?
  }

  predicate Confirms(s: Session, a: Action) {
    && a.Interrogate? && IsCore(a.target) && s.timeSpent + Cost(a) >= 75
    && s.evidence.usedClueAny && Get(s.evidence.usedClueByNpc, a.target, 0) > 0
  }

  /** What an action does to the evidence. */
  lemma ActionEvidence(s: Session, a: Action)
    requires 0 <= s.timeSpent <= TIME_BUDGET
    ensures Applied(s, a).evidence ==
            if UsesClue(s, a) then Used(s.evidence, a.target)
            else s.evidence.(resolutionConfirmed := s.evidence.resolutionConfirmed || Confirms(s, a))
  {
  }

  /** What an action does to the inventory: only a search adds to it, and it adds the first clue not yet held. */
  lemma ActionInventory(s: Session, a: Action)
    ensures Applied(s, a).player.inventory ==
            if a.Search? && NextClue(CLUES, s.player.inventory).Some?
            then s.player.inventory + [NextClue(CLUES, s.player.inventory).value]
            else s.player.inventory
  {
  }

  /** In the last phase the truth rises only by an interrogation that confirms the resolution. */
  lemma ResolutionTruth(s: Session, a: Action)
    requires 0 <= s.timeSpent <= TIME_BUDGET && 0.0 <= s.player.truth <= 120.0
    requires PhaseOf(Applied(s, a).timeSpent).Resolution? && Applied(s, a).player.truth > s.player.truth
    ensures Confirms(s, a) && Applied(s, a).evidence.resolutionConfirmed
  {
  }

  // ----- Every run -----

  ghost predicate HoldsPrefix(inventory: seq<Clue>) {
    |inventory| <= |CLUES| && inventory == CLUES[..|inventory|]
  }

  lemma ClueIdsDiffer()
    ensures forall i, j :: 0 <= i < j < |CLUES| ==> CLUES[i].id != CLUES[j].id
  {
    assert forall i, j :: 0 <= i < j < |CLUES| ==> CLUES[i].id[5] != CLUES[j].id[5];
  }

  lemma {:induction false} FindById(clues: seq<Clue>, id: string)
    ensures FindClue(clues, id).Some? <==> exists i :: 0 <= i < |clues| && clues[i].id == id
  {
    if clues != [] && clues[0].id != id {
      FindById(clues[1..], id);
      assert forall i :: 1 <= i < |clues| ==> clues[i] == clues[1..][i - 1];
    }
  }

  lemma FindInPrefix(inventory: seq<Clue>, k: nat)
    requires HoldsPrefix(inventory) && k < |CLUES|
    ensures FindClue(inventory, CLUES[k].id).Some? <==> k < |inventory|
  {
    FindById(inventory, CLUES[k].id);
    ClueIdsDiffer();
    if k < |inventory| { assert inventory[k].id == CLUES[k].id; }
  }

  /** With the first n clues in hand, the next one is clue n. */
  lemma NextOfPrefix(inventory: seq<Clue>)
    requires HoldsPrefix(inventory)
    ensures NextClue(CLUES, inventory) == if |inventory| < |CLUES| then Some(CLUES[|inventory|]) else None
  {
    forall k | 0 <= k < |CLUES|
      ensures FindClue(inventory, CLUES[k].id).Some? <==> k < |inventory|
    {
      FindInPrefix(inventory, k);
    }
    NextFrom(inventory, 0);
  }

  lemma {:induction false} NextFrom(inventory: seq<Clue>, from: nat)
    requires from <= |CLUES| && from <= |inventory| <= |CLUES|
    requires forall k :: 0 <= k < |CLUES| ==> (FindClue(inventory, CLUES[k].id).Some? <==> k < |inventory|)
    ensures NextClue(CLUES[from..], inventory) == if |inventory| < |CLUES| then Some(CLUES[|inventory|]) else None
    ensures from == 0 ==> CLUES[from..] == CLUES
    decreases |CLUES| - from
  {
    if from < |CLUES| {
      assert CLUES[from..][0] == CLUES[from] && CLUES[from..][1..] == CLUES[from + 1..];
      if from < |inventory| { NextFrom(inventory, from + 1); }
    }
  }

  ghost predicate SessionOk(s: Session) {
    && 0 <= s.timeSpent <= TIME_BUDGET
    && 0.0 <= s.player.truth <= 120.0
    && HoldsPrefix(s.player.inventory)
    && (s.evidence.usedClueAny <==> exists npc :: npc in NPCS && Get(s.evidence.usedClueByNpc, npc, 0) > 0)
    && (s.evidence.resolutionConfirmed ==> exists npc :: IsCore(npc) && Get(s.evidence.usedClueByNpc, npc, 0) > 0)
  }

  lemma TruthRange(s: Session, a: Action)
    requires 0.0 <= s.player.truth <= 120.0
    ensures 0.0 <= Applied(s, a).player.truth <= 120.0
  {
  }

  lemma ActionKeepsOk(s: Session, a: Action)
    requires SessionOk(s)
    ensures SessionOk(Applied(s, a))
  {
    ActionCost(s, a);
    ActionEvidence(s, a);
    ActionInventory(s, a);
    TruthRange(s, a);
    NextOfPrefix(s.player.inventory);
    if UsesClue(s, a) { assert Get(Applied(s, a).evidence.usedClueByNpc, a.target, 0) > 0; }
  }

  lemma {:induction false} RunKeepsOk(events: seq<Event>)
    ensures SessionOk(Run(events).session)
  {
    if events == [] {
      assert NewSession.player.inventory == CLUES[..0];
    } else {
      var before, e := events[..|events| - 1], events[|events| - 1];
      RunKeepsOk(before);
      if e.Act? { ActionKeepsOk(Run(before).session, e.action); }
    }
  }

  /** The inventory is always the first clues of the world, in order, and never a clue twice. */
  lemma InventoryIsPrefix(events: seq<Event>)
    ensures var inventory := Run(events).session.player.inventory;
            |inventory| <= |CLUES| && inventory == CLUES[..|inventory|]
  {
    RunKeepsOk(events);
  }

  // ----- The case -----

  /** What decides gates and endings: the clock, the evidence, how many clues are held, whether requests still count. */
  datatype Case = Case(open: bool, timeSpent: int, evidence: Evidence, held: nat)

  predicate CanUse(c: Case, a: Action) {
    a.UseClue? && a.target in NPCS && c.held <= |CLUES| && FindClue(CLUES[..c.held], a.clue).Some?
  }

  /** The question that confirms the resolution: to a core character faced with a clue before, at 75 or later. */
  predicate Settles(c: Case, a: Action) {
    && a.Interrogate? && IsCore(a.target) && c.timeSpent + Cost(a) >= 75
    && c.evidence.usedClueAny && Get(c.evidence.usedClueByNpc, a.target, 0) > 0
  }

  function CaseStep(c: Case, e: Event): Case {
    if !c.open then c
    else if e.Finish? then c.(open := false)
    else
      var timeSpent := Clamp(c.timeSpent + Cost(e.action), 0, TIME_BUDGET);
      Case(timeSpent < TIME_BUDGET, timeSpent,
           if CanUse(c, e.action) then Used(c.evidence, e.action.target)
           else c.evidence.(resolutionConfirmed := c.evidence.resolutionConfirmed || Settles(c, e.action)),
           if e.action.Search? && c.held < |CLUES| then c.held + 1 else c.held)
  }

  function CaseRun(events: seq<Event>): Case {
    if events == [] then Case(true, 0, Evidence(map[], false, false), 0)
    else CaseStep(CaseRun(events[..|events| - 1]), events[|events| - 1])
  }

  function CaseOf(g: Game): Case {
    Case(g.finalized.None?, g.session.timeSpent, g.session.evidence, |g.session.player.inventory|)
  }

  lemma CaseFollows(g: Game, e: Event)
    requires SessionOk(g.session) && (g.finalized.None? ==> g.session.timeSpent < TIME_BUDGET)
    ensures CaseOf(Step(g, e)) == CaseStep(CaseOf(g), e)
  {
    if e.Act? {
      ActionCost(g.session, e.action);
      ActionEvidence(g.session, e.action);
      ActionInventory(g.session, e.action);
      NextOfPrefix(g.session.player.inventory);
    }
  }

  /** The engine's sessions follow the case: nothing else they hold decides a gate or an ending. */
  lemma {:induction false} RunFollowsCase(events: seq<Event>)
    ensures CaseOf(Run(events)) == CaseRun(events)
    ensures Run(events).finalized.None? ==> Run(events).session.timeSpent < TIME_BUDGET
  {
    if events != [] {
      var before := events[..|events| - 1];
      RunFollowsCase(before);
      RunKeepsOk(before);
      CaseFollows(Run(before), events[|events| - 1]);
    }
  }

  // ----- The budget -----

  /** The actions that found the session open. */
  function AcceptedActions(events: seq<Event>): nat {
    if events == [] then 0
    else
      var before := events[..|events| - 1];
      AcceptedActions(before) + if events[|events| - 1].Act? && CaseRun(before).open then 1 else 0
  }

  lemma {:induction false} BudgetInvariant(events: seq<Event>)
    ensures var c, n := CaseRun(events), AcceptedActions(events);
            && (c.open ==> 8 * n <= c.timeSpent < TIME_BUDGET)
            && n <= 13
  {
    if events != [] { BudgetInvariant(events[..|events| - 1]); }
  }

  /** A session accepts at most thirteen actions, and one that has accepted thirteen is completed. */
  lemma AtMostThirteenActions(events: seq<Event>)
    ensures AcceptedActions(events) <= 13
    ensures AcceptedActions(events) == 13 ==> Run(events).finalized.Some?
  {
    BudgetInvariant(events);
    RunFollowsCase(events);
    assert CaseOf(Run(events)).open == Run(events).finalized.None?;
  }

  /** n lies, the cheapest action. */
  function Lies(n: nat): seq<Event> {
    seq(n, _ => Act(Lie("npc-1"), Delta(0, 0, 0, 0)))
  }

  lemma {:induction false} LiesAreAccepted(n: nat)
    requires n <= 12
    ensures AcceptedActions(Lies(n)) == n && CaseRun(Lies(n)).open && CaseRun(Lies(n)).timeSpent == 8 * n
  {
    if n > 0 {
      LiesAreAccepted(n - 1);
      assert Lies(n)[..n - 1] == Lies(n - 1);
    }
  }

  /** Thirteen is reached. */
  lemma ThirteenActionsHappen()
    ensures AcceptedActions(Lies(13)) == 13
  {
    LiesAreAccepted(12);
    assert Lies(13)[..12] == Lies(12);
  }

  /** A completed session answers every later request without changing. */
  lemma {:induction false} CompletedNeverChanges(events: seq<Event>, more: seq<Event>)
    requires Run(events).finalized.Some?
    ensures Run(events + more) == Run(events)
  {
    if more == [] {
      assert events + more == events;
    } else {
      CompletedNeverChanges(events, more[..|more| - 1]);
      assert (events + more)[..|events + more| - 1] == events + more[..|more| - 1];
    }
  }

  // ----- The resolution gate -----

  /** At step i a clue in hand was used on the character. */
  ghost predicate UsedAt(events: seq<Event>, i: nat, npc: string) {
    && i < |events| && events[i].Act? && CaseRun(events[..i]).open
    && CanUse(CaseRun(events[..i]), events[i].action) && events[i].action.target == npc
  }

  /** At step j the character was interrogated, with the clock, the cost included, at 75 or later. */
  ghost predicate AskedAt(events: seq<Event>, j: nat, npc: string) {
    && j < |events| && events[j].Act? && CaseRun(events[..j]).open
    && events[j].action == Interrogate(npc) && CaseRun(events[..j]).timeSpent + Cost(events[j].action) >= 75
  }

  /** Whether a step used a clue or asked does not depend on later steps. */
  lemma Prefixes(events: seq<Event>, k: nat)
    requires events != [] && k < |events| - 1
    ensures forall npc :: UsedAt(events, k, npc) <==> UsedAt(events[..|events| - 1], k, npc)
    ensures forall npc :: AskedAt(events, k, npc) <==> AskedAt(events[..|events| - 1], k, npc)
  {
    assert events[..|events| - 1][..k] == events[..k];
  }

  lemma UsedNow(events: seq<Event>, npc: string)
    requires events != []
    ensures var before := events[..|events| - 1];
            Get(CaseRun(events).evidence.usedClueByNpc, npc, 0) > 0
            <==> Get(CaseRun(before).evidence.usedClueByNpc, npc, 0) > 0 || UsedAt(events, |before|, npc)
  {
  }

  /** A character counts as faced with a clue exactly when some step of the run used one on that character. */
  lemma {:induction false} UsedExactly(events: seq<Event>, npc: string)
    ensures Get(CaseRun(events).evidence.usedClueByNpc, npc, 0) > 0 <==> exists i: nat :: UsedAt(events, i, npc)
  {
    if events != [] {
      var before := events[..|events| - 1];
      UsedExactly(before, npc);
      UsedNow(events, npc);
      if i: nat :| UsedAt(events, i, npc) && i < |before| { Prefixes(events, i); }
      if i: nat :| UsedAt(before, i, npc) {
        Prefixes(events, i);
        assert UsedAt(events, i, npc);
      }
    }
  }

  lemma {:induction false} AnyUsed(events: seq<Event>, npc: string)
    ensures Get(CaseRun(events).evidence.usedClueByNpc, npc, 0) > 0 ==> CaseRun(events).evidence.usedClueAny
  {
    if events != [] { AnyUsed(events[..|events| - 1], npc); }
  }

  /** The confirming pair of steps: the clue, then the question. */
  ghost predicate ConfirmedBy(events: seq<Event>, i: nat, j: nat, npc: string) {
    i < j && IsCore(npc) && UsedAt(events, i, npc) && AskedAt(events, j, npc)
  }

  ghost predicate EverConfirmed(events: seq<Event>) {
    exists i: nat, j: nat, npc :: ConfirmedBy(events, i, j, npc)
  }

  ghost predicate ConfirmsLast(events: seq<Event>)
    requires events != []
  {
    var c, e := CaseRun(events[..|events| - 1]), events[|events| - 1];
    e.Act? && c.open && Settles(c, e.action)
  }

  lemma LastQuestion(events: seq<Event>)
    requires events != [] && ConfirmsLast(events)
    ensures EverConfirmed(events)
  {
    var before, e := events[..|events| - 1], events[|events| - 1];
    UsedExactly(before, e.action.target);
    var i: nat :| UsedAt(before, i, e.action.target);
    Prefixes(events, i);
    assert ConfirmedBy(events, i, |before|, e.action.target);
  }

  lemma LastQuestionConfirms(events: seq<Event>, i: nat, npc: string)
    requires events != [] && ConfirmedBy(events, i, |events| - 1, npc)
    ensures ConfirmsLast(events)
  {
    var before := events[..|events| - 1];
    Prefixes(events, i);
    UsedExactly(before, npc);
    AnyUsed(before, npc);
  }

  lemma Lengthen(events: seq<Event>)
    requires events != [] && EverConfirmed(events[..|events| - 1])
    ensures EverConfirmed(events)
  {
    var i: nat, j: nat, npc :| ConfirmedBy(events[..|events| - 1], i, j, npc);
    Prefixes(events, i);
    Prefixes(events, j);
    assert ConfirmedBy(events, i, j, npc);
  }

  lemma Shorten(events: seq<Event>, i: nat, j: nat, npc: string)
    requires events != [] && ConfirmedBy(events, i, j, npc) && j < |events| - 1
    ensures EverConfirmed(events[..|events| - 1])
  {
    Prefixes(events, i);
    Prefixes(events, j);
    assert ConfirmedBy(events[..|events| - 1], i, j, npc);
  }

  lemma CaseConfirmedNow(events: seq<Event>)
    requires events != []
    ensures CaseRun(events).evidence.resolutionConfirmed
            <==> CaseRun(events[..|events| - 1]).evidence.resolutionConfirmed || ConfirmsLast(events)
  {
  }

  lemma EverConfirmedSplit(events: seq<Event>)
    requires events != [] && EverConfirmed(events)
    ensures EverConfirmed(events[..|events| - 1]) || ConfirmsLast(events)
  {
    var i: nat, j: nat, npc :| ConfirmedBy(events, i, j, npc);
    if j == |events| - 1 { LastQuestionConfirms(events, i, npc); } else { Shorten(events, i, j, npc); }
  }

  lemma {:induction false} CaseConfirmedExactly(events: seq<Event>)
    ensures CaseRun(events).evidence.resolutionConfirmed <==> EverConfirmed(events)
  {
    if events != [] {
      CaseConfirmedExactly(events[..|events| - 1]);
      CaseConfirmedNow(events);
      if EverConfirmed(events) { EverConfirmedSplit(events); }
      if EverConfirmed(events[..|events| - 1]) { Lengthen(events); }
      if ConfirmsLast(events) { LastQuestion(events); }
    }
  }

  /** The resolution is confirmed exactly when, in this order, a clue in hand was used on one of the two core characters
      and that character was interrogated with the clock at 75 or later. */
  lemma ConfirmedExactly(events: seq<Event>)
    ensures Run(events).session.evidence.resolutionConfirmed <==> EverConfirmed(events)
  {
    RunFollowsCase(events);
    CaseConfirmedExactly(events);
    assert CaseOf(Run(events)).evidence == Run(events).session.evidence;
  }

  /** In the last phase of any run, an action that raises the truth confirms the resolution. */
  lemma OnlyConfirmationRaisesTruth(events: seq<Event>, a: Action, proposal: Delta)
    requires var g := Run(events + [Act(a, proposal)]);
             PhaseOf(g.session.timeSpent).Resolution? && g.session.player.truth > Run(events).session.player.truth
    ensures Confirms(Run(events).session, a) && Run(events + [Act(a, proposal)]).session.evidence.resolutionConfirmed
  {
    assert (events + [Act(a, proposal)])[..|events|] == events;
    RunKeepsOk(events);
    ResolutionTruth(Run(events).session, a);
  }

  // ----- Scores -----

  /** The final score is the engine's, shifted by at most three points a dimension. */
  ghost predicate NearEngineScore(final: Score, raw: Score) {
    && (exists d :: AtMost(d, 3) && final == Shifted(raw, d))
    && Abs(final.composite - raw.composite) <= 3 && GradeDistance(final.grade, raw.grade) <= 1
  }

  lemma AdjustedIsNear(s: Session, proposal: Delta)
    ensures NearEngineScore(Adjusted(ComputeScore(s), NormalizedDelta(proposal)), ComputeScore(s))
  {
    ComputedIsScore(s);
    NormalizedDeltaIsSmall(proposal);
    SmallShiftsNeverFallBack(ComputeScore(s), NormalizedDelta(proposal), 3);
  }

  lemma FinalScoreArises(g: Game, e: Event)
    ensures var g' := Step(g, e);
            g'.finalized.Some? ==>
              (g.finalized.Some? && g' == g)
              || g'.finalized.value == Adjusted(ComputeScore(g'.session), NormalizedDelta(e.proposal))
  {
  }

  /** Whatever is proposed, the composite of a run's final score is within three of the engine's and its grade within one
      step; the fallback that would drop the adjustment is never taken. */
  lemma {:induction false} FinalScoreIsNearEngineScore(events: seq<Event>)
    requires Run(events).finalized.Some?
    ensures NearEngineScore(Run(events).finalized.value, ComputeScore(Run(events).session))
  {
    var before, e := Run(events[..|events| - 1]), events[|events| - 1];
    FinalScoreArises(before, e);
    if before.finalized.Some? && Step(before, e) == before {
      FinalScoreIsNearEngineScore(events[..|events| - 1]);
    } else {
      AdjustedIsNear(Step(before, e).session, e.proposal);
    }
  }

  lemma NoClueScore(s: Session)
    requires !s.evidence.usedClueAny && !s.evidence.resolutionConfirmed
    requires Get(s.evidence.usedClueByNpc, NPCS[0], 0) == 0 && Get(s.evidence.usedClueByNpc, NPCS[1], 0) == 0
    ensures ComputeScore(s).composite <= 83
  {
    assert TruthScore(s.player, s.evidence) <= 52;
  }

  lemma NearLowScore(final: Score, raw: Score)
    requires NearEngineScore(final, raw) && raw.composite <= 83
    ensures final.composite <= 86 && !final.grade.S?
  {
  }

  lemma NeverUsedEvidence(events: seq<Event>)
    requires forall i: nat, npc :: !UsedAt(events, i, npc)
    ensures var e := CaseRun(events).evidence;
            !e.usedClueAny && !e.resolutionConfirmed && forall npc :: Get(e.usedClueByNpc, npc, 0) == 0
  {
    CaseConfirmedExactly(events);
    forall npc: string
      ensures Get(CaseRun(events).evidence.usedClueByNpc, npc, 0) == 0
    {
      UsedExactly(events, npc);
    }
    RunFollowsCase(events);
    RunKeepsOk(events);
    assert CaseOf(Run(events)).evidence == Run(events).session.evidence;
  }

  /** A run that never used a clue never ends with the top grade, whatever is proposed. */
  lemma NoClueNoTopGrade(events: seq<Event>)
    requires forall i: nat, npc :: !UsedAt(events, i, npc)
    ensures Run(events).finalized.Some? ==> Run(events).finalized.value.composite <= 86 && !Run(events).finalized.value.grade.S?
  {
    NeverUsedEvidence(events);
    RunFollowsCase(events);
    assert CaseOf(Run(events)).evidence == Run(events).session.evidence;
    NoClueScore(Run(events).session);
    if Run(events).finalized.Some? {
      FinalScoreIsNearEngineScore(events);
      NearLowScore(Run(events).finalized.value, ComputeScore(Run(events).session));
    }
  }
}
