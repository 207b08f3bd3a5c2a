/** The open-world session as the engine holds it: one object, changed in place by every action until it is final. */
module OpenWorldEngine {
  import opened Outcomes
  import opened OpenWorld
  import opened OpenWorldScores

  class OpenWorldSession {
    var timeSpent: int
    var world: World
    var player: Player
    var evidence: Evidence
    var tallies: Tallies
    var finalized: Option<Score>

    ghost function View(): Session
      reads this
    {
      Session(timeSpent, world, player, evidence, tallies)
    }

    ghost function Playing(): Game
      reads this
    {
      Game(View(), finalized)
    }

    constructor ()
      ensures Playing() == Game(NewSession, None)
    {
      timeSpent, world, player, evidence, tallies :=
        NewSession.timeSpent, NewSession.world, NewSession.player, NewSession.evidence, NewSession.tallies;
      finalized := None;
    }

    method TruthGainAfterPhaseGate(a: Action, proposed: real) returns (gain: real)
      modifies this`evidence
      ensures gain == Gate(timeSpent, old(evidence), a, proposed).0
      ensures evidence == old(evidence).(resolutionConfirmed := old(evidence).resolutionConfirmed || Gate(timeSpent, old(evidence), a, proposed).1)
    {
      gain := proposed;
      var phase := PhaseOf(timeSpent);
      if phase == Corroboration {
        if a.Search? { gain := gain * 0.5; }
        if a.Interrogate? && Get(evidence.usedClueByNpc, a.target, 0) <= 0 {
          return if gain < 2.0 then gain else 2.0;
        }
      }
      if phase == Resolution {
        var hasCoreClue := a.Interrogate? && Get(evidence.usedClueByNpc, a.target, 0) > 0;
        if !(a.Interrogate? && IsCore(a.target) && evidence.usedClueAny && hasCoreClue) { return 0.0; }
        evidence := evidence.(resolutionConfirmed := true);
      }
    }

    method GainTruth(a: Action, proposed: int)
      modifies this`player, this`evidence
      ensures View() == Gained(old(View()), a, proposed)
    {
      var gain := TruthGainAfterPhaseGate(a, proposed as real);
      player := player.(truth := ClampReal(player.truth + gain, 0.0, 120.0));
    }

    method DoSearch(novelty: real)
      modifies this`world, this`player, this`evidence
      ensures View() == Searched(old(View()), novelty)
    {
      var clue := NextClue(CLUES, player.inventory);
      world := Heated(world, 2);
      if clue.Some? {
        player := player.(inventory := player.inventory + [clue.value]);
        GainTruth(Search, Proposed(clue.value.truthValue as real, novelty));
        player := Polluted(player, clue.value.pollutionRisk);
      }
    }

    method DoInterrogate(target: string, novelty: real) returns (relationDelta: int)
      modifies this`world, this`player, this`evidence
      ensures (View(), relationDelta) == Interrogated(old(View()), target, novelty)
    {
      var before := Get(player.relations, target, 0);
      relationDelta := if before >= 0 then 1 else -1;
      player := Related(player, target, relationDelta);
      GainTruth(Interrogate(target), Proposed(if before >= 1 then 8.0 else 5.0, novelty));
      world := Heated(world, 4);
    }

    method DoUseClue(target: string, clue: Clue, novelty: real)
      modifies this`world, this`player, this`evidence
      ensures View() == ClueUsed(old(View()), target, clue, novelty)
    {
      evidence := Used(evidence, target);
      GainTruth(UseClue(target, clue.id), Proposed(clue.truthValue as real * 0.55, novelty));
      player := Related(player, target, 1);
      player := Polluted(player, -1);
      world := Heated(world, 1);
    }

    method Perform(a: Action, novelty: real) returns (relationDelta: int)
      modifies this`world, this`player, this`evidence
      ensures (View(), relationDelta) == Effect(old(View()), a, novelty)
    {
      relationDelta := 0;
      match a {
        case Move(target) =>
          if target in LOCATIONS {
            player := player.(location := target);
            world := Heated(world, 2);
          }
        case Search => DoSearch(novelty);
        case Interrogate(target) =>
          if target in NPCS { relationDelta := DoInterrogate(target, novelty); }
        case UseClue(target, clueId) =>
          var clue := FindClue(player.inventory, clueId);
          if clue.Some? && target in NPCS {
            DoUseClue(target, clue.value, novelty);
            relationDelta := 1;
          }
        case Lie(target) =>
          player := Polluted(Related(player, target, -1), 2);
          world := Heated(world, 4);
          relationDelta := -1;
        case Ally(target) =>
          relationDelta := if Get(player.relations, target, 0) >= 0 then 1 else 0;
          player := Polluted(Related(player, target, relationDelta), -relationDelta);
          world := Heated(world, 1);
        case Rest =>
          world := Heated(world, -10);
          player := Polluted(player, -1);
      }
    }

    method ApplyAction(a: Action)
      modifies this`timeSpent, this`world, this`player, this`evidence, this`tallies
      ensures View() == Applied(old(View()), a)
    {
      var key := ActionKey(a, player.location);
      var novelty := Novelty(Get(tallies.actionCounts, key, 0));
      world := World(world.timeTick + 1, world.heat, Clamp(world.budgetBps - Cost(a) * 14, 0, 10_000));
      timeSpent := Clamp(timeSpent + Cost(a), 0, TIME_BUDGET);
      var relationDelta := Perform(a, novelty);
      tallies := Registered(tallies, a, key);
      player := Dignified(player, relationDelta);
    }

    /** Ends the session with the score, adjusted by what the language model proposed; a second call changes nothing. */
    method FinalizeSession(proposal: Delta) returns (score: Score)
      modifies this`finalized
      ensures Playing() == Finished(old(Playing()), proposal)
      ensures finalized == Some(score)
    {
      if finalized.Some? { return finalized.value; }
      var raw := ComputeScore(Session(timeSpent, world, player, evidence, tallies));
      score := Adjusted(raw, NormalizedDelta(proposal));
      finalized := Some(score);
    }

    method ApplyOpenWorldAction(a: Action, proposal: Delta)
      modifies this
      ensures Playing() == Played(old(Playing()), a, proposal)
    {
      if finalized.Some? { return; }
      ApplyAction(a);
      if timeSpent >= TIME_BUDGET { var _ := FinalizeSession(proposal); }
    }
  }
}
