/** The open-world session engine: a session with a time budget, three phases, and gates on what raises the truth. */
module OpenWorld {
  import opened Outcomes

  datatype Action =
    | Move(target: string)
    | Interrogate(target: string)
    | Search
    | UseClue(target: string, clue: string)
    | Lie(target: string)
    | Ally(target: string)
    | Rest

  datatype Clue = Clue(id: string, truthValue: nat, pollutionRisk: nat)

  const TIME_BUDGET: nat := 100

  const CLUES: seq<Clue> := [Clue("clue-1", 14, 1), Clue("clue-2", 12, 0), Clue("clue-3", 16, 1), Clue("clue-4", 18, 0), Clue("clue-5", 20, 1)]
  const LOCATIONS: seq<string> := ["loc-1", "loc-2", "loc-3", "loc-4", "loc-5"]
  const NPCS: seq<string> := ["npc-1", "npc-2", "npc-3", "npc-4"]

  /** Picha and Baibua, by their places in the cast. */
  predicate IsCore(npc: string) {
    npc == NPCS[0] || npc == NPCS[1]
  }

  datatype Phase = Investigation | Corroboration | Resolution

  function PhaseOf(timeSpent: int): Phase {
    if timeSpent < 40 then Investigation else if timeSpent < 75 then Corroboration else Resolution
  }

  function Cost(a: Action): nat {
    match a
    case Move(_) => 12
    case Interrogate(_) => 14
    case Search => 10
    case UseClue(_, _) => 16
    case Lie(_) => 8
    case Ally(_) => 12
    case Rest => 9
  }

  function Clamp(v: int, lo: int, hi: int): (r: int)
    ensures lo <= hi ==> lo <= r <= hi
  {
    if v < lo then lo else if v > hi then hi else v
  }

  function ClampReal(v: real, lo: real, hi: real): real {
    if v < lo then lo else if v > hi then hi else v
  }

  function Round(x: real): int {
    (x + 0.5).Floor
  }

  function Get<V>(m: map<string, V>, key: string, otherwise: V): V {
    if key in m then m[key] else otherwise
  }

  /** The text under which repetitions of an action are counted. */
  function ActionKey(a: Action, location: string): string {
    match a
    case Move(target) => "MOVE:" + target
    case Interrogate(target) => "INTERROGATE:" + target
    case Search => "SEARCH:" + location
    case UseClue(target, clue) => "USE_CLUE:" + target + ":" + clue
    case Lie(target) => "LIE:" + target
    case Ally(target) => "ALLY:" + target
    case Rest => "REST"
  }

  function Novelty(repeat: nat): (r: real)
    ensures 0.0 < r <= 1.0
  {
    1.0 / (1.0 + repeat as real * 0.6)
  }

  /** The gain in truth an action proposes, before the phase has its say. */
  function Proposed(base: real, novelty: real): int {
    Round(base * novelty)
  }

  datatype World = World(timeTick: nat, heat: int, budgetBps: int)

  datatype Player = Player(
    location: string, dignity: int, relations: map<string, int>, pollution: int, truth: real, inventory: seq<Clue>)

  /** Which clues have been used on whom, and whether the core testimony has been confirmed. */
  datatype Evidence = Evidence(usedClueByNpc: map<string, nat>, usedClueAny: bool, resolutionConfirmed: bool)

  datatype Tallies = Tallies(actionCounts: map<string, nat>, lies: nat, allies: nat, rests: nat)

  datatype Session = Session(timeSpent: int, world: World, player: Player, evidence: Evidence, tallies: Tallies)

  const NewSession: Session :=
    Session(0, World(0, 0, 10_000),
            Player("loc-1", 70, map["npc-1" := 1, "npc-2" := 0, "npc-3" := 0, "npc-4" := 0], 0, 0.0, []),
            Evidence(map[], false, false), Tallies(map[], 0, 0, 0))

  function FindClue(clues: seq<Clue>, id: string): Option<Clue> {
    if clues == [] then None else if clues[0].id == id then Some(clues[0]) else FindClue(clues[1..], id)
  }

  /** The first clue of the world that the player does not hold. */
  function NextClue(clues: seq<Clue>, inventory: seq<Clue>): Option<Clue> {
    if clues == [] then None
    else if FindClue(inventory, clues[0].id).None? then Some(clues[0])
    else NextClue(clues[1..], inventory)
  }

  /** What of a proposed gain the phase lets through, and whether it confirms the resolution. */
  function Gate(timeSpent: int, e: Evidence, a: Action, proposed: real): (real, bool) {
    match PhaseOf(timeSpent)
    case Investigation => (proposed, false)
    case Corroboration =>
      if a.Search? then (proposed * 0.5, false)
      else if a.Interrogate? && Get(e.usedClueByNpc, a.target, 0) == 0 then (if proposed < 2.0 then proposed else 2.0, false)
      else (proposed, false)
    case Resolution =>
      if a.Interrogate? && IsCore(a.target) && e.usedClueAny && Get(e.usedClueByNpc, a.target, 0) > 0 then (proposed, true)
      else (0.0, false)
  }

  function Gained(s: Session, a: Action, proposed: int): Session {
    var (gain, confirms) := Gate(s.timeSpent, s.evidence, a, proposed as real);
    s.(player := s.player.(truth := ClampReal(s.player.truth + gain, 0.0, 120.0)),
       evidence := s.evidence.(resolutionConfirmed := s.evidence.resolutionConfirmed || confirms))
  }

  function Related(p: Player, npc: string, delta: int): Player {
    p.(relations := p.relations[npc := Clamp(Get(p.relations, npc, 0) + delta, -3, 3)])
  }

  function Heated(w: World, delta: int): World {
    w.(heat := Clamp(w.heat + delta, 0, 120))
  }

  function Polluted(p: Player, delta: int): Player {
    p.(pollution := Clamp(p.pollution + delta, 0, 12))
  }

  function Dignified(p: Player, delta: int): Player {
    p.(dignity := Clamp(p.dignity + (if delta > 0 then 1 else if delta < 0 then -1 else 0), 0, 100))
  }

  function Used(e: Evidence, npc: string): Evidence {
    e.(usedClueAny := true, usedClueByNpc := e.usedClueByNpc[npc := Get(e.usedClueByNpc, npc, 0) + 1])
  }

  /** The clock moves before anything else, so the phase is the one after the action's cost. */
  function Charged(s: Session, a: Action): Session {
    s.(timeSpent := Clamp(s.timeSpent + Cost(a), 0, TIME_BUDGET),
       world := World(s.world.timeTick + 1, s.world.heat, Clamp(s.world.budgetBps - Cost(a) * 14, 0, 10_000)))
  }

  function Searched(s: Session, novelty: real): Session {
    var hot := s.(world := Heated(s.world, 2));
    match NextClue(CLUES, s.player.inventory)
    case None => hot
    case Some(clue) =>
      var found := hot.(player := s.player.(inventory := s.player.inventory + [clue]));
      var gained := Gained(found, Search, Proposed(clue.truthValue as real, novelty));
      gained.(player := Polluted(gained.player, clue.pollutionRisk))
  }

  function Interrogated(s: Session, target: string, novelty: real): (Session, int) {
    var before := Get(s.player.relations, target, 0);
    var delta := if before >= 0 then 1 else -1;
    var base := if before >= 1 then 8.0 else 5.0;
    var gained := Gained(s.(player := Related(s.player, target, delta)), Interrogate(target), Proposed(base, novelty));
    (gained.(world := Heated(s.world, 4)), delta)
  }

  function ClueUsed(s: Session, target: string, clue: Clue, novelty: real): Session {
    var gained := Gained(s.(evidence := Used(s.evidence, target)), UseClue(target, clue.id), Proposed(clue.truthValue as real * 0.55, novelty));
    gained.(player := Polluted(Related(gained.player, target, 1), -1), world := Heated(s.world, 1))
  }

  /** The action's own effect, and the change in relation that dignity follows. */
  function Effect(s: Session, a: Action, novelty: real): (Session, int) {
    match a
    case Move(target) =>
      if target in LOCATIONS then (s.(player := s.player.(location := target), world := Heated(s.world, 2)), 0) else (s, 0)
    case Search => (Searched(s, novelty), 0)
    case Interrogate(target) => if target in NPCS then Interrogated(s, target, novelty) else (s, 0)
    case UseClue(target, clueId) =>
      var clue := FindClue(s.player.inventory, clueId);
      if clue.Some? && target in NPCS then (ClueUsed(s, target, clue.value, novelty), 1) else (s, 0)
    case Lie(target) => (s.(player := Polluted(Related(s.player, target, -1), 2), world := Heated(s.world, 4)), -1)
    case Ally(target) =>
      var delta := if Get(s.player.relations, target, 0) >= 0 then 1 else 0;
      (s.(player := Polluted(Related(s.player, target, delta), -delta), world := Heated(s.world, 1)), delta)
    case Rest => (s.(player := Polluted(s.player, -1), world := Heated(s.world, -10)), 0)
  }

  function Registered(t: Tallies, a: Action, key: string): Tallies {
    Tallies(t.actionCounts[key := Get(t.actionCounts, key, 0) + 1], t.lies + (if a.Lie? then 1 else 0),
            t.allies + (if a.Ally? then 1 else 0), t.rests + (if a.Rest? then 1 else 0))
  }

  /** One action on a session that is not completed. */
  function Applied(s: Session, a: Action): Session {
    var key := ActionKey(a, s.player.location);
    var (after, delta) := Effect(Charged(s, a), a, Novelty(Get(s.tallies.actionCounts, key, 0)));
    after.(tallies := Registered(s.tallies, a, key), player := Dignified(after.player, delta))
  }
}
