/** The graph store over whole runs: changes, anchors whose two halves may be separated by other changes, and restarts
    of the process at any point. */
module GraphRuns {
  import opened Outcomes
  import opened EdgeKeys
  import opened GraphStore

  datatype Op =
    | Ingest(event: Event)
    | Upsert(input: UpsertInput, now: int)
    | Anchor(at: int)
    | Begin(call: nat)
    | End(call: nat, at: int)
    | Restart

  datatype System = System(graph: Graph, disk: Option<Persisted>, pending: map<nat, (SnapshotHash, nat)>)

  const Start: System := System(EmptyGraph, None, map[])

  lemma {:induction false} Listing<K(!new), V>(m: map<K, V>) returns (values: seq<V>)
    ensures Lists(values, m)
    decreases |m|
  {
    if m == map[] {
      values := [];
      assert Enumerates([], values, m);
    } else {
      var k :| k in m;
      var smaller := m - {k};
      assert |smaller| < |m| by {
        assert smaller.Keys == m.Keys - {k};
        assert |m| == |m.Keys| && |smaller| == |smaller.Keys|;
      }
      var rest := Listing(smaller);
      var keys :| Enumerates(keys, rest, smaller);
      values := rest + [m[k]];
      assert Enumerates(keys + [k], values, m);
    }
  }

  lemma SomeFile(g: Graph)
    ensures exists p :: Stores(p, g)
  {
    var events := Listing(g.events);
    var relations := Listing(g.relations);
    var anchors := Listing(g.anchors);
    assert Stores(Persisted(g.snapshotVersion, events, relations, anchors), g);
  }

  /** The file a write leaves behind. */
  ghost function Written(g: Graph): (p: Persisted)
    ensures Stores(p, g)
  {
    SomeFile(g);
    var p :| Stores(p, g);
    p
  }

  ghost function Saved(s: System, g: Graph): System {
    s.(graph := g, disk := Some(Written(g)))
  }

  ghost function Step(s: System, op: Op): System {
    match op
    case Ingest(e) => Saved(s, Ingested(s.graph, e))
    case Upsert(input, now) => Saved(s, Upserted(s.graph, input, now))
    case Anchor(at) => Saved(s, Anchored(s.graph, Receipt(HashOf(s.graph), s.graph.snapshotVersion, at)))
    case Begin(call) => s.(pending := s.pending[call := Requested(s.graph)])
    case End(call, at) =>
      if call !in s.pending then s
      else
        var (hash, version) := s.pending[call];
        Saved(s, Anchored(s.graph, Receipt(hash, version, at))).(pending := s.pending - {call})
    case Restart => System(if s.disk.Some? then Hydrated(s.disk.value) else EmptyGraph, s.disk, map[])
  }

  ghost function Run(ops: seq<Op>): System {
    if ops == [] then Start else Step(Run(ops[..|ops| - 1]), ops[|ops| - 1])
  }

  function Mutations(ops: seq<Op>): nat {
    if ops == [] then 0
    else Mutations(ops[..|ops| - 1]) + if ops[|ops| - 1].Ingest? || ops[|ops| - 1].Upsert? then 1 else 0
  }

  // ----- Every run -----

  /** A receipt for the current version is for the current content. */
  ghost predicate Honest(hash: SnapshotHash, version: nat, g: Graph) {
    version <= g.snapshotVersion && (version == g.snapshotVersion ==> hash == HashOf(g))
  }

  ghost predicate HonestAnchors(anchors: map<nat, Receipt>, g: Graph) {
    forall v :: v in anchors ==> Honest(anchors[v].snapshotHash, anchors[v].snapshotVersion, g)
  }

  ghost predicate Inv(s: System) {
    && Wellformed(s.graph)
    && HonestAnchors(s.graph.anchors, s.graph)
    && (forall c :: c in s.pending ==> Honest(s.pending[c].0, s.pending[c].1, s.graph))
    && (s.disk.None? ==> s.graph == EmptyGraph)
    && (s.disk.Some? ==> Hydrated(s.disk.value).(anchors := s.graph.anchors) == s.graph
                         && HonestAnchors(Hydrated(s.disk.value).anchors, s.graph))
  }

  lemma {:induction false} FromListValues<K, V>(values: seq<V>, id: V -> K, k: K)
    requires k in FromList(values, id)
    ensures FromList(values, id)[k] in values
  {
    var n := |values| - 1;
    if k != id(values[n]) { FromListValues(values[..n], id, k); }
  }

  lemma RebuiltFrom<K(!new), V>(values: seq<V>, m: map<K, V>, id: V -> K, k: K) returns (x: K)
    requires Lists(values, m) && k in FromList(values, id)
    ensures x in m && m[x] == FromList(values, id)[k]
  {
    FromListValues(values, id, k);
    var keys :| Enumerates(keys, values, m);
    var i :| 0 <= i < |values| && values[i] == FromList(values, id)[k];
    x := keys[i];
  }

  lemma HydratedAnchors(p: Persisted, g: Graph)
    requires Stores(p, g) && HonestAnchors(g.anchors, g)
    ensures HonestAnchors(Hydrated(p).anchors, g)
  {
    forall v | v in FromList(p.anchors, AnchorVersion)
      ensures var r := FromList(p.anchors, AnchorVersion)[v]; Honest(r.snapshotHash, r.snapshotVersion, g)
    {
      var x := RebuiltFrom(p.anchors, g.anchors, AnchorVersion, v);
      assert Honest(g.anchors[x].snapshotHash, g.anchors[x].snapshotVersion, g);
    }
  }

  lemma SavedKeepsInv(s: System, g: Graph)
    requires Wellformed(g) && HonestAnchors(g.anchors, g)
    requires forall c :: c in s.pending ==> Honest(s.pending[c].0, s.pending[c].1, g)
    ensures Inv(Saved(s, g))
  {
    HydrateAfterPersist(Written(g), g);
    HydratedAnchors(Written(g), g);
  }

  lemma StepKeepsInv(s: System, op: Op)
    requires Inv(s)
    ensures Inv(Step(s, op))
  {
    match op
    case Ingest(e) => SavedKeepsInv(s, Ingested(s.graph, e));
    case Upsert(input, now) => SavedKeepsInv(s, Upserted(s.graph, input, now));
    case Anchor(at) => SavedKeepsInv(s, Anchored(s.graph, Receipt(HashOf(s.graph), s.graph.snapshotVersion, at)));
    case Begin(call) =>
    case End(call, at) =>
      if call in s.pending {
        SavedKeepsInv(s, Anchored(s.graph, Receipt(s.pending[call].0, s.pending[call].1, at)));
      }
    case Restart =>
  }

  lemma {:induction false} RunKeepsInv(ops: seq<Op>)
    ensures Inv(Run(ops))
  {
    if ops != [] {
      RunKeepsInv(ops[..|ops| - 1]);
      StepKeepsInv(Run(ops[..|ops| - 1]), ops[|ops| - 1]);
    }
  }

  /** The version counts the changes of the whole run, across restarts and whatever anchoring does. */
  lemma {:induction false} VersionCountsMutations(ops: seq<Op>)
    ensures Run(ops).graph.snapshotVersion == 1 + Mutations(ops)
  {
    if ops != [] {
      VersionCountsMutations(ops[..|ops| - 1]);
      RunKeepsInv(ops[..|ops| - 1]);
    }
  }

  /** What a reader of a snapshot relies on: an anchor found under the current version is for the current content. */
  ghost predicate AnchorIsCurrent(g: Graph) {
    g.snapshotVersion in g.anchors ==>
      g.anchors[g.snapshotVersion].snapshotHash == HashOf(g) && g.anchors[g.snapshotVersion].snapshotVersion == g.snapshotVersion
  }

  // ----- Anchoring in one step -----

  ghost predicate OneStepAnchors(ops: seq<Op>) {
    forall k :: 0 <= k < |ops| ==> !ops[k].Begin? && !ops[k].End?
  }

  function WithoutRestarts(ops: seq<Op>): seq<Op> {
    if ops == [] then []
    else
      var rest := WithoutRestarts(ops[..|ops| - 1]);
      if ops[|ops| - 1].Restart? then rest else rest + [ops[|ops| - 1]]
  }

  lemma KeyedStep(s: System, op: Op)
    requires Inv(s) && !op.Begin? && !op.End?
    requires Keyed(s.graph.anchors, AnchorVersion) && (s.disk.Some? ==> Hydrated(s.disk.value) == s.graph)
    ensures var s' := Step(s, op);
            Keyed(s'.graph.anchors, AnchorVersion) && (s'.disk.Some? ==> Hydrated(s'.disk.value) == s'.graph)
  {
    StepKeepsInv(s, op);
    var g := Step(s, op).graph;
    if !op.Restart? { HydrateAfterPersist(Written(g), g); }
  }

  lemma {:induction false} KeyedRuns(ops: seq<Op>)
    requires OneStepAnchors(ops)
    ensures var s := Run(ops);
            Keyed(s.graph.anchors, AnchorVersion) && (s.disk.Some? ==> Hydrated(s.disk.value) == s.graph)
  {
    if ops != [] {
      var before := ops[..|ops| - 1];
      KeyedRuns(before);
      RunKeepsInv(before);
      KeyedStep(Run(before), ops[|ops| - 1]);
    }
  }

  /** With anchoring in one step, every anchor found under the current version is current, and what a restart reads
      back is what was in memory. */
  lemma AtomicAnchorsAreCurrent(ops: seq<Op>)
    requires OneStepAnchors(ops)
    ensures AnchorIsCurrent(Run(ops).graph)
    ensures Run(ops + [Restart]).graph == Run(ops).graph
  {
    KeyedRuns(ops);
    RunKeepsInv(ops);
    assert (ops + [Restart])[..|ops|] == ops;
  }

  /** A run with restarts anywhere in it ends in the graph of the run without them. */
  lemma {:induction false} RestartsAreInvisible(ops: seq<Op>)
    requires OneStepAnchors(ops)
    ensures OneStepAnchors(WithoutRestarts(ops))
    ensures Run(ops).graph == Run(WithoutRestarts(ops)).graph
  {
    if ops != [] {
      var before, op := ops[..|ops| - 1], ops[|ops| - 1];
      RestartsAreInvisible(before);
      if op.Restart? {
        KeyedRuns(before);
        RunKeepsInv(before);
      } else {
        var rest := WithoutRestarts(before);
        assert (rest + [op])[..|rest|] == rest;
      }
    }
  }

  // ----- Anchoring in two halves -----

  ghost predicate LeavesCall(ops: seq<Op>, call: nat) {
    forall k :: 0 <= k < |ops| ==> !ops[k].Restart? && ops[k] != Begin(call) && !(ops[k].End? && ops[k].call == call)
  }

  lemma {:induction false} PendingStays(pre: seq<Op>, call: nat, mid: seq<Op>)
    requires LeavesCall(mid, call)
    ensures var s := Run(pre + [Begin(call)] + mid);
            call in s.pending && s.pending[call] == Requested(Run(pre).graph)
    ensures Mutations(pre + [Begin(call)] + mid) == Mutations(pre) + Mutations(mid)
  {
    var ops := pre + [Begin(call)];
    assert ops[..|pre|] == pre;
    if mid == [] {
      assert ops + mid == ops;
    } else {
      PendingStays(pre, call, mid[..|mid| - 1]);
      LastOfConcat(ops, mid);
    }
  }

  lemma LastOfConcat<T>(a: seq<T>, b: seq<T>)
    requires b != []
    ensures (a + b)[..|a + b| - 1] == a + b[..|b| - 1] && (a + b)[|a + b| - 1] == b[|b| - 1]
  {
  }

  /** The receipt filed at the end of an anchoring call is current exactly when nothing changed while it waited. */
  lemma RaceExactly(pre: seq<Op>, call: nat, mid: seq<Op>, at: int)
    requires LeavesCall(mid, call)
    ensures AnchorIsCurrent(Run(pre + [Begin(call)] + mid + [End(call, at)]).graph) <==> Mutations(mid) == 0
  {
    var ops := pre + [Begin(call)] + mid;
    PendingStays(pre, call, mid);
    assert (ops + [End(call, at)])[..|ops|] == ops;
    VersionCountsMutations(pre);
    VersionCountsMutations(ops);
    RunKeepsInv(ops);
  }

  /** A restart puts it right: afterwards every anchor is filed under the version it is for. */
  lemma RestartRepairs(ops: seq<Op>)
    ensures var s := Run(ops + [Restart]);
            Keyed(s.graph.anchors, AnchorVersion) && AnchorIsCurrent(s.graph)
  {
    assert (ops + [Restart])[..|ops|] == ops;
    RunKeepsInv(ops);
    RunKeepsInv(ops + [Restart]);
    var s := Run(ops);
    if s.disk.Some? { FromListKeyed(s.disk.value.anchors, AnchorVersion); }
  }

  // ----- Events -----

  /** The last event ingested under an identifier, from the operations alone. */
  function LastIngest(ops: seq<Op>, id: string): Option<Event> {
    if ops == [] then None
    else
      var op := ops[|ops| - 1];
      if op.Ingest? && op.event.eventId == id then Some(op.event) else LastIngest(ops[..|ops| - 1], id)
  }

  /** Every ingested event is kept, under its own identifier and as it was, across changes, restarts and split anchors; and
      nothing else is. */
  lemma {:induction false} EveryEventIsKept(ops: seq<Op>, id: string)
    ensures var events := Run(ops).graph.events;
            && (id in events <==> exists k :: 0 <= k < |ops| && ops[k].Ingest? && ops[k].event.eventId == id)
            && (id in events <==> LastIngest(ops, id).Some?)
            && (id in events ==> events[id] == LastIngest(ops, id).value)
  {
    if ops != [] {
      var before := ops[..|ops| - 1];
      EveryEventIsKept(before, id);
      RunContents(ops);
      if k :| 0 <= k < |before| && before[k].Ingest? && before[k].event.eventId == id { assert ops[k] == before[k]; }
    }
  }

  /** What one operation does to the two maps: a restart reads them back as they were. */
  lemma StepContents(s: System, op: Op)
    requires Inv(s)
    ensures Step(s, op).graph.events == if op.Ingest? then s.graph.events[op.event.eventId := op.event] else s.graph.events
    ensures Step(s, op).graph.relations ==
            if op.Upsert? then s.graph.relations[EdgeKey(op.input.triple) := EdgeOf(op.input, op.now)] else s.graph.relations
  {
    if op.Restart? && s.disk.Some? {
      assert Hydrated(s.disk.value).(anchors := s.graph.anchors) == s.graph;
    }
  }

  lemma RunContents(ops: seq<Op>)
    requires ops != []
    ensures var (g, before, op) := (Run(ops).graph, Run(ops[..|ops| - 1]).graph, ops[|ops| - 1]);
            && g.events == (if op.Ingest? then before.events[op.event.eventId := op.event] else before.events)
            && g.relations == if op.Upsert? then before.relations[EdgeKey(op.input.triple) := EdgeOf(op.input, op.now)] else before.relations
  {
    RunKeepsInv(ops[..|ops| - 1]);
    StepContents(Run(ops[..|ops| - 1]), ops[|ops| - 1]);
  }

  // ----- Edges -----

  /** The edge says what its last upsert said: its own triple and metadata, the time of the call, the weight clamped to
      0..100 and rounded, halves upward. */
  ghost predicate SaysUpsert(e: Edge, input: UpsertInput, now: int) {
    && e.edgeId == EdgeKey(input.triple) && e.triple == input.triple && e.metadata == input.metadata && e.updatedAt == now
    && 0 <= e.weight <= 100
    && (0.0 <= input.weight <= 100.0 ==> -0.5 < e.weight as real - input.weight <= 0.5)
    && (input.weight < 0.0 ==> e.weight == 0) && (input.weight > 100.0 ==> e.weight == 100)
  }

  /** The last upsert of a triple, from the operations alone. */
  function LastUpsert(ops: seq<Op>, t: Triple): Option<(UpsertInput, int)> {
    if ops == [] then None
    else
      var op := ops[|ops| - 1];
      if op.Upsert? && op.input.triple == t then Some((op.input, op.now)) else LastUpsert(ops[..|ops| - 1], t)
  }

  ghost predicate UnambiguousWallets(ops: seq<Op>) {
    forall k :: 0 <= k < |ops| && ops[k].Upsert? ==> !Ambiguous(ops[k].input.triple.fromWallet)
  }

  /** One edge for each triple of wallet, type and target, and the last write wins, across restarts and anchors. */
  lemma {:induction false} OneEdgePerTriple(ops: seq<Op>, t: Triple)
    requires UnambiguousWallets(ops) && !Ambiguous(t.fromWallet)
    ensures var relations := Run(ops).graph.relations;
            && (EdgeKey(t) in relations <==> LastUpsert(ops, t).Some?)
            && (EdgeKey(t) in relations ==>
                  SaysUpsert(relations[EdgeKey(t)], LastUpsert(ops, t).value.0, LastUpsert(ops, t).value.1))
  {
    if ops != [] {
      var before, op := ops[..|ops| - 1], ops[|ops| - 1];
      OneEdgePerTriple(before, t);
      RunContents(ops);
      if op.Upsert? {
        DistinctKeys(op.input.triple, t);
        EdgeSaysUpsert(op.input, op.now);
      }
    }
  }

  lemma EdgeSaysUpsert(input: UpsertInput, now: int)
    ensures SaysUpsert(EdgeOf(input, now), input, now)
  {
  }

  // ----- Anchors -----

  /** The last anchoring at a version, from the operations alone: its place among them. */
  function LastAnchor(ops: seq<Op>, version: nat): Option<nat> {
    if ops == [] then None
    else
      var before := ops[..|ops| - 1];
      if ops[|ops| - 1].Anchor? && 1 + Mutations(before) == version then Some(|before|) else LastAnchor(before, version)
  }

  lemma StepAnchors(s: System, op: Op)
    requires Inv(s) && !op.Begin? && !op.End? && (s.disk.Some? ==> Hydrated(s.disk.value) == s.graph)
    ensures var g := s.graph;
            Step(s, op).graph.anchors ==
            if op.Anchor?
            then g.anchors[g.snapshotVersion := Receipt(SnapshotHash(g.snapshotVersion, g.events, g.relations), g.snapshotVersion, op.at)]
            else g.anchors
  {
  }

  /** Every anchor is kept under the version it was made at, with the content and the time of then, across changes and
      restarts; a later anchor of the same version replaces it. */
  lemma {:induction false} EveryAnchorIsKept(ops: seq<Op>, version: nat)
    requires OneStepAnchors(ops)
    ensures var (anchors, last) := (Run(ops).graph.anchors, LastAnchor(ops, version));
            && (version in anchors <==> last.Some?)
            && (last.Some? ==>
                  && last.value < |ops| && ops[last.value].Anchor?
                  && var was := Run(ops[..last.value]).graph;
                     anchors[version] == Receipt(SnapshotHash(version, was.events, was.relations), version, ops[last.value].at))
  {
    if ops != [] {
      var before, op := ops[..|ops| - 1], ops[|ops| - 1];
      EveryAnchorIsKept(before, version);
      VersionCountsMutations(before);
      KeyedRuns(before);
      RunKeepsInv(before);
      StepAnchors(Run(before), op);
      var last := LastAnchor(before, version);
      if last.Some? { assert before[..last.value] == ops[..last.value]; }
    }
  }

  // ----- Hashes -----

  /** Two graphs with one hash have the same version, events and relations. */
  lemma HashDeterminesContent(g: Graph, h: Graph)
    requires HashOf(g) == HashOf(h)
    ensures g.snapshotVersion == h.snapshotVersion && g.events == h.events && g.relations == h.relations
  {
  }
}
