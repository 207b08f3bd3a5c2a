/** The fan-pass hub's graph store: events, relation edges and snapshot anchors in memory, written out as a whole
    after every change and read back when a process starts. A stored file is three lists and a version; the order of
    the lists, and the encoding as text, are abstracted. */
module GraphStore {
  import opened Outcomes
  import opened EdgeKeys

  datatype Event = Event(eventId: string, wallet: string, eventType: string, assetId: string, occurredAt: int, ingestedAt: int)

  datatype Edge = Edge(edgeId: string, triple: Triple, weight: int, metadata: string, updatedAt: int)

  datatype UpsertInput = UpsertInput(triple: Triple, weight: real, metadata: string)

  /** A digest of a snapshot, modelled by what it is a digest of. */
  datatype SnapshotHash = SnapshotHash(version: nat, events: map<string, Event>, relations: map<string, Edge>)

  datatype Receipt = Receipt(snapshotHash: SnapshotHash, snapshotVersion: nat, anchoredAt: int)

  datatype Graph = Graph(
    events: map<string, Event>, relations: map<string, Edge>, snapshotVersion: nat, anchors: map<nat, Receipt>)

  const EmptyGraph: Graph := Graph(map[], map[], 1, map[])

  function HashOf(g: Graph): SnapshotHash {
    SnapshotHash(g.snapshotVersion, g.events, g.relations)
  }

  /** Math.round, then clamp. */
  function RoundedWeight(weight: real): (r: int)
    ensures 0 <= r <= 100
    ensures -0.5 <= weight < 100.5 ==> -0.5 < r as real - weight <= 0.5
    ensures (weight < 0.0 ==> r == 0) && (weight > 100.0 ==> r == 100)
  {
    var rounded := (weight + 0.5).Floor;
    if rounded < 0 then 0 else if rounded > 100 then 100 else rounded
  }

  function EdgeOf(input: UpsertInput, now: int): Edge {
    Edge(EdgeKey(input.triple), input.triple, RoundedWeight(input.weight), input.metadata, now)
  }

  function Ingested(g: Graph, e: Event): Graph {
    g.(events := g.events[e.eventId := e], snapshotVersion := g.snapshotVersion + 1)
  }

  function Upserted(g: Graph, input: UpsertInput, now: int): Graph {
    g.(relations := g.relations[EdgeKey(input.triple) := EdgeOf(input, now)], snapshotVersion := g.snapshotVersion + 1)
  }

  /** What an anchoring call sends to the chain before it waits. */
  function Requested(g: Graph): (SnapshotHash, nat) {
    (HashOf(g), g.snapshotVersion)
  }

  /** The end of an anchoring call files the receipt under the version the store has by then. */
  function Anchored(g: Graph, receipt: Receipt): Graph {
    g.(anchors := g.anchors[g.snapshotVersion := receipt])
  }

  // ----- The file -----

  datatype Persisted = Persisted(snapshotVersion: int, events: seq<Event>, relations: seq<Edge>, anchors: seq<Receipt>)

  function EventId(e: Event): string {
    e.eventId
  }

  function EdgeId(e: Edge): string {
    e.edgeId
  }

  function AnchorVersion(r: Receipt): nat {
    r.snapshotVersion
  }

  /** A map built from a list: a later entry with the same key wins. */
  function FromList<K(==), V>(values: seq<V>, id: V -> K): map<K, V> {
    if values == [] then map[]
    else
      var last := values[|values| - 1];
      FromList(values[..|values| - 1], id)[id(last) := last]
  }

  /** The list holds the values of the map, each once. */
  ghost predicate Lists<K(!new), V>(values: seq<V>, m: map<K, V>) {
    exists keys: seq<K> :: Enumerates(keys, values, m)
  }

  ghost predicate Enumerates<K(!new), V>(keys: seq<K>, values: seq<V>, m: map<K, V>) {
    && |keys| == |values|
    && (forall i, j :: 0 <= i < j < |keys| ==> keys[i] != keys[j])
    && (forall k :: k in m <==> k in keys)
    && (forall i :: 0 <= i < |keys| ==> keys[i] in m && m[keys[i]] == values[i])
  }

  ghost predicate Keyed<K, V>(m: map<K, V>, id: V -> K) {
    forall k :: k in m ==> id(m[k]) == k
  }

  method ValuesOf<K(==,!new), V>(m: map<K, V>) returns (values: seq<V>)
    ensures Lists(values, m)
  {
    values := [];
    ghost var keys: seq<K> := [];
    var left := m.Keys;
    while left != {}
      invariant left <= m.Keys
      invariant forall k :: k in m <==> k in left || k in keys
      invariant forall k :: k in keys ==> k !in left
      invariant |keys| == |values|
      invariant forall i, j :: 0 <= i < j < |keys| ==> keys[i] != keys[j]
      invariant forall i :: 0 <= i < |keys| ==> keys[i] in m && m[keys[i]] == values[i]
      decreases left
    {
      var k :| k in left;
      values, keys, left := values + [m[k]], keys + [k], left - {k};
    }
    assert Enumerates(keys, values, m);
  }

  lemma {:induction false} FromListEnumerated<K(!new), V>(keys: seq<K>, values: seq<V>, m: map<K, V>, id: V -> K)
    requires Enumerates(keys, values, m) && Keyed(m, id)
    ensures FromList(values, id) == m
  {
    if values == [] {
      assert m == map[];
    } else {
      var n := |values| - 1;
      var k := keys[n];
      var smaller := m - {k};
      assert forall x :: x in keys <==> x in keys[..n] || x == k;
      assert Enumerates(keys[..n], values[..n], smaller);
      FromListEnumerated(keys[..n], values[..n], smaller, id);
      assert m == smaller[k := values[n]];
    }
  }

  lemma {:induction false} FromListKeyed<K, V>(values: seq<V>, id: V -> K)
    ensures Keyed(FromList(values, id), id)
  {
    if values != [] { FromListKeyed(values[..|values| - 1], id); }
  }

  /** Listing a map and rebuilding it gives the map back exactly when every value carries its own key. */
  lemma ListRoundTrip<K(!new), V>(values: seq<V>, m: map<K, V>, id: V -> K)
    requires Lists(values, m)
    ensures FromList(values, id) == m <==> Keyed(m, id)
  {
    FromListKeyed(values, id);
    if Keyed(m, id) {
      var keys :| Enumerates(keys, values, m);
      FromListEnumerated(keys, values, m, id);
    }
  }

  /** The file stores the graph. */
  ghost predicate Stores(p: Persisted, g: Graph) {
    && p.snapshotVersion == g.snapshotVersion
    && Lists(p.events, g.events) && Lists(p.relations, g.relations) && Lists(p.anchors, g.anchors)
  }

  function Hydrated(p: Persisted): Graph {
    Graph(FromList(p.events, EventId), FromList(p.relations, EdgeId), if p.snapshotVersion < 1 then 1 else p.snapshotVersion,
          FromList(p.anchors, AnchorVersion))
  }

  ghost predicate Wellformed(g: Graph) {
    g.snapshotVersion >= 1 && Keyed(g.events, EventId) && Keyed(g.relations, EdgeId)
  }

  /** Reading back what was written gives the graph if and only if each anchor is filed under the version it is for. */
  lemma HydrateAfterPersist(p: Persisted, g: Graph)
    requires Stores(p, g) && Wellformed(g)
    ensures Hydrated(p).(anchors := g.anchors) == g
    ensures Hydrated(p) == g <==> Keyed(g.anchors, AnchorVersion)
  {
    ListRoundTrip(p.events, g.events, EventId);
    ListRoundTrip(p.relations, g.relations, EdgeId);
    ListRoundTrip(p.anchors, g.anchors, AnchorVersion);
  }

  // ----- The store -----

  class HubGraphStore {
    var events: map<string, Event>
    var relations: map<string, Edge>
    var snapshotVersion: nat
    var anchorBySnapshotVersion: map<nat, Receipt>
    var loadedFromDisk: bool
    var disk: Option<Persisted>

    ghost function View(): Graph
      reads this
    {
      Graph(events, relations, snapshotVersion, anchorBySnapshotVersion)
    }

    /** The file, once there is one, stores the state. */
    ghost predicate Saved()
      reads this
    {
      disk.Some? && Stores(disk.value, View())
    }

    /** A new process: default state, the file as it was left. */
    constructor (disk: Option<Persisted>)
      ensures View() == if disk.Some? then Hydrated(disk.value) else EmptyGraph
      ensures this.disk == disk
    {
      events, relations, snapshotVersion, anchorBySnapshotVersion := map[], map[], 1, map[];
      loadedFromDisk, this.disk := false, disk;
      new;
      HydrateStateIfNeeded();
    }

    method HydrateStateIfNeeded()
      modifies this
      ensures loadedFromDisk && disk == old(disk)
      ensures View() == if !old(loadedFromDisk) && disk.Some? then Hydrated(disk.value) else old(View())
    {
      if loadedFromDisk { return; }
      if disk.Some? {
        var p := disk.value;
        events := BuildMap(p.events, EventId);
        relations := BuildMap(p.relations, EdgeId);
        anchorBySnapshotVersion := BuildMap(p.anchors, AnchorVersion);
        snapshotVersion := if p.snapshotVersion < 1 then 1 else p.snapshotVersion;
      }
      loadedFromDisk := true;
    }

    method WritePersistedState()
      modifies this`disk
      ensures Saved()
    {
      var eventList := ValuesOf(events);
      var relationList := ValuesOf(relations);
      var anchorList := ValuesOf(anchorBySnapshotVersion);
      disk := Some(Persisted(snapshotVersion, eventList, relationList, anchorList));
    }

    method IngestGraphEvent(e: Event) returns (version: nat)
      modifies this
      ensures View() == Ingested(old(View()), e) && version == snapshotVersion
      ensures Saved() && loadedFromDisk == old(loadedFromDisk)
    {
      events := events[e.eventId := e];
      snapshotVersion := snapshotVersion + 1;
      WritePersistedState();
      return snapshotVersion;
    }

    method UpsertRelationEdge(input: UpsertInput, now: int) returns (id: string, version: nat)
      modifies this
      ensures View() == Upserted(old(View()), input, now) && id == EdgeKey(input.triple) && version == snapshotVersion
      ensures Saved() && loadedFromDisk == old(loadedFromDisk)
    {
      id := EdgeKey(input.triple);
      relations := relations[id := EdgeOf(input, now)];
      snapshotVersion := snapshotVersion + 1;
      WritePersistedState();
      version := snapshotVersion;
    }

    /** What anchoring does once the chain has answered. */
    method FinishAnchor(receipt: Receipt)
      modifies this
      ensures View() == Anchored(old(View()), receipt)
      ensures Saved() && loadedFromDisk == old(loadedFromDisk)
    {
      anchorBySnapshotVersion := anchorBySnapshotVersion[snapshotVersion := receipt];
      WritePersistedState();
    }
  }

  method BuildMap<K(==), V>(values: seq<V>, id: V -> K) returns (m: map<K, V>)
    ensures m == FromList(values, id)
  {
    m := map[];
    for i := 0 to |values|
      invariant m == FromList(values[..i], id)
    {
      assert values[..i + 1][..i] == values[..i];
      m := m[id(values[i]) := values[i]];
    }
    assert values[..|values|] == values;
  }
}
