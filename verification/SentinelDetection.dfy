/** The front of the sentinel's detection loop over whole traces of arrivals: dedupe by signature, then window. */
module SentinelDetection {
  import opened SentinelWindows

  /** One received event, with every reading of the clock made while it is handled. */
  datatype Arrival = Arrival(signature: string, event: Event, observedAt: int, evictAt: int, insertAt: int, pushAt: int)

  ghost predicate Ordered(a: Arrival) {
    a.observedAt <= a.evictAt <= a.insertAt <= a.pushAt
  }

  ghost predicate Before(a: Arrival, b: Arrival) {
    a.observedAt <= b.observedAt && a.pushAt <= b.evictAt
  }

  /** One clock that never goes back, one producer, one consumer. */
  ghost predicate InOrder(trace: seq<Arrival>) {
    && (forall i :: 0 <= i < |trace| ==> Ordered(trace[i]))
    && (forall i, j :: 0 <= i < j < |trace| ==> Before(trace[i], trace[j]))
  }

  predicate IsNew(log: seq<Arrival>, a: Arrival, ttl: nat) {
    forall k :: 0 <= k < |log| && log[k].signature == a.signature ==> a.evictAt - log[k].insertAt > ttl
  }

  /** The specification of the dedupe: the arrivals let through, remembered for ever. */
  function Accepted(trace: seq<Arrival>, ttl: nat): seq<Arrival> {
    if trace == [] then []
    else
      var log := Accepted(trace[..|trace| - 1], ttl);
      var a := trace[|trace| - 1];
      if IsNew(log, a, ttl) then log + [a] else log
  }

  function Samples(log: seq<Arrival>): (r: seq<EventSample>)
    ensures |r| == |log|
    ensures forall k :: 0 <= k < |log| ==> r[k] == Stamped(log[k].observedAt, log[k].event)
  {
    seq(|log|, k requires 0 <= k < |log| => Stamped(log[k].observedAt, log[k].event))
  }

  function Signatures(log: seq<Arrival>): (r: seq<Stamped<string>>)
    ensures |r| == |log|
    ensures forall k :: 0 <= k < |log| ==> r[k] == Stamped(log[k].insertAt, log[k].signature)
  {
    seq(|log|, k requires 0 <= k < |log| => Stamped(log[k].insertAt, log[k].signature))
  }

  lemma {:induction false} AcceptedIsInOrder(trace: seq<Arrival>, ttl: nat)
    requires InOrder(trace)
    ensures InOrder(Accepted(trace, ttl))
    ensures forall a :: a in Accepted(trace, ttl) ==> a in trace
  {
    if trace != [] {
      var last := |trace| - 1;
      AcceptedIsInOrder(trace[..last], ttl);
      forall a | a in Accepted(trace[..last], ttl)
        ensures Before(a, trace[last])
      {
        assert a in trace[..last];
      }
    }
  }

  /** Two accepted arrivals with one signature lie more than the time to live apart, and every refused arrival follows
      an accepted one with its signature by at most that much. */
  lemma {:induction false} AcceptedExactlyOncePerTtl(trace: seq<Arrival>, ttl: nat)
    requires InOrder(trace)
    ensures forall i, j :: 0 <= i < j < |Accepted(trace, ttl)| && Accepted(trace, ttl)[i].signature == Accepted(trace, ttl)[j].signature
              ==> Accepted(trace, ttl)[j].evictAt - Accepted(trace, ttl)[i].insertAt > ttl
    ensures forall a :: a in trace && a !in Accepted(trace, ttl) ==>
              exists b :: b in Accepted(trace, ttl) && b.signature == a.signature && a.evictAt - b.insertAt <= ttl
  {
    if trace != [] {
      var last := |trace| - 1;
      var prefix := trace[..last];
      var log := Accepted(prefix, ttl);
      assert InOrder(prefix);
      AcceptedExactlyOncePerTtl(prefix, ttl);
      forall a | a in trace && a !in Accepted(trace, ttl)
        ensures exists b :: b in Accepted(trace, ttl) && b.signature == a.signature && a.evictAt - b.insertAt <= ttl
      {
        if a in prefix {
          var b :| b in log && b.signature == a.signature && a.evictAt - b.insertAt <= ttl;
          assert b in Accepted(trace, ttl);
        } else {
          assert a == trace[last];
          var k :| 0 <= k < |log| && log[k].signature == a.signature && a.evictAt - log[k].insertAt <= ttl;
          assert log[k] in Accepted(trace, ttl);
        }
      }
    }
  }

  ghost predicate CountedTwice(log: seq<Arrival>, now: int, window: nat) {
    exists i, j :: 0 <= i < j < |log| && log[i].signature == log[j].signature
                   && now - log[i].observedAt <= window && now - log[j].observedAt <= window
  }

  /** No signature is in the window twice, at any time after the trace, when the dedupe remembers as long as the window. */
  lemma OncePerWindow(trace: seq<Arrival>, ttl: nat, window: nat, now: int)
    requires InOrder(trace)
    requires ttl >= window
    requires trace != [] ==> trace[|trace| - 1].pushAt <= now
    ensures !CountedTwice(Accepted(trace, ttl), now, window)
  {
    var log := Accepted(trace, ttl);
    AcceptedExactlyOncePerTtl(trace, ttl);
    AcceptedIsInOrder(trace, ttl);
    forall i, j | 0 <= i < j < |log| && log[i].signature == log[j].signature
      ensures now - log[i].observedAt > window
    {
      assert log[j] in trace;
      var k :| 0 <= k < |trace| && trace[k] == log[j];
      assert Ordered(log[i]) && Ordered(log[j]) && trace[k].evictAt <= trace[|trace| - 1].pushAt by {
        if k < |trace| - 1 { assert trace[k].pushAt <= trace[|trace| - 1].evictAt && Ordered(trace[|trace| - 1]); }
      }
    }
  }

  /** With a shorter memory one signature can fill the window: the condition above is the exact one. */
  lemma TwicePerWindow(event: Event, ttl: nat, window: nat) returns (trace: seq<Arrival>, now: int)
    requires ttl < window
    ensures InOrder(trace) && trace != [] && trace[|trace| - 1].pushAt <= now
    ensures CountedTwice(Accepted(trace, ttl), now, window)
  {
    var first, second := Arrival("s", event, 0, 0, 0, 0), Arrival("s", event, 0, ttl + 1, ttl + 1, ttl + 1);
    trace, now := [first, second], ttl + 1;
    assert trace[..1] == [first] && [first][..0] == [];
    assert Accepted([], ttl) == [];
    assert Accepted([first], ttl) == [first];
    var log := Accepted(trace, ttl);
    assert log == [first, second];
    assert log[0].signature == log[1].signature;
  }

  // ----- The loop -----

  lemma SortedLogs(log: seq<Arrival>)
    requires InOrder(log)
    ensures Sorted(Samples(log)) && Sorted(Signatures(log))
  {
    forall i, j | 0 <= i < j < |log|
      ensures log[i].insertAt <= log[j].insertAt
    {
      assert Ordered(log[i]) && Ordered(log[j]);
    }
  }

  lemma NewnessAgrees(log: seq<Arrival>, a: Arrival, ttl: nat)
    ensures IsNew(log, a, ttl) <==> !AcceptedWithin(Signatures(log), a.signature, a.evictAt, ttl)
  {
    var signatures := Signatures(log);
    if !IsNew(log, a, ttl) {
      var k :| 0 <= k < |log| && log[k].signature == a.signature && a.evictAt - log[k].insertAt <= ttl;
      assert signatures[k].item == a.signature;
    }
  }

  /** The last time the window was evicted: the push of the last accepted arrival. */
  function LastPush(log: seq<Arrival>): int {
    if log == [] then 0 else log[|log| - 1].pushAt
  }

  /** The two classes hold the state the specification gives for the arrivals accepted so far. */
  ghost predicate Agrees(dedupe: SignatureDedupe, window: SlidingWindow, log: seq<Arrival>, ttl: nat, windowLen: nat)
    reads dedupe, window
  {
    && dedupe.ttl == ttl && dedupe.Valid() && window.Valid(windowLen)
    && dedupe.accepted == Signatures(log) && window.pushed == Samples(log)
    && window.samples == Recent(Samples(log), LastPush(log), windowLen)
  }

  lemma LongerLog(log: seq<Arrival>, a: Arrival)
    requires Ordered(a) && InOrder(log) && forall b :: b in log ==> Before(b, a)
    ensures Sorted(Samples(log + [a]))
    ensures Signatures(log + [a]) == Signatures(log) + [Stamped(a.insertAt, a.signature)]
    ensures Samples(log + [a]) == Samples(log) + [Stamped(a.observedAt, a.event)]
    ensures LastPush(log + [a]) == a.pushAt
  {
    assert InOrder(log + [a]);
    SortedLogs(log + [a]);
  }

  /** One turn of the loop. */
  method Absorb(dedupe: SignatureDedupe, window: SlidingWindow, a: Arrival, ghost log: seq<Arrival>, ghost ttl: nat, windowLen: nat)
    returns (isNew: bool)
    requires Agrees(dedupe, window, log, ttl, windowLen)
    requires Ordered(a) && InOrder(log) && (forall b :: b in log ==> Before(b, a))
    requires dedupe.clock <= a.evictAt && window.clock <= a.evictAt
    modifies dedupe, window
    ensures isNew <==> IsNew(log, a, ttl)
    ensures Agrees(dedupe, window, if isNew then log + [a] else log, ttl, windowLen)
    ensures dedupe.clock <= a.pushAt && window.clock <= a.pushAt
  {
    NewnessAgrees(log, a, ttl);
    isNew := dedupe.InsertIfNew(a.signature, a.evictAt, a.insertAt);
    if isNew {
      LongerLog(log, a);
      window.Push(Stamped(a.observedAt, a.event), windowLen, a.pushAt);
    }
  }

  lemma AcceptedStep(trace: seq<Arrival>, ttl: nat, i: nat)
    requires InOrder(trace) && i < |trace|
    ensures var log := Accepted(trace[..i], ttl);
            && InOrder(log) && (forall b :: b in log ==> Before(b, trace[i]))
            && Accepted(trace[..i + 1], ttl) == if IsNew(log, trace[i], ttl) then log + [trace[i]] else log
    ensures Ordered(trace[i]) && (i + 1 < |trace| ==> trace[i].pushAt <= trace[i + 1].evictAt)
  {
    AcceptedIsInOrder(trace[..i], ttl);
    forall b | b in Accepted(trace[..i], ttl)
      ensures Before(b, trace[i])
    {
      assert b in trace[..i];
    }
    assert trace[..i + 1][..i] == trace[..i];
    assert i + 1 < |trace| ==> Before(trace[i], trace[i + 1]);
  }

  /** The loop on a whole trace: what the window holds at the end is what the specification says. */
  method DetectionLoop(trace: seq<Arrival>, ttl: nat, windowLen: nat) returns (samples: seq<EventSample>)
    requires InOrder(trace)
    ensures samples == Recent(Samples(Accepted(trace, ttl)), LastPush(Accepted(trace, ttl)), windowLen)
  {
    ghost var start := if trace == [] then 0 else trace[0].evictAt;
    var dedupe := new SignatureDedupe(ttl, start);
    var window := new SlidingWindow(start);
    ghost var log: seq<Arrival> := [];
    for i := 0 to |trace|
      invariant fresh(dedupe) && fresh(window)
      invariant log == Accepted(trace[..i], ttl)
      invariant Agrees(dedupe, window, log, ttl, windowLen)
      invariant i < |trace| ==> dedupe.clock <= trace[i].evictAt && window.clock <= trace[i].evictAt
    {
      AcceptedStep(trace, ttl, i);
      var isNew := Absorb(dedupe, window, trace[i], log, ttl, windowLen);
      log := if isNew then log + [trace[i]] else log;
    }
    assert trace[..|trace|] == trace;
    samples := window.samples;
  }
}
