/** The sentinel's two time-bounded queues: the signature dedupe and the sliding window of samples. Both evict from
    the front only; both are shown to be views of a log that nothing is ever removed from. Times are `Instant`s. */
module SentinelWindows {

  datatype Stamped<T> = Stamped(at: int, item: T)

  predicate Expired<T>(e: Stamped<T>, now: int, span: nat) {
    now - e.at > span
  }

  /** The eviction loop: drop expired entries until the front is not expired. */
  function DropExpired<T>(log: seq<Stamped<T>>, now: int, span: nat): seq<Stamped<T>> {
    if log == [] || !Expired(log[0], now, span) then log else DropExpired(log[1..], now, span)
  }

  /** The entries of a log that are at most `span` old. */
  function Recent<T>(log: seq<Stamped<T>>, now: int, span: nat): seq<Stamped<T>> {
    if log == [] then []
    else (if Expired(log[0], now, span) then [] else [log[0]]) + Recent(log[1..], now, span)
  }

  predicate Sorted<T>(log: seq<Stamped<T>>) {
    forall i, j :: 0 <= i < j < |log| ==> log[i].at <= log[j].at
  }

  lemma {:induction false} RecentLength<T>(log: seq<Stamped<T>>, now: int, span: nat)
    ensures |Recent(log, now, span)| <= |log|
    ensures |Recent(log, now, span)| == |log| <==> forall k :: 0 <= k < |log| ==> !Expired(log[k], now, span)
    ensures |Recent(log, now, span)| == |log| ==> Recent(log, now, span) == log
  {
    if log != [] {
      RecentLength(log[1..], now, span);
      assert forall k :: 1 <= k < |log| ==> log[k] == log[1..][k - 1];
    }
  }

  lemma {:induction false} RecentMembers<T>(log: seq<Stamped<T>>, now: int, span: nat, e: Stamped<T>)
    ensures e in Recent(log, now, span) <==> e in log && !Expired(e, now, span)
  {
    if log != [] { RecentMembers(log[1..], now, span, e); }
  }

  predicate ExpiredFirst<T>(log: seq<Stamped<T>>, now: int, span: nat) {
    forall i, j :: 0 <= i < j < |log| && Expired(log[j], now, span) ==> Expired(log[i], now, span)
  }

  lemma ExpiredFirstFromTail<T>(log: seq<Stamped<T>>, now: int, span: nat)
    requires log != []
    ensures Expired(log[0], now, span) ==> (ExpiredFirst(log, now, span) <==> ExpiredFirst(log[1..], now, span))
    ensures !Expired(log[0], now, span) ==>
              (ExpiredFirst(log, now, span) <==> forall k :: 0 <= k < |log| ==> !Expired(log[k], now, span))
  {
    var tail := log[1..];
    assert forall k :: 0 <= k < |tail| ==> tail[k] == log[k + 1];
    if Expired(log[0], now, span) && ExpiredFirst(tail, now, span) {
      forall i, j | 0 <= i < j < |log| && Expired(log[j], now, span)
        ensures Expired(log[i], now, span)
      {
        if i > 0 { assert log[i] == tail[i - 1] && log[j] == tail[j - 1]; }
      }
    }
  }

  /** Evicting from the front leaves exactly the recent entries if and only if no expired entry lies behind a fresh one. */
  lemma {:induction false} FrontEvictionIsExact<T>(log: seq<Stamped<T>>, now: int, span: nat)
    ensures DropExpired(log, now, span) == Recent(log, now, span) <==> ExpiredFirst(log, now, span)
  {
    if log != [] {
      ExpiredFirstFromTail(log, now, span);
      if Expired(log[0], now, span) {
        FrontEvictionIsExact(log[1..], now, span);
      } else {
        RecentLength(log, now, span);
      }
    }
  }

  lemma SortedEvictionIsExact<T>(log: seq<Stamped<T>>, now: int, span: nat)
    requires Sorted(log)
    ensures DropExpired(log, now, span) == Recent(log, now, span)
  {
    FrontEvictionIsExact(log, now, span);
  }

  /** Evicting early and often forgets nothing: what an eviction dropped, any later eviction of the whole log drops too. */
  lemma {:induction false} EvictionComposes<T>(log: seq<Stamped<T>>, tail: seq<Stamped<T>>, now: int, later: int, span: nat)
    requires now <= later
    ensures DropExpired(DropExpired(log, now, span) + tail, later, span) == DropExpired(log + tail, later, span)
  {
    if log != [] && Expired(log[0], now, span) {
      EvictionComposes(log[1..], tail, now, later, span);
      assert (log + tail)[1..] == log[1..] + tail;
    }
  }

  lemma {:induction false} FreshStays<T>(log: seq<Stamped<T>>, e: Stamped<T>, now: int, span: nat)
    requires !Expired(e, now, span)
    ensures DropExpired(log + [e], now, span) == DropExpired(log, now, span) + [e]
  {
    if log != [] {
      assert (log + [e])[1..] == log[1..] + [e];
      if Expired(log[0], now, span) { FreshStays(log[1..], e, now, span); }
    } else {
      assert log + [e] == [e];
    }
  }

  // ----- The sliding window -----

  datatype Event = Event(observedUnixMs: nat, effectiveVelocityBps: int, dignityScore: nat, userMode: nat)

  type EventSample = Stamped<Event>

  class SlidingWindow {
    var samples: seq<EventSample>
    ghost var pushed: seq<EventSample>
    ghost var clock: int

    /** The window is what one eviction of everything ever pushed would leave. */
    ghost predicate Valid(window: nat)
      reads this
    {
      samples == DropExpired(pushed, clock, window)
    }

    constructor (ghost start: int)
      ensures forall window :: Valid(window)
      ensures pushed == [] && clock == start
    {
      samples, pushed := [], [];
      clock := start;
    }

    method EvictExpired(window: nat, now: int)
      modifies this`samples
      ensures samples == DropExpired(old(samples), now, window)
    {
      while samples != [] && Expired(samples[0], now, window)
        invariant DropExpired(samples, now, window) == DropExpired(old(samples), now, window)
      {
        samples := samples[1..];
      }
    }

    /** `now` is the reading of the clock the eviction makes after the push. */
    method Push(sample: EventSample, window: nat, now: int)
      requires Valid(window) && clock <= now
      modifies this
      ensures Valid(window) && clock == now
      ensures pushed == old(pushed) + [sample]
      ensures Sorted(pushed) ==> samples == Recent(pushed, now, window)
    {
      samples := samples + [sample];
      EvictExpired(window, now);
      EvictionComposes(pushed, [sample], clock, now, window);
      pushed := pushed + [sample];
      clock := now;
      if Sorted(pushed) { SortedEvictionIsExact(pushed, now, window); }
    }
  }

  // ----- The dedupe -----

  predicate AcceptedWithin(accepted: seq<Stamped<string>>, signature: string, now: int, ttl: nat) {
    exists k :: 0 <= k < |accepted| && accepted[k].item == signature && !Expired(accepted[k], now, ttl)
  }

  ghost predicate DistinctItems<T>(log: seq<Stamped<T>>) {
    forall i, j :: 0 <= i < j < |log| ==> log[i].item != log[j].item
  }

  ghost function Items<T>(log: seq<Stamped<T>>): set<T> {
    set k | 0 <= k < |log| :: log[k].item
  }

  class SignatureDedupe {
    const ttl: nat
    var ordered: seq<Stamped<string>>
    var hashes: set<string>
    ghost var accepted: seq<Stamped<string>>
    ghost var evicted: int
    ghost var clock: int

    /** The queue is what the last eviction would leave of the whole log; the set indexes the queue. */
    ghost predicate Valid()
      reads this
    {
      && Sorted(accepted)
      && (forall k :: 0 <= k < |accepted| ==> accepted[k].at <= clock)
      && evicted <= clock
      && ordered == DropExpired(accepted, evicted, ttl)
      && DistinctItems(ordered)
      && hashes == Items(ordered)
    }

    constructor (ttl: nat, ghost start: int)
      ensures Valid() && accepted == [] && this.ttl == ttl && clock == start
    {
      this.ttl := ttl;
      ordered, hashes, accepted := [], {}, [];
      evicted, clock := start, start;
    }

    method EvictExpired(now: int)
      requires DistinctItems(ordered) && hashes == Items(ordered)
      modifies this`ordered, this`hashes
      ensures ordered == DropExpired(old(ordered), now, ttl)
      ensures DistinctItems(ordered) && hashes == Items(ordered)
    {
      while ordered != [] && Expired(ordered[0], now, ttl)
        invariant DropExpired(ordered, now, ttl) == DropExpired(old(ordered), now, ttl)
        invariant DistinctItems(ordered) && hashes == Items(ordered)
      {
        ghost var before := ordered;
        hashes := hashes - {ordered[0].item};
        ordered := ordered[1..];
        assert forall k :: 1 <= k < |before| ==> before[k] == ordered[k - 1];
      }
    }

    /** The clock is read twice: `now` by the eviction and `later` by the insertion. The signature is refused exactly
        when it was accepted within the time to live. */
    method InsertIfNew(signature: string, now: int, later: int) returns (isNew: bool)
      requires Valid() && clock <= now <= later
      modifies this
      ensures Valid() && clock == later
      ensures isNew <==> !AcceptedWithin(old(accepted), signature, now, ttl)
      ensures accepted == if isNew then old(accepted) + [Stamped(later, signature)] else old(accepted)
      ensures ordered == Recent(accepted, now, ttl)
    {
      EvictExpired(now);
      EvictedQueue(accepted, signature, evicted, now, later, ttl);
      evicted, clock := now, later;
      if signature in hashes { return false; }
      ItemsAppend(ordered, Stamped(later, signature));
      hashes := hashes + {signature};
      ordered := ordered + [Stamped(later, signature)];
      accepted := accepted + [Stamped(later, signature)];
      return true;
    }
  }

  lemma ItemsAppend<T>(log: seq<Stamped<T>>, e: Stamped<T>)
    ensures Items(log + [e]) == Items(log) + {e.item}
    ensures DistinctItems(log) && e.item !in Items(log) ==> DistinctItems(log + [e])
  {
    var longer := log + [e];
    assert longer[|log|] == e && forall k :: 0 <= k < |log| ==> longer[k] == log[k];
    forall x | x in Items(log) + {e.item}
      ensures x in Items(longer)
    {
      if x in Items(log) {
        var k :| 0 <= k < |log| && log[k].item == x;
        assert longer[k].item == x;
      }
    }
  }

  /** What one call needs: the queue after eviction, before and after the signature joins the log. */
  lemma EvictedQueue(accepted: seq<Stamped<string>>, signature: string, last: int, now: int, later: int, ttl: nat)
    requires Sorted(accepted) && last <= now <= later && forall k :: 0 <= k < |accepted| ==> accepted[k].at <= now
    ensures var queue := DropExpired(DropExpired(accepted, last, ttl), now, ttl);
            var longer := accepted + [Stamped(later, signature)];
            && queue == DropExpired(accepted, now, ttl) == Recent(accepted, now, ttl)
            && (signature in Items(queue) <==> AcceptedWithin(accepted, signature, now, ttl))
            && Sorted(longer) && queue + [Stamped(later, signature)] == DropExpired(longer, now, ttl) == Recent(longer, now, ttl)
  {
    var entry := Stamped(later, signature);
    EvictionComposes(accepted, [], last, now, ttl);
    assert accepted + [] == accepted && DropExpired(accepted, last, ttl) + [] == DropExpired(accepted, last, ttl);
    SortedEvictionIsExact(accepted, now, ttl);
    FreshSignatures(accepted, signature, now, ttl);
    FreshStays(accepted, entry, now, ttl);
    assert Sorted(accepted + [entry]);
    SortedEvictionIsExact(accepted + [entry], now, ttl);
  }

  lemma FreshSignatures(accepted: seq<Stamped<string>>, signature: string, now: int, ttl: nat)
    ensures signature in Items(Recent(accepted, now, ttl)) <==> AcceptedWithin(accepted, signature, now, ttl)
  {
    var recent := Recent(accepted, now, ttl);
    if signature in Items(recent) {
      var k :| 0 <= k < |recent| && recent[k].item == signature;
      RecentMembers(accepted, now, ttl, recent[k]);
    }
    if AcceptedWithin(accepted, signature, now, ttl) {
      var k :| 0 <= k < |accepted| && accepted[k].item == signature && !Expired(accepted[k], now, ttl);
      RecentMembers(accepted, now, ttl, accepted[k]);
    }
  }
}
