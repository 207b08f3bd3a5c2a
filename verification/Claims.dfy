/** One-time claims that expire: the oracle's in-memory replay store and its map of proofs in their active window. */
module Claims {

  /** A key's expiry; a key that is absent or expired is free. */
  type Store<!K> = map<K, int>

  function Unexpired<K>(s: Store<K>, now: int): Store<K> {
    map key | key in s && s[key] > now :: s[key]
  }

  function Claim<K(==)>(s: Store<K>, key: K, ttl: nat, now: int): (Store<K>, bool) {
    var live := Unexpired(s, now);
    if key in live then (live, false) else (live[key := now + ttl], true)
  }

  /** A successful claim, and who made it. */
  datatype Taken<K, W> = Taken(key: K, at: int, who: W)

  ghost predicate FreeIn<K, W>(log: seq<Taken<K, W>>, key: K, ttl: nat, now: int) {
    forall k :: 0 <= k < |log| && log[k].key == key ==> log[k].at + ttl <= now
  }

  ghost predicate Spaced<K, W>(log: seq<Taken<K, W>>, ttl: nat) {
    forall i, j :: 0 <= i < j < |log| && log[i].key == log[j].key ==> log[i].at + ttl <= log[j].at
  }

  ghost predicate Runs<K, W>(log: seq<Taken<K, W>>, key: K, expiry: int, ttl: nat) {
    exists k :: 0 <= k < |log| && log[k].key == key && log[k].at + ttl == expiry
  }

  /** The store remembers exactly the log's claims that are still running. */
  ghost predicate Reflects<K, W>(s: Store<K>, log: seq<Taken<K, W>>, ttl: nat, now: int) {
    && (forall key :: key in s && s[key] > now ==> Runs(log, key, s[key], ttl))
    && (forall k :: 0 <= k < |log| && log[k].at + ttl > now ==> log[k].key in s && s[log[k].key] == log[k].at + ttl)
  }

  lemma LaterReflects<K, W>(s: Store<K>, log: seq<Taken<K, W>>, ttl: nat, now: int, later: int)
    requires Reflects(s, log, ttl, now) && now <= later
    ensures Reflects(s, log, ttl, later) && Reflects(Unexpired(s, later), log, ttl, later)
  {
  }

  lemma AddClaim<K, W>(live: Store<K>, log: seq<Taken<K, W>>, key: K, ttl: nat, now: int, who: W)
    requires Reflects(live, log, ttl, now) && Spaced(log, ttl) && FreeIn(log, key, ttl, now)
    ensures var log' := log + [Taken(key, now, who)];
            Reflects(live[key := now + ttl], log', ttl, now) && Spaced(log', ttl)
  {
    var log' := log + [Taken(key, now, who)];
    var s' := live[key := now + ttl];
    assert log'[|log|].key == key && forall k :: 0 <= k < |log| ==> log'[k] == log[k];
    forall x | x in s' && s'[x] > now
      ensures Runs(log', x, s'[x], ttl)
    {
      if x != key {
        assert Runs(log, x, live[x], ttl);
        var k :| 0 <= k < |log| && log[k].key == x && log[k].at + ttl == live[x];
        assert log'[k].key == x;
      }
    }
  }

  /** A claim succeeds exactly when no claim of its key is still running, and keeps the store in step with the log. */
  lemma ClaimFollowsLog<K, W>(s: Store<K>, log: seq<Taken<K, W>>, key: K, ttl: nat, now: int, who: W)
    requires Reflects(s, log, ttl, now) && Spaced(log, ttl)
    ensures var (s', ok) := Claim(s, key, ttl, now);
            var log' := if ok then log + [Taken(key, now, who)] else log;
            (ok <==> FreeIn(log, key, ttl, now)) && Reflects(s', log', ttl, now) && Spaced(log', ttl)
  {
    var live := Unexpired(s, now);
    LaterReflects(s, log, ttl, now, now);
    if key in live {
      assert Runs(log, key, live[key], ttl);
    } else {
      AddClaim(live, log, key, ttl, now, who);
    }
  }

  /** The replay store: cleaned before every claim. */
  class MemoryStore {
    var entries: Store<string>

    constructor ()
      ensures entries == map[]
    {
      entries := map[];
    }

    method Cleanup(now: int)
      modifies this
      ensures entries == Unexpired(old(entries), now)
    {
      var keys := entries.Keys;
      while keys != {}
        invariant keys <= old(entries).Keys
        invariant entries == map key | key in old(entries) && (key in keys || old(entries)[key] > now) :: old(entries)[key]
        decreases keys
      {
        var key :| key in keys;
        keys := keys - {key};
        if entries[key] <= now { entries := entries - {key}; }
      }
    }

    method ClaimInMemory(key: string, ttlMs: nat, now: int) returns (ok: bool)
      modifies this
      ensures (entries, ok) == Claim(old(entries), key, ttlMs, now)
    {
      Cleanup(now);
      if key in entries { return false; }
      entries := entries[key := now + ttlMs];
      return true;
    }
  }
}
