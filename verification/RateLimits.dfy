/** The oracle's in-memory rate limiter: fixed windows opened by the first request, one bucket per key, and a cleanup
    that forgets closed windows. Times are milliseconds. */
module RateLimits {
  import opened Outcomes

  datatype Bucket = Bucket(windowStartedAtMs: int, count: nat)

  type Buckets = map<string, Bucket>

  datatype Decision = Admitted | Refused(retryAfterSec: nat)

  predicate Closed(b: Bucket, windowMs: int, now: int) {
    now - b.windowStartedAtMs >= windowMs
  }

  /** max(1, ceil(ms / 1000)) */
  function RetryAfter(retryMs: int): (sec: nat)
    ensures sec >= 1 && 1000 * sec >= retryMs
    ensures sec == 1 || 1000 * (sec - 1) < retryMs
  {
    var ceiling := (retryMs + 999) / 1000;
    if ceiling < 1 then 1 else ceiling
  }

  /** One request against the bucket of its key. */
  function Serve(b: Option<Bucket>, limit: int, windowMs: int, now: int): (Bucket, Decision) {
    if b.None? || Closed(b.value, windowMs, now) then (Bucket(now, 1), Admitted)
    else if b.value.count >= limit then (b.value, Refused(RetryAfter(windowMs - (now - b.value.windowStartedAtMs))))
    else (Bucket(b.value.windowStartedAtMs, b.value.count + 1), Admitted)
  }

  function Lookup(buckets: Buckets, key: string): Option<Bucket> {
    if key in buckets then Some(buckets[key]) else None
  }

  function Consume(buckets: Buckets, key: string, limit: int, windowMs: int, now: int): (Buckets, Decision) {
    if key == "" || limit <= 0 || windowMs <= 0 then (buckets, Admitted)
    else
      var (bucket, decision) := Serve(Lookup(buckets, key), limit, windowMs, now);
      (buckets[key := bucket], decision)
  }

  function Cleaned(buckets: Buckets, windowMs: int, now: int): Buckets {
    map key | key in buckets && !Closed(buckets[key], windowMs, now) :: buckets[key]
  }

  /** One of the two bucket maps. */
  class BucketMap {
    var buckets: Buckets

    constructor ()
      ensures buckets == map[]
    {
      buckets := map[];
    }

    method Take(key: string, limit: int, windowMs: int, now: int) returns (decision: Decision)
      modifies this
      ensures (buckets, decision) == Consume(old(buckets), key, limit, windowMs, now)
    {
      if key == "" || limit <= 0 || windowMs <= 0 { return Admitted; }
      if key !in buckets || now - buckets[key].windowStartedAtMs >= windowMs {
        buckets := buckets[key := Bucket(now, 1)];
        return Admitted;
      }
      var existing := buckets[key];
      if existing.count >= limit {
        assert buckets[key := existing] == buckets;
        var retryMs := windowMs - (now - existing.windowStartedAtMs);
        return Refused(RetryAfter(retryMs));
      }
      buckets := buckets[key := existing.(count := existing.count + 1)];
      return Admitted;
    }

    method Cleanup(windowMs: int, now: int)
      modifies this
      ensures buckets == Cleaned(old(buckets), windowMs, now)
    {
      var keys := buckets.Keys;
      while keys != {}
        invariant keys <= old(buckets).Keys
        invariant buckets == map key | key in old(buckets) && (key in keys || !Closed(old(buckets)[key], windowMs, now)) :: old(buckets)[key]
        decreases keys
      {
        var key :| key in keys;
        keys := keys - {key};
        if Closed(buckets[key], windowMs, now) { buckets := buckets - {key}; }
      }
    }
  }

  datatype Config = Config(ipLimit: int, walletLimit: int, windowMs: int)

  datatype Request = Request(ip: string, wallet: Option<string>, now: int)

  datatype Verdict = Pass | RefusedIp(retryAfterSec: nat) | RefusedWallet(retryAfterSec: nat)

  datatype Limiter = Limiter(ip: Buckets, wallet: Buckets)

  /** First the address, then the wallet. A wallet refusal has used up address quota. */
  function Decide(s: Limiter, r: Request, c: Config): (Limiter, Verdict) {
    var (ip, forIp) := Consume(s.ip, r.ip, c.ipLimit, c.windowMs, r.now);
    if forIp.Refused? then (Limiter(ip, s.wallet), RefusedIp(forIp.retryAfterSec))
    else if r.wallet.None? || r.wallet.value == "" then (Limiter(ip, s.wallet), Pass)
    else
      var (wallet, forWallet) := Consume(s.wallet, r.wallet.value, c.walletLimit, c.windowMs, r.now);
      (Limiter(ip, wallet), if forWallet.Refused? then RefusedWallet(forWallet.retryAfterSec) else Pass)
  }

  function Swept(s: Limiter, windowMs: int, now: int): Limiter {
    Limiter(Cleaned(s.ip, windowMs, now), Cleaned(s.wallet, windowMs, now))
  }

  /** A whole request: both maps are cleaned first. */
  function Evaluate(s: Limiter, r: Request, c: Config): (Limiter, Verdict) {
    Decide(Swept(s, c.windowMs, r.now), r, c)
  }

  method EvaluateShieldRateLimit(ip: BucketMap, wallet: BucketMap, r: Request, c: Config) returns (verdict: Verdict)
    requires ip != wallet
    modifies ip, wallet
    ensures (Limiter(ip.buckets, wallet.buckets), verdict) == Evaluate(Limiter(old(ip.buckets), old(wallet.buckets)), r, c)
  {
    ip.Cleanup(c.windowMs, r.now);
    wallet.Cleanup(c.windowMs, r.now);
    var forIp := ip.Take(r.ip, c.ipLimit, c.windowMs, r.now);
    if forIp.Refused? { return RefusedIp(forIp.retryAfterSec); }
    if r.wallet.Some? && r.wallet.value != "" {
      var forWallet := wallet.Take(r.wallet.value, c.walletLimit, c.windowMs, r.now);
      if forWallet.Refused? { return RefusedWallet(forWallet.retryAfterSec); }
    }
    return Pass;
  }

  // ----- One key -----

  /** The bucket of one key and the times of its admissions after requests at the given times, with no cleanup. */
  function ServeAll(times: seq<int>, limit: int, windowMs: int): (Option<Bucket>, seq<int>) {
    if times == [] then (None, [])
    else
      var (bucket, admitted) := ServeAll(times[..|times| - 1], limit, windowMs);
      var now := times[|times| - 1];
      var (bucket', decision) := Serve(bucket, limit, windowMs, now);
      (Some(bucket'), if decision.Admitted? then admitted + [now] else admitted)
  }

  ghost predicate Nondecreasing(times: seq<int>) {
    forall i, j :: 0 <= i < j < |times| ==> times[i] <= times[j]
  }

  /** How many of the times are at or after t. */
  function CountFrom(times: seq<int>, t: int): (n: nat)
    ensures n <= |times|
  {
    if times == [] then 0
    else CountFrom(times[..|times| - 1], t) + if times[|times| - 1] >= t then 1 else 0
  }

  /** How many of the times are in [t, t + span). */
  function CountWithin(times: seq<int>, t: int, span: nat): int {
    CountFrom(times, t) - CountFrom(times, t + span)
  }

  lemma {:induction false} CountFromFacts(times: seq<int>, t: int, u: int)
    requires t <= u
    ensures CountFrom(times, t) >= CountFrom(times, u)
    ensures (forall k :: 0 <= k < |times| ==> times[k] < u) ==> CountFrom(times, u) == 0
  {
    if times != [] { CountFromFacts(times[..|times| - 1], t, u); }
  }

  lemma CountFromAppend(times: seq<int>, now: int, t: int)
    ensures CountFrom(times + [now], t) == CountFrom(times, t) + if now >= t then 1 else 0
  {
    assert (times + [now])[..|times|] == times;
  }

  /** The admissions a bucket accounts for, and what they leave room for in the window before. */
  ghost predicate BucketOk(b: Bucket, admitted: seq<int>, limit: nat, windowMs: nat, now: int) {
    var start := b.windowStartedAtMs;
    && 1 <= b.count <= limit && start <= now
    && CountFrom(admitted, start) == b.count > CountFrom(admitted, start + 1)
    && CountFrom(admitted, now + 1) == 0 && CountFrom(admitted, start + windowMs) == 0
    && (forall t :: start - windowMs < t <= start ==> CountFrom(admitted, t) < b.count + limit)
  }

  ghost predicate Bounded(admitted: seq<int>, limit: nat, windowMs: nat) {
    forall t :: CountWithin(admitted, t, windowMs) <= 2 * limit - 1
  }

  lemma ServeKeepsBucketOk(b: Bucket, admitted: seq<int>, limit: nat, windowMs: nat, before: int, now: int)
    requires limit >= 1 && windowMs >= 1 && before <= now
    requires BucketOk(b, admitted, limit, windowMs, before)
    ensures var (b', d) := Serve(Some(b), limit, windowMs, now);
            BucketOk(b', if d.Admitted? then admitted + [now] else admitted, limit, windowMs, now)
  {
    var start := b.windowStartedAtMs;
    CountFromFacts(admitted, before + 1, now + 1);
    CountFromAppend(admitted, now, now + 1);
    CountFromAppend(admitted, now, start + windowMs);
    if Closed(b, windowMs, now) {
      CountFromFacts(admitted, start + windowMs, now);
      CountFromAppend(admitted, now, now + windowMs);
      CountFromFacts(admitted, now, now + windowMs);
      forall t
        ensures t <= now ==> CountFrom(admitted + [now], t) == CountFrom(admitted, t) + 1
        ensures t > start ==> CountFrom(admitted, t) < limit
      {
        CountFromAppend(admitted, now, t);
        if t > start { CountFromFacts(admitted, start + 1, t); }
      }
    } else if b.count < limit {
      forall t
        ensures t <= start ==> CountFrom(admitted + [now], t) == CountFrom(admitted, t) + 1
      {
        CountFromAppend(admitted, now, t);
      }
    }
  }

  lemma ServeKeepsBounded(b: Bucket, admitted: seq<int>, limit: nat, windowMs: nat, before: int, now: int)
    requires limit >= 1 && windowMs >= 1 && before <= now
    requires BucketOk(b, admitted, limit, windowMs, before) && Bounded(admitted, limit, windowMs)
    requires Serve(Some(b), limit, windowMs, now).1.Admitted?
    ensures Bounded(admitted + [now], limit, windowMs)
  {
    var start := b.windowStartedAtMs;
    forall t
      ensures CountWithin(admitted + [now], t, windowMs) <= 2 * limit - 1
    {
      CountFromAppend(admitted, now, t);
      CountFromAppend(admitted, now, t + windowMs);
      assert CountWithin(admitted, t, windowMs) <= 2 * limit - 1;
      if now - windowMs < t <= now {
        if start < t { CountFromFacts(admitted, start + 1, t); }
      }
    }
  }

  /** Over any requests of one key: never more than the limit in one window, and never more than twice the limit minus
      one in any interval as long as a window. */
  lemma {:induction false} ServeAllBounded(times: seq<int>, limit: nat, windowMs: nat, now: int)
    requires limit >= 1 && windowMs >= 1 && Nondecreasing(times)
    requires times != [] ==> times[|times| - 1] <= now
    ensures var (bucket, admitted) := ServeAll(times, limit, windowMs);
            && Bounded(admitted, limit, windowMs)
            && (bucket.None? <==> times == []) && (bucket.None? ==> admitted == [])
            && (bucket.Some? ==> BucketOk(bucket.value, admitted, limit, windowMs, now))
  {
    if times != [] {
      var last := |times| - 1;
      ServeAllBounded(times[..last], limit, windowMs, times[last]);
      var (bucket, admitted) := ServeAll(times[..last], limit, windowMs);
      if last == 0 {
        FirstAdmission(times[last], limit, windowMs);
        assert [] + [times[last]] == [times[last]];
        LaterIsFine(Bucket(times[last], 1), [times[last]], limit, windowMs, times[last], now);
      } else {
        ServeKeepsBucketOk(bucket.value, admitted, limit, windowMs, times[last], times[last]);
        if Serve(bucket, limit, windowMs, times[last]).1.Admitted? {
          ServeKeepsBounded(bucket.value, admitted, limit, windowMs, times[last], times[last]);
        }
        var (bucket', admitted') := ServeAll(times, limit, windowMs);
        LaterIsFine(bucket'.value, admitted', limit, windowMs, times[last], now);
      }
    }
  }

  lemma FirstAdmission(now: int, limit: nat, windowMs: nat)
    requires limit >= 1 && windowMs >= 1
    ensures BucketOk(Bucket(now, 1), [now], limit, windowMs, now) && Bounded([now], limit, windowMs)
  {
    forall t
      ensures CountFrom([now], t) == if now >= t then 1 else 0
    {
      CountFromAppend([], now, t);
      assert [] + [now] == [now];
    }
    assert forall t :: CountWithin([now], t, windowMs) <= 1;
  }

  lemma LaterIsFine(b: Bucket, admitted: seq<int>, limit: nat, windowMs: nat, before: int, now: int)
    requires BucketOk(b, admitted, limit, windowMs, before) && before <= now
    ensures BucketOk(b, admitted, limit, windowMs, now)
  {
    CountFromFacts(admitted, before + 1, now + 1);
  }
}
