/** The rate limiter over whole traces of requests: cleanup is invisible, quotas hold, refusals expire. */
module RateLimitRuns {
  import opened Outcomes
  import opened RateLimits

  ghost predicate InOrder(trace: seq<Request>) {
    forall i, j :: 0 <= i < j < |trace| ==> trace[i].now <= trace[j].now
  }

  const Empty: Limiter := Limiter(map[], map[])

  function Run(trace: seq<Request>, c: Config): (Limiter, seq<Verdict>) {
    if trace == [] then (Empty, [])
    else
      var (s, verdicts) := Run(trace[..|trace| - 1], c);
      var (s', verdict) := Evaluate(s, trace[|trace| - 1], c);
      (s', verdicts + [verdict])
  }

  /** The same limiter with the cleanup left out. */
  function RunUnswept(trace: seq<Request>, c: Config): (Limiter, seq<Verdict>) {
    if trace == [] then (Empty, [])
    else
      var (s, verdicts) := RunUnswept(trace[..|trace| - 1], c);
      var (s', verdict) := Decide(s, trace[|trace| - 1], c);
      (s', verdicts + [verdict])
  }

  // ----- Cleanup -----

  ghost predicate Over(b: Option<Bucket>, windowMs: int, now: int) {
    b.None? || Closed(b.value, windowMs, now)
  }

  ghost predicate SameBucket(a: Option<Bucket>, b: Option<Bucket>, windowMs: int, now: int) {
    a == b || (Over(a, windowMs, now) && Over(b, windowMs, now))
  }

  /** Two maps that no request at `now` or later can tell apart. */
  ghost predicate SameLive(a: Buckets, b: Buckets, windowMs: int, now: int) {
    forall key :: SameBucket(Lookup(a, key), Lookup(b, key), windowMs, now)
  }

  lemma CleanupKeepsLive(a: Buckets, b: Buckets, windowMs: int, before: int, now: int)
    requires SameLive(a, b, windowMs, before) && before <= now
    ensures SameLive(Cleaned(a, windowMs, now), b, windowMs, now)
  {
    forall key
      ensures SameBucket(Lookup(Cleaned(a, windowMs, now), key), Lookup(b, key), windowMs, now)
    {
      assert SameBucket(Lookup(a, key), Lookup(b, key), windowMs, before);
    }
  }

  lemma ConsumeKeepsLive(a: Buckets, b: Buckets, key: string, limit: int, windowMs: int, now: int)
    requires SameLive(a, b, windowMs, now)
    ensures var ((a', d), (b', e)) := (Consume(a, key, limit, windowMs, now), Consume(b, key, limit, windowMs, now));
            d == e && SameLive(a', b', windowMs, now)
  {
    assert SameBucket(Lookup(a, key), Lookup(b, key), windowMs, now);
    var (a', b') := (Consume(a, key, limit, windowMs, now).0, Consume(b, key, limit, windowMs, now).0);
    forall k
      ensures SameBucket(Lookup(a', k), Lookup(b', k), windowMs, now)
    {
      assert SameBucket(Lookup(a, k), Lookup(b, k), windowMs, now);
    }
  }

  lemma {:induction false} CleanupInvariant(trace: seq<Request>, c: Config, now: int)
    requires InOrder(trace) && (trace != [] ==> trace[|trace| - 1].now <= now)
    ensures var ((s, verdicts), (u, unswept)) := (Run(trace, c), RunUnswept(trace, c));
            && |verdicts| == |trace| && verdicts == unswept
            && SameLive(Cleaned(s.ip, c.windowMs, now), u.ip, c.windowMs, now)
            && SameLive(Cleaned(s.wallet, c.windowMs, now), u.wallet, c.windowMs, now)
  {
    if trace != [] {
      var r := trace[|trace| - 1];
      var before := trace[..|trace| - 1];
      CleanupInvariant(before, c, r.now);
      var (s, u) := (Run(before, c).0, RunUnswept(before, c).0);
      var swept := Swept(s, c.windowMs, r.now);
      ConsumeKeepsLive(swept.ip, u.ip, r.ip, c.ipLimit, c.windowMs, r.now);
      if r.wallet.Some? { ConsumeKeepsLive(swept.wallet, u.wallet, r.wallet.value, c.walletLimit, c.windowMs, r.now); }
      var (s', u') := (Run(trace, c).0, RunUnswept(trace, c).0);
      CleanupKeepsLive(s'.ip, u'.ip, c.windowMs, r.now, now);
      CleanupKeepsLive(s'.wallet, u'.wallet, c.windowMs, r.now, now);
    }
  }

  /** Forgetting closed windows before every request changes no verdict of any run. */
  lemma CleanupNeverChangesVerdicts(trace: seq<Request>, c: Config)
    requires InOrder(trace)
    ensures |Run(trace, c).1| == |trace| && Run(trace, c).1 == RunUnswept(trace, c).1
  {
    CleanupInvariant(trace, c, if trace == [] then 0 else trace[|trace| - 1].now);
  }

  // ----- Quotas -----

  /** The times of the requests from an address. */
  function FromIp(trace: seq<Request>, ip: string): seq<int> {
    if trace == [] then []
    else
      var times, r := FromIp(trace[..|trace| - 1], ip), trace[|trace| - 1];
      if r.ip == ip then times + [r.now] else times
  }

  /** The times of the requests for a wallet. */
  function ForWallet(trace: seq<Request>, wallet: string): seq<int> {
    if trace == [] then []
    else
      var times, r := ForWallet(trace[..|trace| - 1], wallet), trace[|trace| - 1];
      if r.wallet == Some(wallet) then times + [r.now] else times
  }

  lemma TimesAppend(trace: seq<Request>, r: Request, key: string)
    ensures FromIp(trace + [r], key) == if r.ip == key then FromIp(trace, key) + [r.now] else FromIp(trace, key)
    ensures ForWallet(trace + [r], key) == if r.wallet == Some(key) then ForWallet(trace, key) + [r.now] else ForWallet(trace, key)
  {
    assert (trace + [r])[..|trace|] == trace;
  }

  /** The requests that passed. */
  function Passed(trace: seq<Request>, c: Config): seq<Request> {
    if trace == [] then []
    else
      var before, r := trace[..|trace| - 1], trace[|trace| - 1];
      if Evaluate(Run(before, c).0, r, c).1.Pass? then Passed(before, c) + [r] else Passed(before, c)
  }

  /** The requests the address check let through to the wallet check. */
  function Reached(trace: seq<Request>, c: Config): seq<Request> {
    if trace == [] then []
    else
      var before, r := trace[..|trace| - 1], trace[|trace| - 1];
      if Evaluate(Run(before, c).0, r, c).1.RefusedIp? then Reached(before, c) else Reached(before, c) + [r]
  }

  lemma LastVerdict(trace: seq<Request>, c: Config)
    requires InOrder(trace) && trace != []
    ensures var before := trace[..|trace| - 1];
            Evaluate(Run(before, c).0, trace[|trace| - 1], c).1 == Decide(RunUnswept(before, c).0, trace[|trace| - 1], c).1
  {
    CleanupNeverChangesVerdicts(trace, c);
    CleanupNeverChangesVerdicts(trace[..|trace| - 1], c);
    var n := |trace| - 1;
    assert Run(trace, c).1[n] == RunUnswept(trace, c).1[n];
  }

  ghost predicate Limiting(c: Config) {
    c.ipLimit >= 1 && c.walletLimit >= 1 && c.windowMs >= 1
  }

  lemma ServeAllAppend(times: seq<int>, now: int, limit: int, windowMs: int)
    ensures var (bucket, admitted) := ServeAll(times, limit, windowMs);
            var (bucket', decision) := Serve(bucket, limit, windowMs, now);
            ServeAll(times + [now], limit, windowMs) == (Some(bucket'), if decision.Admitted? then admitted + [now] else admitted)
  {
    assert (times + [now])[..|times|] == times;
  }

  lemma DecideForAddress(s: Limiter, r: Request, c: Config, key: string)
    requires key != "" && Limiting(c)
    ensures var ((s', verdict), (b, d)) := (Decide(s, r, c), Serve(Lookup(s.ip, key), c.ipLimit, c.windowMs, r.now));
            && (r.ip != key ==> Lookup(s'.ip, key) == Lookup(s.ip, key))
            && (r.ip == key ==> Lookup(s'.ip, key) == Some(b) && (verdict.RefusedIp? <==> d.Refused?))
  {
  }

  lemma {:induction false} AddressesAreIndependent(trace: seq<Request>, c: Config, key: string)
    requires InOrder(trace) && key != "" && Limiting(c)
    ensures ServeAll(FromIp(trace, key), c.ipLimit, c.windowMs)
            == (Lookup(RunUnswept(trace, c).0.ip, key), FromIp(Reached(trace, c), key))
  {
    if trace != [] {
      var r, before := trace[|trace| - 1], trace[..|trace| - 1];
      AddressesAreIndependent(before, c, key);
      LastVerdict(trace, c);
      DecideForAddress(RunUnswept(before, c).0, r, c, key);
      ServeAllAppend(FromIp(before, key), r.now, c.ipLimit, c.windowMs);
      TimesAppend(Reached(before, c), r, key);
    }
  }

  lemma DecideForWallet(s: Limiter, r: Request, c: Config, key: string)
    requires key != "" && Limiting(c)
    ensures var ((s', verdict), (b, d)) := (Decide(s, r, c), Serve(Lookup(s.wallet, key), c.walletLimit, c.windowMs, r.now));
            && (verdict.RefusedIp? || r.wallet != Some(key) ==> Lookup(s'.wallet, key) == Lookup(s.wallet, key))
            && (!verdict.RefusedIp? && r.wallet == Some(key) ==> Lookup(s'.wallet, key) == Some(b) && (verdict.Pass? <==> d.Admitted?))
  {
  }

  lemma {:induction false} WalletsAreIndependent(trace: seq<Request>, c: Config, key: string)
    requires InOrder(trace) && key != "" && Limiting(c)
    ensures ServeAll(ForWallet(Reached(trace, c), key), c.walletLimit, c.windowMs)
            == (Lookup(RunUnswept(trace, c).0.wallet, key), ForWallet(Passed(trace, c), key))
  {
    if trace != [] {
      var r, before := trace[|trace| - 1], trace[..|trace| - 1];
      WalletsAreIndependent(before, c, key);
      LastVerdict(trace, c);
      DecideForWallet(RunUnswept(before, c).0, r, c, key);
      ServeAllAppend(ForWallet(Reached(before, c), key), r.now, c.walletLimit, c.windowMs);
      TimesAppend(Reached(before, c), r, key);
      TimesAppend(Passed(before, c), r, key);
    }
  }

  lemma {:induction false} PassedReached(trace: seq<Request>, c: Config, key: string, t: int, span: nat)
    ensures CountWithin(FromIp(Passed(trace, c), key), t, span) <= CountWithin(FromIp(Reached(trace, c), key), t, span)
  {
    if trace != [] {
      var r, before := trace[|trace| - 1], trace[..|trace| - 1];
      PassedReached(before, c, key, t, span);
      var (p, q) := (Passed(before, c), Reached(before, c));
      TimesAppend(p, r, key);
      TimesAppend(q, r, key);
      CountWithinAppend(FromIp(p, key), r.now, t, span);
      CountWithinAppend(FromIp(q, key), r.now, t, span);
    }
  }

  lemma CountWithinAppend(times: seq<int>, now: int, t: int, span: nat)
    ensures CountWithin(times + [now], t, span) == CountWithin(times, t, span) + if t <= now < t + span then 1 else 0
  {
    CountFromAppend(times, now, t);
    CountFromAppend(times, now, t + span);
  }

  /** Times that never go back and have all come by now. */
  ghost predicate OrderedUpTo(times: seq<int>, now: int) {
    Nondecreasing(times) && forall k :: 0 <= k < |times| ==> times[k] <= now
  }

  lemma OrderedAppend(times: seq<int>, before: int, now: int)
    requires OrderedUpTo(times, before) && before <= now
    ensures OrderedUpTo(times, now) && OrderedUpTo(times + [now], now)
  {
  }

  lemma {:induction false} AddressTimesInOrder(trace: seq<Request>, key: string, now: int)
    requires InOrder(trace) && (trace != [] ==> trace[|trace| - 1].now <= now)
    ensures OrderedUpTo(FromIp(trace, key), now)
  {
    if trace != [] {
      var last := |trace| - 1;
      AddressTimesInOrder(trace[..last], key, trace[last].now);
      OrderedAppend(FromIp(trace[..last], key), trace[last].now, trace[last].now);
      OrderedAppend(FromIp(trace, key), trace[last].now, now);
    }
  }

  lemma {:induction false} WalletTimesInOrder(trace: seq<Request>, c: Config, key: string, now: int)
    requires InOrder(trace) && (trace != [] ==> trace[|trace| - 1].now <= now)
    ensures OrderedUpTo(ForWallet(Reached(trace, c), key), now)
  {
    if trace != [] {
      var r, before := trace[|trace| - 1], trace[..|trace| - 1];
      WalletTimesInOrder(before, c, key, r.now);
      TimesAppend(Reached(before, c), r, key);
      OrderedAppend(ForWallet(Reached(before, c), key), r.now, r.now);
      OrderedAppend(ForWallet(Reached(trace, c), key), r.now, now);
    }
  }

  /** The quotas: over any run, in any interval as long as the window, fewer than twice the limit of requests pass
      from one address, and fewer than twice the limit for one wallet. */
  lemma QuotasHold(trace: seq<Request>, c: Config, ip: string, wallet: string, t: int)
    requires InOrder(trace) && ip != "" && wallet != "" && Limiting(c)
    ensures CountWithin(FromIp(Passed(trace, c), ip), t, c.windowMs) <= 2 * c.ipLimit - 1
    ensures CountWithin(ForWallet(Passed(trace, c), wallet), t, c.windowMs) <= 2 * c.walletLimit - 1
  {
    var now := if trace == [] then 0 else trace[|trace| - 1].now;
    AddressTimesInOrder(trace, ip, now);
    WalletTimesInOrder(trace, c, wallet, now);
    AddressesAreIndependent(trace, c, ip);
    WalletsAreIndependent(trace, c, wallet);
    ServeAllBounded(FromIp(trace, ip), c.ipLimit, c.windowMs, now);
    ServeAllBounded(ForWallet(Reached(trace, c), wallet), c.walletLimit, c.windowMs, now);
    PassedReached(trace, c, ip, t, c.windowMs);
  }

  // ----- The bound is the best one -----

  /** n more requests at one time. */
  function Extended(times: seq<int>, now: int, n: nat): seq<int> {
    if n == 0 then times else Extended(times, now, n - 1) + [now]
  }

  /** All requests so far were admitted, and the open window, begun at start, has admitted count of them. */
  ghost predicate AllAdmitted(times: seq<int>, limit: nat, windowMs: nat, start: int, count: nat) {
    ServeAll(times, limit, windowMs) == (Some(Bucket(start, count)), times)
  }

  lemma AdmitMore(times: seq<int>, now: int, limit: nat, windowMs: nat, start: int, count: nat)
    requires AllAdmitted(times, limit, windowMs, start, count) && now - start < windowMs && count < limit
    ensures AllAdmitted(times + [now], limit, windowMs, start, count + 1)
  {
    ServeAllAppend(times, now, limit, windowMs);
  }

  lemma AdmitNext(times: seq<int>, now: int, limit: nat, windowMs: nat, start: int, count: nat)
    requires AllAdmitted(times, limit, windowMs, start, count) && now - start >= windowMs
    ensures AllAdmitted(times + [now], limit, windowMs, now, 1)
  {
    ServeAllAppend(times, now, limit, windowMs);
  }

  lemma AdmitFirst(now: int, limit: nat, windowMs: nat)
    ensures AllAdmitted([] + [now], limit, windowMs, now, 1)
  {
    ServeAllAppend([], now, limit, windowMs);
  }

  /** A window with room for n more admits n more. */
  lemma {:induction false} AdmitRepeatedly(times: seq<int>, now: int, n: nat, limit: nat, windowMs: nat, start: int, count: nat)
    requires AllAdmitted(times, limit, windowMs, start, count) && now - start < windowMs && count + n <= limit
    ensures AllAdmitted(Extended(times, now, n), limit, windowMs, start, count + n)
    decreases n
  {
    if n == 0 {
      assert Extended(times, now, 0) == times;
    } else {
      var more := Extended(times, now, n - 1);
      assert AllAdmitted(more + [now], limit, windowMs, start, count + n) by {
        AdmitRepeatedly(times, now, n - 1, limit, windowMs, start, count);
        AdmitMore(more, now, limit, windowMs, start, count + n - 1);
      }
    }
  }

  lemma {:induction false} CountExtended(times: seq<int>, now: int, n: nat, t: int, span: nat)
    requires t <= now < t + span
    ensures CountWithin(Extended(times, now, n), t, span) == CountWithin(times, t, span) + n
  {
    if n > 0 {
      CountExtended(times, now, n - 1, t, span);
      CountWithinAppend(Extended(times, now, n - 1), now, t, span);
    }
  }

  lemma {:induction false} OrderedExtended(times: seq<int>, before: int, now: int, n: nat)
    requires OrderedUpTo(times, before) && before <= now
    ensures OrderedUpTo(Extended(times, now, n), now)
  {
    OrderedAppend(times, before, now);
    if n > 0 {
      OrderedExtended(times, before, now, n - 1);
      OrderedAppend(Extended(times, now, n - 1), now, now);
    }
  }

  lemma CountTwoWindows(limit: nat, windowMs: nat)
    requires limit >= 1 && windowMs >= 2
    ensures var second := Extended([] + [0], windowMs - 1, limit - 1) + [windowMs];
            CountWithin(Extended(second, windowMs, limit - 1), windowMs - 1, windowMs) == 2 * limit - 1
  {
    var t := windowMs - 1;
    var first := Extended([] + [0], t, limit - 1);
    CountWithinAppend([], 0, t, windowMs);
    CountExtended([] + [0], t, limit - 1, t, windowMs);
    CountWithinAppend(first, windowMs, t, windowMs);
    CountExtended(first + [windowMs], windowMs, limit - 1, t, windowMs);
  }

  lemma OrderTwoWindows(limit: nat, windowMs: nat)
    requires limit >= 1 && windowMs >= 2
    ensures var second := Extended([] + [0], windowMs - 1, limit - 1) + [windowMs];
            OrderedUpTo(Extended(second, windowMs, limit - 1), windowMs)
  {
    var first := Extended([] + [0], windowMs - 1, limit - 1);
    OrderedExtended([] + [0], 0, windowMs - 1, limit - 1);
    OrderedAppend(first, windowMs - 1, windowMs);
    OrderedExtended(first + [windowMs], windowMs, windowMs, limit - 1);
  }

  /** Twice the limit minus one is reached for every limit: open a window, fill it in its last millisecond, then fill the next. */
  lemma BoundIsReached(limit: nat, windowMs: nat) returns (times: seq<int>, t: int)
    requires limit >= 1 && windowMs >= 2
    ensures Nondecreasing(times)
    ensures CountWithin(ServeAll(times, limit, windowMs).1, t, windowMs) == 2 * limit - 1
  {
    t := windowMs - 1;
    var first := Extended([] + [0], t, limit - 1);
    times := Extended(first + [windowMs], windowMs, limit - 1);
    AdmitFirst(0, limit, windowMs);
    AdmitRepeatedly([] + [0], t, limit - 1, limit, windowMs, 0, 1);
    AdmitNext(first, windowMs, limit, windowMs, 0, limit);
    AdmitRepeatedly(first + [windowMs], windowMs, limit - 1, limit, windowMs, windowMs, 1);
    CountTwoWindows(limit, windowMs);
    OrderTwoWindows(limit, windowMs);
  }

  function Requests(times: seq<int>, ip: string, wallet: Option<string>): seq<Request> {
    if times == [] then []
    else Requests(times[..|times| - 1], ip, wallet) + [Request(ip, wallet, times[|times| - 1])]
  }

  lemma {:induction false} RequestTimes(times: seq<int>, ip: string, wallet: Option<string>)
    requires Nondecreasing(times)
    ensures InOrder(Requests(times, ip, wallet)) && |Requests(times, ip, wallet)| == |times|
    ensures times != [] ==> Requests(times, ip, wallet)[|times| - 1].now == times[|times| - 1]
    ensures FromIp(Requests(times, ip, wallet), ip) == times
    ensures forall r :: r in Requests(times, ip, wallet) ==> r.ip == ip && r.wallet == wallet
  {
    if times != [] {
      var last := |times| - 1;
      RequestTimes(times[..last], ip, wallet);
      TimesAppend(Requests(times[..last], ip, wallet), Request(ip, wallet, times[last]), ip);
    }
  }

  lemma {:induction false} PassedIsReached(trace: seq<Request>, c: Config)
    requires forall r :: r in trace ==> r.wallet.None?
    ensures Passed(trace, c) == Reached(trace, c)
  {
    if trace != [] { PassedIsReached(trace[..|trace| - 1], c); }
  }

  /** The limiter itself reaches the bound: some run lets twice the limit minus one requests of an address pass within one
      window's length, for every limit and every window of at least two milliseconds. */
  lemma LimiterReachesBound(c: Config, ip: string) returns (trace: seq<Request>, t: int)
    requires Limiting(c) && c.windowMs >= 2 && ip != ""
    ensures InOrder(trace)
    ensures CountWithin(FromIp(Passed(trace, c), ip), t, c.windowMs) == 2 * c.ipLimit - 1
  {
    var times;
    times, t := BoundIsReached(c.ipLimit, c.windowMs);
    trace := Requests(times, ip, None);
    RequestTimes(times, ip, None);
    PassedIsReached(trace, c);
    AddressesAreIndependent(trace, c, ip);
  }

  // ----- Refusals -----

  /** Waiting the seconds a refusal names reaches a fresh window, and waiting one second less does not (unless the
      refusal names the minimum of one second). */
  lemma RetryReachesFreshWindow(b: Bucket, limit: nat, windowMs: nat, now: int, later: int)
    requires limit >= 1 && Serve(Some(b), limit, windowMs, now).1.Refused?
    ensures var sec := Serve(Some(b), limit, windowMs, now).1.retryAfterSec;
            && (later >= now + 1000 * sec ==> Serve(Some(b), limit, windowMs, later) == (Bucket(later, 1), Admitted))
            && (now <= later <= now + 1000 * (sec - 1) && sec > 1 ==> Serve(Some(b), limit, windowMs, later).1.Refused?)
  {
  }

  /** A refusal at a bucket names the least whole number of seconds, and at least one, after which its window is closed. */
  ghost predicate NamesItsWait(buckets: Buckets, key: string, limit: int, windowMs: int, now: int, sec: nat) {
    && key in buckets && buckets[key].count >= limit
    && var closes := buckets[key].windowStartedAtMs + windowMs;
       now < closes && 1 <= sec && closes <= now + 1000 * sec && (sec == 1 || now + 1000 * (sec - 1) < closes)
  }

  /** Whichever check refuses a request, the seconds in the verdict are those of its own bucket. */
  lemma VerdictNamesItsWait(s: Limiter, r: Request, c: Config)
    requires Limiting(c)
    ensures match Evaluate(s, r, c).1
            case Pass => true
            case RefusedIp(sec) => NamesItsWait(s.ip, r.ip, c.ipLimit, c.windowMs, r.now, sec)
            case RefusedWallet(sec) => r.wallet.Some? && NamesItsWait(s.wallet, r.wallet.value, c.walletLimit, c.windowMs, r.now, sec)
  {
  }

  /** The limiter as a whole: after a refusal for an address, the next request from it that waits long enough is not
      refused for its address, whatever other keys do in between. */
  lemma {:induction false} RefusedAddressRecovers(s: Limiter, r: Request, c: Config, others: seq<Request>, again: Request)
    requires Limiting(c) && r.ip != "" && again.ip == r.ip && Evaluate(s, r, c).1.RefusedIp?
    requires forall k :: 0 <= k < |others| ==> others[k].ip != r.ip
    requires again.now >= r.now + 1000 * Evaluate(s, r, c).1.retryAfterSec
    ensures !Evaluate(After(Evaluate(s, r, c).0, others, c), again, c).1.RefusedIp?
  {
    var s' := Evaluate(s, r, c).0;
    OthersLeaveBucket(s', others, c, r.ip);
  }

  function After(s: Limiter, trace: seq<Request>, c: Config): Limiter {
    if trace == [] then s else Evaluate(After(s, trace[..|trace| - 1], c), trace[|trace| - 1], c).0
  }

  lemma {:induction false} OthersLeaveBucket(s: Limiter, others: seq<Request>, c: Config, ip: string)
    requires Limiting(c) && forall k :: 0 <= k < |others| ==> others[k].ip != ip
    ensures var b := Lookup(After(s, others, c).ip, ip); b == Lookup(s.ip, ip) || b == None
  {
    if others != [] { OthersLeaveBucket(s, others[..|others| - 1], c, ip); }
  }
}
