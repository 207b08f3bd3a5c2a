/** The sentinel's governance guard: concurrent calls that each take the mutex twice, once to begin and once to end. */
module Governance {
  import opened Outcomes

  datatype Tier = Observe | Mild | Severe

  datatype GovernanceState = GovernanceState(lastSuccessActionAt: Option<int>, actionInFlight: bool)

  /** The first critical section: may this call act? */
  function Begin(s: GovernanceState, tier: Tier, interval: nat, now: int): (GovernanceState, bool) {
    if tier.Observe? then (s, false)
    else if s.actionInFlight then (s, false)
    else if s.lastSuccessActionAt.Some? && now - s.lastSuccessActionAt.value < interval then (s, false)
    else (s.(actionInFlight := true), true)
  }

  /** The second critical section, after the action or after a decision to bypass it, which counts as a success. */
  function End(s: GovernanceState, ok: bool, now: int): GovernanceState {
    GovernanceState(if ok then Some(now) else s.lastSuccessActionAt, false)
  }

  class GovernanceExecutor {
    const minActionInterval: nat
    var lastSuccessActionAt: Option<int>
    var actionInFlight: bool

    ghost function View(): GovernanceState
      reads this
    {
      GovernanceState(lastSuccessActionAt, actionInFlight)
    }

    constructor (interval: nat)
      ensures minActionInterval == interval && View() == GovernanceState(None, false)
    {
      minActionInterval := interval;
      lastSuccessActionAt, actionInFlight := None, false;
    }

    method TryBegin(tier: Tier, now: int) returns (started: bool)
      modifies this
      ensures (View(), started) == Begin(old(View()), tier, minActionInterval, now)
    {
      if tier.Observe? { return false; }
      if actionInFlight { return false; }
      if lastSuccessActionAt.Some? {
        if now - lastSuccessActionAt.value < minActionInterval { return false; }
      }
      actionInFlight := true;
      return true;
    }

    method Finish(ok: bool, now: int)
      modifies this
      ensures View() == End(old(View()), ok, now)
    {
      actionInFlight := false;
      if ok { lastSuccessActionAt := Some(now); }
    }
  }

  // ----- Interleaved calls -----

  /** A critical section entered by some call at some time. */
  datatype Event =
    | Entry(call: nat, tier: Tier, at: int)
    | Exit(call: nat, ok: bool, at: int)

  /** The calls between their two critical sections, and the times at which actions started and succeeded. */
  datatype System = System(state: GovernanceState, acting: set<nat>, starts: seq<int>, successes: seq<int>)

  const Initial: System := System(GovernanceState(None, false), {}, [], [])

  /** Only a call that is acting reaches its second critical section, and no call enters again before it does. */
  ghost predicate Enabled(s: System, e: Event) {
    match e
    case Entry(call, _, _) => call !in s.acting
    case Exit(call, _, _) => call in s.acting
  }

  ghost function Step(s: System, e: Event, interval: nat): System {
    match e
    case Entry(call, tier, at) =>
      var (state, started) := Begin(s.state, tier, interval, at);
      if started then System(state, s.acting + {call}, s.starts + [at], s.successes) else s.(state := state)
    case Exit(call, ok, at) =>
      System(End(s.state, ok, at), s.acting - {call}, s.starts, if ok then s.successes + [at] else s.successes)
  }

  ghost function Run(events: seq<Event>, interval: nat): System {
    if events == [] then Initial else Step(Run(events[..|events| - 1], interval), events[|events| - 1], interval)
  }

  /** A schedule the program can follow, on a clock that never goes back. */
  ghost predicate Schedule(events: seq<Event>, interval: nat) {
    && (forall i :: 0 <= i < |events| ==> Enabled(Run(events[..i], interval), events[i]))
    && (forall i, j :: 0 <= i < j < |events| ==> events[i].at <= events[j].at)
  }

  ghost predicate Inv(s: System, interval: nat, now: int) {
    && |s.acting| == (if s.state.actionInFlight then 1 else 0)
    && (s.state.lastSuccessActionAt == if s.successes == [] then None else Some(s.successes[|s.successes| - 1]))
    && |s.starts| >= |s.successes| + |s.acting|
    && (forall k :: 0 <= k < |s.successes| ==> s.successes[k] <= now)
    && (forall k :: 0 <= k < |s.starts| ==> s.starts[k] <= now)
    && (forall k :: 0 <= k < |s.successes| - 1 ==> s.successes[k + 1] - s.successes[k] >= interval)
    && (s.state.actionInFlight && s.successes != [] ==> now - s.successes[|s.successes| - 1] >= interval)
  }

  lemma StepKeepsInv(s: System, e: Event, interval: nat, now: int)
    requires Inv(s, interval, now) && Enabled(s, e) && now <= e.at
    ensures Inv(Step(s, e, interval), interval, e.at)
  {
    if e.Exit? {
      assert |s.acting - {e.call}| == |s.acting| - 1;
    }
  }

  lemma {:induction false} RunKeepsInv(events: seq<Event>, interval: nat, now: int)
    requires Schedule(events, interval)
    requires events != [] ==> events[|events| - 1].at <= now
    ensures Inv(Run(events, interval), interval, now)
  {
    if events != [] {
      var last := |events| - 1;
      var prefix := events[..last];
      assert forall i :: 0 <= i < last ==> prefix[..i] == events[..i];
      RunKeepsInv(prefix, interval, events[last].at);
      StepKeepsInv(Run(prefix, interval), events[last], interval, events[last].at);
    }
  }

  /** At most one action is in flight, in every interleaving of any number of calls. */
  lemma MutualExclusion(events: seq<Event>, interval: nat)
    requires Schedule(events, interval)
    ensures var s := Run(events, interval);
            && |s.acting| <= 1
            && (s.state.actionInFlight <==> s.acting != {})
  {
    var now := if events == [] then 0 else events[|events| - 1].at;
    RunKeepsInv(events, interval, now);
  }

  /** A call starts an action exactly when its tier asks for one, none is in flight, and every success so far lies at
      least the interval back. A failed action holds nobody up. */
  lemma StartsExactlyWhenDue(events: seq<Event>, e: Event, interval: nat)
    requires Schedule(events, interval) && e.Entry? && (events != [] ==> events[|events| - 1].at <= e.at)
    ensures var s := Run(events, interval);
            Step(s, e, interval).starts != s.starts
            <==> !e.tier.Observe? && s.acting == {} && forall k :: 0 <= k < |s.successes| ==> e.at - s.successes[k] >= interval
  {
    var s := Run(events, interval);
    RunKeepsInv(events, interval, e.at);
    SuccessesSpread(s, interval, e.at);
  }

  /** Successes are at least the interval apart, so n of them take at least (n - 1) intervals. */
  lemma SuccessesSpread(s: System, interval: nat, now: int)
    requires Inv(s, interval, now)
    ensures forall i, j :: 0 <= i <= j < |s.successes| ==> s.successes[j] - s.successes[i] >= (j - i) * interval >= 0
  {
    forall i, j | 0 <= i <= j < |s.successes|
      ensures s.successes[j] - s.successes[i] >= (j - i) * interval >= 0
    {
      Spread(s, interval, now, i, j);
    }
  }

  lemma {:induction false} Spread(s: System, interval: nat, now: int, i: nat, j: nat)
    requires Inv(s, interval, now) && i <= j < |s.successes|
    ensures s.successes[j] - s.successes[i] >= (j - i) * interval >= 0
    decreases j
  {
    if i < j {
      Spread(s, interval, now, i, j - 1);
      assert s.successes[j - 1 + 1] - s.successes[j - 1] >= interval;
      assert (j - i) * interval == (j - 1 - i) * interval + interval;
    }
  }

  /** The rate the cooldown guarantees over any run. */
  lemma SuccessRate(events: seq<Event>, interval: nat, i: nat, j: nat)
    requires Schedule(events, interval)
    requires i <= j < |Run(events, interval).successes|
    ensures Run(events, interval).successes[j] - Run(events, interval).successes[i] >= (j - i) * interval
  {
    var now := if events == [] then 0 else events[|events| - 1].at;
    RunKeepsInv(events, interval, now);
    Spread(Run(events, interval), interval, now, i, j);
  }
}
