/** Replay protection of the oracle on its in-memory store: bundles of proofs that claim their identifiers one at a
    time, interleaved in any way, and the window in which a verified proof is not signed for again. */
module Replay {
  import opened Claims

  // ----- Keys -----

  /** The characters `String.prototype.trim` strips. */
  predicate IsSpace(c: char) {
    var u := c as int;
    || 9 <= u <= 13 || u == 32 || u == 160 || u == 0x1680 || 0x2000 <= u <= 0x200A
    || u == 0x2028 || u == 0x2029 || u == 0x202F || u == 0x205F || u == 0x3000 || u == 0xFEFF
  }

  function TrimEnd(s: string): string {
    if s != [] && IsSpace(s[|s| - 1]) then TrimEnd(s[..|s| - 1]) else s
  }

  function Trim(s: string): string {
    if s != [] && IsSpace(s[0]) then Trim(s[1..]) else TrimEnd(s)
  }

  function Key(prefix: string, identifier: string): string {
    prefix + ":" + Trim(identifier)
  }

  ghost predicate AllSpaces(s: string) {
    forall k :: 0 <= k < |s| ==> IsSpace(s[k])
  }

  /** The spaces are these: tab to carriage return, the blank, the no-break space, the byte order mark, the Unicode
      separators. */
  lemma SpacesInFull(c: char)
    ensures IsSpace(c) <==> c in "\t\n\U{000B}\U{000C}\r \U{00A0}\U{1680}\U{2000}\U{2001}\U{2002}\U{2003}\U{2004}\U{2005}\U{2006}\U{2007}\U{2008}\U{2009}\U{200A}\U{2028}\U{2029}\U{202F}\U{205F}\U{3000}\U{FEFF}"
  {
  }

  lemma {:induction false} TrimEndDropsSpaces(s: string)
    ensures |TrimEnd(s)| <= |s| && TrimEnd(s) == s[..|TrimEnd(s)|] && AllSpaces(s[|TrimEnd(s)|..])
    ensures TrimEnd(s) == "" || !IsSpace(TrimEnd(s)[|TrimEnd(s)| - 1])
  {
    if s != [] && IsSpace(s[|s| - 1]) {
      TrimEndDropsSpaces(s[..|s| - 1]);
      assert forall k :: 0 <= k < |s| - 1 ==> s[..|s| - 1][k] == s[k];
    }
  }

  /** Trimming takes off spaces, all there are at either end, and nothing else. */
  lemma {:induction false} TrimIsSlice(s: string) returns (i: nat, j: nat)
    ensures i <= j <= |s| && Trim(s) == s[i..j] && AllSpaces(s[..i]) && AllSpaces(s[j..])
    ensures Trim(s) == "" || (!IsSpace(Trim(s)[0]) && !IsSpace(Trim(s)[|Trim(s)| - 1]))
  {
    if s != [] && IsSpace(s[0]) {
      i, j := TrimIsSlice(s[1..]);
      i, j := i + 1, j + 1;
      assert s[1..][..i - 1] == s[1..i] && s[1..][j - 1..] == s[j..] && s[..i] == [s[0]] + s[1..i];
    } else {
      TrimEndDropsSpaces(s);
      i, j := 0, |TrimEnd(s)|;
    }
  }

  lemma {:induction false} LeftPadding(l: string, x: string)
    requires AllSpaces(l)
    ensures Trim(l + x) == Trim(x)
  {
    if l == [] {
      assert l + x == x;
    } else {
      assert (l + x)[0] == l[0] && (l + x)[1..] == l[1..] + x;
      LeftPadding(l[1..], x);
    }
  }

  lemma {:induction false} EndPadding(x: string, r: string)
    requires AllSpaces(r)
    ensures TrimEnd(x + r) == TrimEnd(x)
  {
    if r == [] {
      assert x + r == x;
    } else {
      var n := |r| - 1;
      assert (x + r)[|x + r| - 1] == r[n] && (x + r)[..|x + r| - 1] == x + r[..n];
      EndPadding(x, r[..n]);
    }
  }

  lemma {:induction false} RightPadding(x: string, r: string)
    requires AllSpaces(r)
    ensures Trim(x + r) == Trim(x)
  {
    if x == [] {
      assert x + r == r + x;
      LeftPadding(r, x);
    } else {
      assert (x + r)[0] == x[0] && (x + r)[1..] == x[1..] + r;
      if IsSpace(x[0]) { RightPadding(x[1..], r); } else { EndPadding(x, r); }
    }
  }

  /** Padding an identifier with spaces does not make it another identifier. */
  lemma PaddingIsTrimmed(l: string, x: string, r: string)
    requires AllSpaces(l) && AllSpaces(r)
    ensures Trim(l + x + r) == Trim(x)
  {
    RightPadding(l + x, r);
    LeftPadding(l, x);
  }

  /** Trimming twice is trimming once, so the bundle's trimmed identifiers are the ones the store claims. */
  lemma TrimIsIdempotent(s: string)
    ensures Trim(Trim(s)) == Trim(s)
  {
    var i, j := TrimIsSlice(s);
    PaddingIsTrimmed(s[..i], s[i..j], s[j..]);
    assert s == s[..i] + s[i..j] + s[j..];
  }

  lemma KeysDiffer(prefix: string, a: string, b: string)
    ensures Key(prefix, a) == Key(prefix, b) <==> Trim(a) == Trim(b)
  {
    var n := |prefix + ":"|;
    assert Key(prefix, a)[n..] == Trim(a) && Key(prefix, b)[n..] == Trim(b);
  }

  // ----- Bundles -----

  datatype Bundle = Bundle(identifiers: seq<string>, next: nat, refused: bool) {
    predicate Running() {
      !refused && next < |identifiers|
    }

    predicate Succeeded() {
      !refused && next == |identifiers|
    }
  }

  datatype Settings = Settings(prefix: string, ttlMs: nat)

  /** One turn of the claim loop: the stretch between two suspensions. Claims made before a refusal stay made. */
  function Advance(b: Bundle, store: Store<string>, c: Settings, now: int): (Bundle, Store<string>)
    requires b.Running()
  {
    var identifier := b.identifiers[b.next];
    if Trim(identifier) == "" then (b.(refused := true), store)
    else
      var (store', ok) := Claim(store, Key(c.prefix, identifier), c.ttlMs, now);
      (if ok then b.(next := b.next + 1) else b.(refused := true), store')
  }

  class BundleLoop {
    const identifiers: seq<string>
    var next: nat
    var refused: bool

    ghost function View(): Bundle
      reads this
    {
      Bundle(identifiers, next, refused)
    }

    constructor (identifiers: seq<string>)
      ensures View() == Bundle(identifiers, 0, false)
    {
      this.identifiers := identifiers;
      next, refused := 0, false;
    }

    method Turn(store: MemoryStore, c: Settings, now: int)
      requires View().Running()
      modifies this, store
      ensures (View(), store.entries) == Advance(old(View()), old(store.entries), c, now)
    {
      var normalized := Trim(identifiers[next]);
      if normalized == "" {
        refused := true;
        return;
      }
      var ok := store.ClaimInMemory(c.prefix + ":" + normalized, c.ttlMs, now);
      if ok { next := next + 1; } else { refused := true; }
    }
  }

  // ----- Interleavings -----

  datatype Turn = Turn(bundle: nat, at: int)

  /** A position in a bundle. */
  datatype Slot = Slot(bundle: nat, position: nat)

  datatype System = System(bundles: seq<Bundle>, store: Store<string>, log: seq<Taken<string, Slot>>)

  ghost predicate Enabled(s: System, t: Turn) {
    t.bundle < |s.bundles| && s.bundles[t.bundle].Running()
  }

  ghost function Step(s: System, t: Turn, c: Settings): System
    requires Enabled(s, t)
  {
    var b := s.bundles[t.bundle];
    var (b', store') := Advance(b, s.store, c, t.at);
    System(s.bundles[t.bundle := b'], store',
           if b'.refused then s.log else s.log + [Taken(Key(c.prefix, b.identifiers[b.next]), t.at, Slot(t.bundle, b.next))])
  }

  ghost function Initial(bundles: seq<seq<string>>): System {
    System(seq(|bundles|, k requires 0 <= k < |bundles| => Bundle(bundles[k], 0, false)), map[], [])
  }

  /** The state after a schedule; turns that are not enabled do not happen. */
  ghost function Run(bundles: seq<seq<string>>, schedule: seq<Turn>, c: Settings): System {
    if schedule == [] then Initial(bundles)
    else
      var s, t := Run(bundles, schedule[..|schedule| - 1], c), schedule[|schedule| - 1];
      if Enabled(s, t) then Step(s, t, c) else s
  }

  ghost predicate InOrder(schedule: seq<Turn>) {
    forall i, j :: 0 <= i < j < |schedule| ==> schedule[i].at <= schedule[j].at
  }

  /** The slot's identifier was claimed, at a time of the schedule when the bundle had its turn. */
  ghost predicate Claimed(s: System, slot: Slot, key: string) {
    exists k :: 0 <= k < |s.log| && s.log[k].who == slot && s.log[k].key == key
  }

  ghost predicate BundleOk(s: System, p: nat, c: Settings)
    requires p < |s.bundles|
  {
    var b := s.bundles[p];
    && b.next <= |b.identifiers|
    && forall i :: 0 <= i < b.next ==> Claimed(s, Slot(p, i), Key(c.prefix, b.identifiers[i]))
  }

  ghost predicate Inv(s: System, schedule: seq<Turn>, c: Settings, now: int) {
    && Reflects(s.store, s.log, c.ttlMs, now)
    && Spaced(s.log, c.ttlMs)
    && (forall p :: 0 <= p < |s.bundles| ==> BundleOk(s, p, c))
    && (forall k :: 0 <= k < |s.log| ==> Turn(s.log[k].who.bundle, s.log[k].at) in schedule)
  }

  lemma ClaimsStay(s: System, s': System, slot: Slot, key: string)
    requires Claimed(s, slot, key) && |s.log| <= |s'.log| && s'.log[..|s.log|] == s.log
    ensures Claimed(s', slot, key)
  {
    var k :| 0 <= k < |s.log| && s.log[k].who == slot && s.log[k].key == key;
    assert s'.log[k] == s.log[k];
  }

  lemma StepKeepsInv(s: System, t: Turn, schedule: seq<Turn>, c: Settings)
    requires Inv(s, schedule, c, t.at) && Enabled(s, t)
    ensures Inv(Step(s, t, c), schedule + [t], c, t.at)
  {
    var b := s.bundles[t.bundle];
    var key := Key(c.prefix, b.identifiers[b.next]);
    ClaimFollowsLog(s.store, s.log, key, c.ttlMs, t.at, Slot(t.bundle, b.next));
    var s' := Step(s, t, c);
    forall p | 0 <= p < |s'.bundles|
      ensures BundleOk(s', p, c)
    {
      assert BundleOk(s, p, c);
      forall i | 0 <= i < s'.bundles[p].next
        ensures Claimed(s', Slot(p, i), Key(c.prefix, s'.bundles[p].identifiers[i]))
      {
        if i < s.bundles[p].next {
          ClaimsStay(s, s', Slot(p, i), Key(c.prefix, s.bundles[p].identifiers[i]));
        } else {
          assert s'.log[|s.log|].who == Slot(p, i);
        }
      }
    }
  }

  lemma LaterInv(s: System, schedule: seq<Turn>, longer: seq<Turn>, c: Settings, before: int, now: int)
    requires Inv(s, schedule, c, before) && before <= now && |schedule| <= |longer| && longer[..|schedule|] == schedule
    ensures Inv(s, longer, c, now)
  {
    LaterReflects(s.store, s.log, c.ttlMs, before, now);
    assert forall t :: t in schedule ==> t in longer[..|schedule|];
  }

  lemma {:induction false} IdentifiersStay(bundles: seq<seq<string>>, schedule: seq<Turn>, c: Settings)
    ensures var s := Run(bundles, schedule, c);
            |s.bundles| == |bundles| && forall p :: 0 <= p < |bundles| ==> s.bundles[p].identifiers == bundles[p]
  {
    if schedule != [] { IdentifiersStay(bundles, schedule[..|schedule| - 1], c); }
  }

  lemma TurnKeepsInv(s: System, t: Turn, prefix: seq<Turn>, c: Settings, now: int)
    requires Inv(s, prefix, c, t.at) && t.at <= now
    ensures Inv(if Enabled(s, t) then Step(s, t, c) else s, prefix + [t], c, now)
  {
    if Enabled(s, t) {
      StepKeepsInv(s, t, prefix, c);
      LaterInv(Step(s, t, c), prefix + [t], prefix + [t], c, t.at, now);
    } else {
      LaterInv(s, prefix, prefix + [t], c, t.at, now);
    }
  }

  lemma {:induction false} RunKeepsInv(bundles: seq<seq<string>>, schedule: seq<Turn>, c: Settings, now: int)
    requires InOrder(schedule) && (schedule != [] ==> schedule[|schedule| - 1].at <= now)
    ensures Inv(Run(bundles, schedule, c), schedule, c, now)
  {
    if schedule == [] {
      assert Inv(Initial(bundles), [], c, now);
    } else {
      var prefix, t := schedule[..|schedule| - 1], schedule[|schedule| - 1];
      RunKeepsInv(bundles, prefix, c, t.at);
      TurnKeepsInv(Run(bundles, prefix, c), t, prefix, c, now);
      assert schedule == prefix + [t];
    }
  }

  /** The k-th successful claim of a run was made from this slot, for this identifier, in a turn of its bundle. */
  ghost predicate ClaimOf(bundles: seq<seq<string>>, schedule: seq<Turn>, c: Settings, slot: Slot, k: nat)
    requires slot.bundle < |bundles| && slot.position < |bundles[slot.bundle]|
  {
    var log := Run(bundles, schedule, c).log;
    && k < |log| && log[k].who == slot && log[k].key == Key(c.prefix, bundles[slot.bundle][slot.position])
    && Turn(slot.bundle, log[k].at) in schedule
  }

  /** A successful bundle has claimed every one of its identifiers. */
  lemma SucceededClaims(bundles: seq<seq<string>>, schedule: seq<Turn>, c: Settings, slot: Slot) returns (k: nat)
    requires InOrder(schedule) && slot.bundle < |bundles| && slot.position < |bundles[slot.bundle]|
    requires var s := Run(bundles, schedule, c); |s.bundles| == |bundles| && s.bundles[slot.bundle].Succeeded()
    ensures ClaimOf(bundles, schedule, c, slot, k)
  {
    RunKeepsInv(bundles, schedule, c, if schedule == [] then 0 else schedule[|schedule| - 1].at);
    IdentifiersStay(bundles, schedule, c);
    var s := Run(bundles, schedule, c);
    assert BundleOk(s, slot.bundle, c);
    assert Claimed(s, slot, Key(c.prefix, bundles[slot.bundle][slot.position]));
    k :| 0 <= k < |s.log| && s.log[k].who == slot && s.log[k].key == Key(c.prefix, bundles[slot.bundle][slot.position]);
  }

  /** Whatever the interleaving, two successful bundles that share an identifier, or one that lists it twice, claimed
      it at times at least the time to live apart. Claims of bundles that failed count like any other. */
  lemma SharedIdentifiersAreSpaced(bundles: seq<seq<string>>, schedule: seq<Turn>, c: Settings, a: Slot, b: Slot)
    returns (i: nat, j: nat)
    requires InOrder(schedule) && a != b
    requires a.bundle < |bundles| && b.bundle < |bundles|
    requires a.position < |bundles[a.bundle]| && b.position < |bundles[b.bundle]|
    requires Trim(bundles[a.bundle][a.position]) == Trim(bundles[b.bundle][b.position])
    requires var s := Run(bundles, schedule, c);
             |s.bundles| == |bundles| && s.bundles[a.bundle].Succeeded() && s.bundles[b.bundle].Succeeded()
    ensures ClaimOf(bundles, schedule, c, a, i) && ClaimOf(bundles, schedule, c, b, j)
    ensures var log := Run(bundles, schedule, c).log;
            log[i].at + c.ttlMs <= log[j].at || log[j].at + c.ttlMs <= log[i].at
  {
    RunKeepsInv(bundles, schedule, c, if schedule == [] then 0 else schedule[|schedule| - 1].at);
    i := SucceededClaims(bundles, schedule, c, a);
    j := SucceededClaims(bundles, schedule, c, b);
  }

  /** The log is what happened: every claim in it was made by a turn that found its bundle about to claim that identifier
      and moved it on. */
  lemma {:induction false} ClaimsWereMade(bundles: seq<seq<string>>, schedule: seq<Turn>, c: Settings, k: nat) returns (n: nat)
    requires k < |Run(bundles, schedule, c).log|
    ensures n < |schedule|
    ensures var (claim, before) := (Run(bundles, schedule, c).log[k], Run(bundles, schedule[..n], c));
            && schedule[n] == Turn(claim.who.bundle, claim.at) && Enabled(before, schedule[n])
            && before.bundles[claim.who.bundle].next == claim.who.position
            && claim.key == Key(c.prefix, before.bundles[claim.who.bundle].identifiers[claim.who.position])
            && Step(before, schedule[n], c).bundles[claim.who.bundle].next == claim.who.position + 1
  {
    var last := |schedule| - 1;
    var s := Run(bundles, schedule[..last], c);
    if k < |s.log| {
      n := ClaimsWereMade(bundles, schedule[..last], c, k);
      assert schedule[..last][..n] == schedule[..n];
    } else {
      n := last;
    }
  }

  /** A copy of an identifier padded with spaces is the same identifier: two successful bundles that list x and l + x + r
      claimed it at times at least the time to live apart. */
  lemma PaddedIdentifiersAreSpaced(bundles: seq<seq<string>>, schedule: seq<Turn>, c: Settings, a: Slot, b: Slot,
                                   l: string, x: string, r: string)
    returns (i: nat, j: nat)
    requires InOrder(schedule) && a != b && AllSpaces(l) && AllSpaces(r)
    requires a.bundle < |bundles| && b.bundle < |bundles|
    requires a.position < |bundles[a.bundle]| && b.position < |bundles[b.bundle]|
    requires bundles[a.bundle][a.position] == x && bundles[b.bundle][b.position] == l + x + r
    requires var s := Run(bundles, schedule, c);
             |s.bundles| == |bundles| && s.bundles[a.bundle].Succeeded() && s.bundles[b.bundle].Succeeded()
    ensures ClaimOf(bundles, schedule, c, a, i) && ClaimOf(bundles, schedule, c, b, j)
    ensures var log := Run(bundles, schedule, c).log;
            log[i].at + c.ttlMs <= log[j].at || log[j].at + c.ttlMs <= log[i].at
  {
    PaddingIsTrimmed(l, x, r);
    i, j := SharedIdentifiersAreSpaced(bundles, schedule, c, a, b);
  }

  /** A turn that comes to a padded copy of an identifier whose claim is still running is refused. */
  lemma PaddedCopyIsRefused(b: Bundle, store: Store<string>, c: Settings, now: int, l: string, x: string, r: string)
    requires b.Running() && b.identifiers[b.next] == l + x + r && AllSpaces(l) && AllSpaces(r)
    requires Key(c.prefix, x) in store && store[Key(c.prefix, x)] > now
    ensures Advance(b, store, c, now).0.refused
  {
    PaddingIsTrimmed(l, x, r);
  }

  /** The exact reason for a refusal: an identifier that trims to nothing, or one whose last claim is still running. */
  lemma RefusedExactlyWhenRunning(bundles: seq<seq<string>>, schedule: seq<Turn>, c: Settings, t: Turn)
    requires InOrder(schedule + [t]) && Enabled(Run(bundles, schedule, c), t)
    ensures var s := Run(bundles, schedule, c);
            var identifier := s.bundles[t.bundle].identifiers[s.bundles[t.bundle].next];
            Step(s, t, c).bundles[t.bundle].refused
            <==> Trim(identifier) == "" || !FreeIn(s.log, Key(c.prefix, identifier), c.ttlMs, t.at)
  {
    assert forall k :: 0 <= k < |schedule| ==> schedule[k] == (schedule + [t])[k];
    assert (schedule + [t])[|schedule|] == t;
    RunKeepsInv(bundles, schedule, c, t.at);
    var s := Run(bundles, schedule, c);
    var b := s.bundles[t.bundle];
    ClaimFollowsLog(s.store, s.log, Key(c.prefix, b.identifiers[b.next]), c.ttlMs, t.at, Slot(t.bundle, b.next));
  }

  // ----- The window of a verified proof -----

  /** The proof hash and the wallet, whose joint digest is the key. */
  datatype Uniq = Uniq(proofHash: seq<int>, wallet: seq<int>)

  /** A request. Scoring its attestations, before the check, may throw; so may building, serializing and signing its
      payload, after the check. */
  datatype Score = Score(verified: bool, uniq: Uniq, scorable: bool, buildable: bool, nowMs: nat)

  datatype Answer = SignedPayload | ProofReused | InternalError

  const PROOF_TTL_SECONDS: nat := 300

  /** The stretch of the handler from its reading of the clock to its answer. */
  function Handle(seen: Store<Uniq>, r: Score): (Store<Uniq>, Answer) {
    var now := r.nowMs / 1000;
    var live := Unexpired(seen, now);
    if !r.scorable then (live, InternalError)
    else if r.verified && r.uniq in live then (live, ProofReused)
    else if !r.buildable then (live, InternalError)
    else (if r.verified then live[r.uniq := now + PROOF_TTL_SECONDS] else live, SignedPayload)
  }

  class ShieldHandler {
    var seenProofByUniq: Store<Uniq>

    constructor ()
      ensures seenProofByUniq == map[]
    {
      seenProofByUniq := map[];
    }

    method CleanupSeen(now: int)
      modifies this
      ensures seenProofByUniq == Unexpired(old(seenProofByUniq), now)
    {
      var keys := seenProofByUniq.Keys;
      while keys != {}
        invariant keys <= old(seenProofByUniq).Keys
        invariant seenProofByUniq == map key | key in old(seenProofByUniq) && (key in keys || old(seenProofByUniq)[key] > now) :: old(seenProofByUniq)[key]
        decreases keys
      {
        var key :| key in keys;
        keys := keys - {key};
        if seenProofByUniq[key] <= now { seenProofByUniq := seenProofByUniq - {key}; }
      }
    }

    method HandleShieldScoreRequest(r: Score) returns (answer: Answer)
      modifies this
      ensures (seenProofByUniq, answer) == Handle(old(seenProofByUniq), r)
    {
      var now := r.nowMs / 1000;
      CleanupSeen(now);
      if !r.scorable { return InternalError; }
      if r.verified && r.uniq in seenProofByUniq && seenProofByUniq[r.uniq] > now { return ProofReused; }
      if !r.buildable { return InternalError; }
      if r.verified { seenProofByUniq := seenProofByUniq[r.uniq := now + PROOF_TTL_SECONDS]; }
      return SignedPayload;
    }
  }

  ghost function Handled(requests: seq<Score>): Store<Uniq> {
    if requests == [] then map[] else Handle(Handled(requests[..|requests| - 1]), requests[|requests| - 1]).0
  }

  ghost function AnswerTo(requests: seq<Score>, k: nat): Answer
    requires k < |requests|
  {
    Handle(Handled(requests[..k]), requests[k]).1
  }

  ghost predicate Signed(requests: seq<Score>, k: nat)
    requires k < |requests|
  {
    AnswerTo(requests, k).SignedPayload?
  }

  ghost predicate ClockForward(requests: seq<Score>) {
    forall i, j :: 0 <= i < j < |requests| ==> requests[i].nowMs <= requests[j].nowMs
  }

  /** The verified requests signed for, each with its place in the run. */
  ghost function Issued(requests: seq<Score>): seq<Taken<Uniq, nat>> {
    if requests == [] then []
    else
      var n := |requests| - 1;
      var r := requests[n];
      if r.verified && Signed(requests, n) then Issued(requests[..n]) + [Taken(r.uniq, r.nowMs / 1000, n)] else Issued(requests[..n])
  }

  lemma HandleFollowsLog(seen: Store<Uniq>, log: seq<Taken<Uniq, nat>>, r: Score, n: nat)
    requires Reflects(seen, log, PROOF_TTL_SECONDS, r.nowMs / 1000) && Spaced(log, PROOF_TTL_SECONDS)
    ensures var (seen', answer) := Handle(seen, r);
            var log' := if r.verified && answer.SignedPayload? then log + [Taken(r.uniq, r.nowMs / 1000, n)] else log;
            Reflects(seen', log', PROOF_TTL_SECONDS, r.nowMs / 1000) && Spaced(log', PROOF_TTL_SECONDS)
    ensures Handle(seen, r).1.ProofReused?
            <==> r.verified && r.scorable && !FreeIn(log, r.uniq, PROOF_TTL_SECONDS, r.nowMs / 1000)
  {
    var at := r.nowMs / 1000;
    ClaimFollowsLog(seen, log, r.uniq, PROOF_TTL_SECONDS, at, n);
    if r.verified && Handle(seen, r).1.SignedPayload? {
      assert Handle(seen, r).0 == Claim(seen, r.uniq, PROOF_TTL_SECONDS, at).0;
    } else {
      LaterReflects(seen, log, PROOF_TTL_SECONDS, at, at);
    }
  }

  lemma IssuedStep(requests: seq<Score>)
    requires requests != []
    ensures var n := |requests| - 1;
            var (r, log, answer) := (requests[n], Issued(requests[..n]), Handle(Handled(requests[..n]), requests[n]).1);
            && Handled(requests) == Handle(Handled(requests[..n]), r).0
            && Issued(requests) == if r.verified && answer.SignedPayload? then log + [Taken(r.uniq, r.nowMs / 1000, n)] else log
  {
  }

  lemma {:induction false} IssuedFollows(requests: seq<Score>, now: int)
    requires ClockForward(requests) && (requests != [] ==> requests[|requests| - 1].nowMs / 1000 <= now)
    ensures Reflects(Handled(requests), Issued(requests), PROOF_TTL_SECONDS, now) && Spaced(Issued(requests), PROOF_TTL_SECONDS)
  {
    if requests != [] {
      var n := |requests| - 1;
      IssuedFollows(requests[..n], requests[n].nowMs / 1000);
      HandleFollowsLog(Handled(requests[..n]), Issued(requests[..n]), requests[n], n);
      IssuedStep(requests);
      LaterReflects(Handled(requests), Issued(requests), PROOF_TTL_SECONDS, requests[n].nowMs / 1000, now);
    }
  }

  lemma {:induction false} IssuedHolds(requests: seq<Score>, k: nat)
    requires k < |requests| && requests[k].verified && Signed(requests, k)
    ensures Taken(requests[k].uniq, requests[k].nowMs / 1000, k) in Issued(requests)
  {
    var n := |requests| - 1;
    if k < n {
      assert requests[..n][..k] == requests[..k];
      IssuedHolds(requests[..n], k);
    }
  }

  lemma {:induction false} IssuedComeFrom(requests: seq<Score>, t: Taken<Uniq, nat>)
    requires t in Issued(requests)
    ensures t.who < |requests| && requests[t.who].verified && Signed(requests, t.who)
    ensures t == Taken(requests[t.who].uniq, requests[t.who].nowMs / 1000, t.who)
  {
    var n := |requests| - 1;
    if t in Issued(requests[..n]) {
      IssuedComeFrom(requests[..n], t);
      assert requests[..n][..t.who] == requests[..t.who];
    }
  }

  /** The payload signed at i keeps a verified request at k from being signed. */
  ghost predicate Blocks(requests: seq<Score>, i: nat, k: nat)
    requires i < |requests| && k < |requests|
  {
    && requests[i].verified && requests[i].uniq == requests[k].uniq && Signed(requests, i)
    && requests[k].nowMs / 1000 - requests[i].nowMs / 1000 < 300
  }

  lemma ReusedWhenRunning(requests: seq<Score>, k: nat)
    requires ClockForward(requests) && k < |requests|
    ensures AnswerTo(requests, k).ProofReused?
            <==> requests[k].verified && requests[k].scorable
                 && !FreeIn(Issued(requests[..k]), requests[k].uniq, PROOF_TTL_SECONDS, requests[k].nowMs / 1000)
  {
    IssuedFollows(requests[..k], requests[k].nowMs / 1000);
    HandleFollowsLog(Handled(requests[..k]), Issued(requests[..k]), requests[k], k);
  }

  lemma RunningWhenBlocked(requests: seq<Score>, k: nat)
    requires ClockForward(requests) && k < |requests|
    ensures !FreeIn(Issued(requests[..k]), requests[k].uniq, PROOF_TTL_SECONDS, requests[k].nowMs / 1000)
            <==> exists i :: 0 <= i < k && Blocks(requests, i, k)
  {
    var before, log := requests[..k], Issued(requests[..k]);
    if !FreeIn(log, requests[k].uniq, PROOF_TTL_SECONDS, requests[k].nowMs / 1000) {
      var m :| 0 <= m < |log| && log[m].key == requests[k].uniq && log[m].at + PROOF_TTL_SECONDS > requests[k].nowMs / 1000;
      IssuedComeFrom(before, log[m]);
      assert before[..log[m].who] == requests[..log[m].who];
      assert Blocks(requests, log[m].who, k);
    }
    if i :| 0 <= i < k && Blocks(requests, i, k) {
      assert before[..i] == requests[..i];
      IssuedHolds(before, i);
    }
  }

  /** A verified request is refused as a reuse exactly when it can be scored and a payload for the same proof and wallet was
      signed under 300 clock seconds ago; verified requests that failed in between do not count. */
  lemma RefusedExactlyInWindow(requests: seq<Score>, k: nat)
    requires ClockForward(requests) && k < |requests|
    ensures AnswerTo(requests, k).ProofReused?
            <==> requests[k].verified && requests[k].scorable && exists i :: 0 <= i < k && Blocks(requests, i, k)
    ensures Signed(requests, k)
            <==> requests[k].scorable && requests[k].buildable
                 && !(requests[k].verified && exists i :: 0 <= i < k && Blocks(requests, i, k))
  {
    ReusedWhenRunning(requests, k);
    RunningWhenBlocked(requests, k);
  }

  /** Two payloads signed for one verified proof and wallet lie at least 300 clock seconds apart, hence more than 299
      seconds of real time; requests in other modes in between change nothing. */
  lemma VerifiedPayloadsAreSpaced(requests: seq<Score>, i: nat, j: nat)
    requires ClockForward(requests) && i < j < |requests| && requests[i].uniq == requests[j].uniq
    requires requests[i].verified && requests[j].verified && Signed(requests, i) && Signed(requests, j)
    ensures requests[j].nowMs / 1000 - requests[i].nowMs / 1000 >= 300
    ensures requests[j].nowMs - requests[i].nowMs > 299_000
  {
    IssuedFollows(requests, requests[|requests| - 1].nowMs / 1000);
    IssuedHolds(requests, i);
    IssuedHolds(requests, j);
    var log := Issued(requests);
    var a :| 0 <= a < |log| && log[a] == Taken(requests[i].uniq, requests[i].nowMs / 1000, i);
    var b :| 0 <= b < |log| && log[b] == Taken(requests[j].uniq, requests[j].nowMs / 1000, j);
    assert requests[i].nowMs / 1000 <= requests[j].nowMs / 1000;
  }

  /** The millisecond bound cannot be improved: 299001 ms are enough. */
  lemma SpacingIsTight(uniq: Uniq) returns (requests: seq<Score>)
    ensures ClockForward(requests) && |requests| == 2 && requests[0].uniq == requests[1].uniq
    ensures requests[0].verified && requests[1].verified && Signed(requests, 0) && Signed(requests, 1)
    ensures requests[1].nowMs - requests[0].nowMs == 299_001
  {
    requests := [Score(true, uniq, true, true, 999), Score(true, uniq, true, true, 300_000)];
    assert Handled(requests[..0]) == map[];
    assert requests[..1][..0] == [] && Handled(requests[..1]) == map[uniq := 300];
  }
}
