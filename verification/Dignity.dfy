/** Dignity scoring: the largest reading of each signal over all attestations, turned into points. */
module Dignity {
  import opened Outcomes

  /** A provider name, lower-cased, and the finite number each dotted path resolves to, if it resolves to one. */
  datatype Attestation = Attestation(provider: string, numbers: map<string, real>)

  datatype Signal = GithubCommits | SpotifyHours | TwitterAge | TwitterActivity | GoogleAge

  datatype UserMode = BotSuspected | Guest | Verified

  datatype Breakdown = Breakdown(
    githubCommits: real, githubPoints: int, spotifyHours: real, spotifyPoints: int,
    twitterAge: real, twitterActivity: real, twitterPoints: int,
    googleAge: real, googlePoints: int, adapterMask: int, totalScore: int)

  predicate Includes(s: string, t: string) {
    t <= s || (s != [] && Includes(s[1..], t))
  }

  function Matches(k: Signal, provider: string): bool {
    match k
    case GithubCommits => Includes(provider, "github")
    case SpotifyHours => Includes(provider, "spotify")
    case TwitterAge | TwitterActivity => Includes(provider, "twitter") || Includes(provider, "x.com")
    case GoogleAge => Includes(provider, "google")
  }

  function Paths(k: Signal): seq<string> {
    match k
    case GithubCommits => ["commit_count", "commits", "data.commit_count", "data.commits"]
    case SpotifyHours => ["playtime_hours", "hours", "data.playtime_hours", "data.hours"]
    case TwitterAge => ["account_age_days", "age_days", "data.account_age_days"]
    case TwitterActivity => ["activity_score", "engagement_score", "data.activity_score"]
    case GoogleAge => ["account_age_days", "age_days", "data.account_age_days"]
  }

  /** The first path that resolves to a number. */
  function ReadPathNumber(a: Attestation, paths: seq<string>): Option<real> {
    if paths == [] then None
    else if paths[0] in a.numbers then Some(a.numbers[paths[0]])
    else ReadPathNumber(a, paths[1..])
  }

  function NumberOrZero(a: Attestation, paths: seq<string>): real {
    match ReadPathNumber(a, paths)
    case Some(n) => n
    case None => 0.0
  }

  function MaxReal(a: real, b: real): real {
    if a < b then b else a
  }

  function Contribution(k: Signal, a: Attestation): real {
    if Matches(k, a.provider) then NumberOrZero(a, Paths(k)) else 0.0
  }

  /** The running maximum over a list, starting from zero. */
  function Largest(k: Signal, s: seq<Attestation>): real {
    if s == [] then 0.0 else MaxReal(Largest(k, s[..|s| - 1]), Contribution(k, s[|s| - 1]))
  }

  // ----- The extractors -----

  method ExtractGithubCommits(attestations: seq<Attestation>) returns (githubCommits: real)
    ensures githubCommits == Largest(GithubCommits, attestations)
  {
    githubCommits := 0.0;
    for n := 0 to |attestations|
      invariant githubCommits == Largest(GithubCommits, attestations[..n])
    {
      assert attestations[..n + 1][..n] == attestations[..n];
      LargestNonnegative(GithubCommits, attestations[..n]);
      var raw := attestations[n];
      if !Includes(raw.provider, "github") { continue; }
      githubCommits := MaxReal(githubCommits,
        NumberOrZero(raw, ["commit_count", "commits", "data.commit_count", "data.commits"]));
    }
    assert attestations[..|attestations|] == attestations;
  }

  method ExtractSpotifyHours(attestations: seq<Attestation>) returns (spotifyHours: real)
    ensures spotifyHours == Largest(SpotifyHours, attestations)
  {
    spotifyHours := 0.0;
    for n := 0 to |attestations|
      invariant spotifyHours == Largest(SpotifyHours, attestations[..n])
    {
      assert attestations[..n + 1][..n] == attestations[..n];
      LargestNonnegative(SpotifyHours, attestations[..n]);
      var raw := attestations[n];
      if !Includes(raw.provider, "spotify") { continue; }
      spotifyHours := MaxReal(spotifyHours,
        NumberOrZero(raw, ["playtime_hours", "hours", "data.playtime_hours", "data.hours"]));
    }
    assert attestations[..|attestations|] == attestations;
  }

  method ExtractTwitterSignals(attestations: seq<Attestation>) returns (ageDays: real, activity: real)
    ensures ageDays == Largest(TwitterAge, attestations) && activity == Largest(TwitterActivity, attestations)
  {
    ageDays, activity := 0.0, 0.0;
    for n := 0 to |attestations|
      invariant ageDays == Largest(TwitterAge, attestations[..n])
      invariant activity == Largest(TwitterActivity, attestations[..n])
    {
      assert attestations[..n + 1][..n] == attestations[..n];
      LargestNonnegative(TwitterAge, attestations[..n]);
      LargestNonnegative(TwitterActivity, attestations[..n]);
      var raw := attestations[n];
      if !Includes(raw.provider, "twitter") && !Includes(raw.provider, "x.com") { continue; }
      ageDays := MaxReal(ageDays, NumberOrZero(raw, ["account_age_days", "age_days", "data.account_age_days"]));
      activity := MaxReal(activity, NumberOrZero(raw, ["activity_score", "engagement_score", "data.activity_score"]));
    }
    assert attestations[..|attestations|] == attestations;
  }

  method ExtractGoogleFallbackAgeDays(attestations: seq<Attestation>) returns (ageDays: real)
    ensures ageDays == Largest(GoogleAge, attestations)
  {
    ageDays := 0.0;
    for n := 0 to |attestations|
      invariant ageDays == Largest(GoogleAge, attestations[..n])
    {
      assert attestations[..n + 1][..n] == attestations[..n];
      LargestNonnegative(GoogleAge, attestations[..n]);
      var raw := attestations[n];
      if !Includes(raw.provider, "google") { continue; }
      ageDays := MaxReal(ageDays, NumberOrZero(raw, ["account_age_days", "age_days", "data.account_age_days"]));
    }
    assert attestations[..|attestations|] == attestations;
  }

  // ----- The score -----

  function Bit(points: int, bit: int): int {
    if points > 0 then bit else 0
  }

  function Score(s: seq<Attestation>): Breakdown {
    var commits, hours := Largest(GithubCommits, s), Largest(SpotifyHours, s);
    var age, activity := Largest(TwitterAge, s), Largest(TwitterActivity, s);
    var github := if commits > 50.0 then 40 else 0;
    var spotify := if hours > 10.0 then 30 else 0;
    var twitter := if age > 365.0 && activity >= 50.0 then 20 else 0;
    var sum := github + spotify + twitter;
    var capped := if sum > 100 then 100 else sum;
    Breakdown(commits, github, hours, spotify, age, activity, twitter, Largest(GoogleAge, s), 0,
              Bit(github, 1) + Bit(spotify, 2) + Bit(twitter, 4), if capped < 0 then 0 else capped)
  }

  function ApplyUserMode(b: Breakdown, mode: UserMode): Breakdown {
    match mode
    case BotSuspected => Breakdown(0.0, 0, 0.0, 0, 0.0, 0.0, 0, 0.0, 0, 0, 0)
    case Guest => b.(totalScore := if b.totalScore < 25 then 25 else b.totalScore)
    case Verified => b
  }

  function ScoreInMode(s: seq<Attestation>, mode: UserMode): (r: int)
    ensures 0 <= r <= 90
  {
    ApplyUserMode(Score(s), mode).totalScore
  }

  method ComputeDignityScore(attestations: seq<Attestation>) returns (b: Breakdown)
    ensures b == Score(attestations)
  {
    var commits := ExtractGithubCommits(attestations);
    var hours := ExtractSpotifyHours(attestations);
    var age, activity := ExtractTwitterSignals(attestations);
    var google := ExtractGoogleFallbackAgeDays(attestations);
    var github := if commits > 50.0 then 40 else 0;
    var spotify := if hours > 10.0 then 30 else 0;
    var twitter := if age > 365.0 && activity >= 50.0 then 20 else 0;
    var mask := Bit(github, 1) + Bit(spotify, 2) + Bit(twitter, 4);
    var sum := github + spotify + twitter;
    var capped := if sum > 100 then 100 else sum;
    b := Breakdown(commits, github, hours, spotify, age, activity, twitter, google, 0, mask, if capped < 0 then 0 else capped);
  }

  // ----- What the maximum means -----

  lemma {:induction false} LargestNonnegative(k: Signal, s: seq<Attestation>)
    ensures Largest(k, s) >= 0.0
  {
    if s != [] { LargestNonnegative(k, s[..|s| - 1]); }
  }

  lemma {:induction false} LargestIsUpperBound(k: Signal, s: seq<Attestation>, a: Attestation)
    requires a in s
    ensures Contribution(k, a) <= Largest(k, s)
  {
    if a != s[|s| - 1] { LargestIsUpperBound(k, s[..|s| - 1], a); }
  }

  lemma {:induction false} LargestIsLeast(k: Signal, s: seq<Attestation>, bound: real)
    requires bound >= 0.0 && forall a :: a in s ==> Contribution(k, a) <= bound
    ensures Largest(k, s) <= bound
  {
    if s != [] { LargestIsLeast(k, s[..|s| - 1], bound); }
  }

  /** Order and repetition do not matter, and more evidence never lowers a signal. */
  lemma SignalMonotone(k: Signal, few: seq<Attestation>, more: seq<Attestation>)
    requires forall a :: a in few ==> a in more
    ensures Largest(k, few) <= Largest(k, more)
  {
    forall a | a in few
      ensures Contribution(k, a) <= Largest(k, more)
    {
      LargestIsUpperBound(k, more, a);
    }
    LargestNonnegative(k, more);
    LargestIsLeast(k, few, Largest(k, more));
  }

  lemma ScoreMonotone(few: seq<Attestation>, more: seq<Attestation>, mode: UserMode)
    requires forall a :: a in few ==> a in more
    ensures ScoreInMode(few, mode) <= ScoreInMode(more, mode)
  {
    SignalMonotone(GithubCommits, few, more);
    SignalMonotone(SpotifyHours, few, more);
    SignalMonotone(TwitterAge, few, more);
    SignalMonotone(TwitterActivity, few, more);
  }

  /** The whole breakdown depends only on which attestations are present, not on their order. */
  lemma ScoreOrderIndependent(s: seq<Attestation>, t: seq<Attestation>)
    requires forall a :: a in s <==> a in t
    ensures Score(s) == Score(t)
  {
    forall k: Signal
      ensures Largest(k, s) == Largest(k, t)
    {
      SignalMonotone(k, s, t);
      SignalMonotone(k, t, s);
    }
  }
}
