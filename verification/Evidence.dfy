/** What a dignity score says about the attestations it was computed from, in the words of the scoring model: over 50 commits
    on github give 40 points, over 10 hours on spotify 30, a year and activity of 50 on twitter or x.com 20. */
module Evidence {
  import opened Outcomes
  import opened Dignity

  /** The provider's name contains the word. */
  ghost predicate Mentions(provider: string, word: string) {
    exists i :: OccursAt(provider, word, i)
  }

  ghost predicate OccursAt(provider: string, word: string, i: int) {
    0 <= i <= |provider| - |word| && provider[i..i + |word|] == word
  }

  /** The number found under the first of the paths that leads to one. */
  ghost predicate Reads(a: Attestation, paths: seq<string>, n: real) {
    exists i :: 0 <= i < |paths| && FirstAt(a, paths, i) && a.numbers[paths[i]] == n
  }

  ghost predicate FirstAt(a: Attestation, paths: seq<string>, i: nat)
    requires i < |paths|
  {
    paths[i] in a.numbers && forall j :: 0 <= j < i ==> paths[j] !in a.numbers
  }

  ghost predicate ReadsOver(a: Attestation, paths: seq<string>, x: real) {
    exists n :: Reads(a, paths, n) && n > x
  }

  ghost predicate ReadsAtLeast(a: Attestation, paths: seq<string>, x: real) {
    exists n :: Reads(a, paths, n) && n >= x
  }

  ghost predicate ManyCommits(s: seq<Attestation>) {
    exists a :: a in s && Mentions(a.provider, "github")
                && ReadsOver(a, ["commit_count", "commits", "data.commit_count", "data.commits"], 50.0)
  }

  ghost predicate ManyHours(s: seq<Attestation>) {
    exists a :: a in s && Mentions(a.provider, "spotify")
                && ReadsOver(a, ["playtime_hours", "hours", "data.playtime_hours", "data.hours"], 10.0)
  }

  ghost predicate OnTwitter(a: Attestation) {
    Mentions(a.provider, "twitter") || Mentions(a.provider, "x.com")
  }

  /** Age and activity may come from different attestations. */
  ghost predicate OldAndActive(s: seq<Attestation>) {
    && (exists a :: a in s && OnTwitter(a) && ReadsOver(a, ["account_age_days", "age_days", "data.account_age_days"], 365.0))
    && (exists a :: a in s && OnTwitter(a) && ReadsAtLeast(a, ["activity_score", "engagement_score", "data.activity_score"], 50.0))
  }

  // ----- Reading -----

  lemma {:induction false} IncludesIsMention(s: string, t: string)
    ensures Includes(s, t) <==> Mentions(s, t)
  {
    if t <= s { assert OccursAt(s, t, 0); }
    if s != [] {
      IncludesIsMention(s[1..], t);
      if i :| OccursAt(s[1..], t, i) { assert OccursAt(s, t, i + 1); }
      if i :| OccursAt(s, t, i) && i > 0 { assert OccursAt(s[1..], t, i - 1); }
    }
    if OccursAt(s, t, 0) { assert t <= s; }
  }

  lemma {:induction false} ReadIsFirst(a: Attestation, paths: seq<string>, n: real)
    ensures ReadPathNumber(a, paths) == Some(n) <==> Reads(a, paths, n)
  {
    if paths != [] {
      ReadIsFirst(a, paths[1..], n);
      if paths[0] in a.numbers {
        assert FirstAt(a, paths, 0);
      } else {
        if i :| 0 <= i < |paths[1..]| && FirstAt(a, paths[1..], i) && a.numbers[paths[1..][i]] == n {
          assert forall j :: 0 <= j < i + 1 ==> paths[j] !in a.numbers by {
            assert forall j :: 1 <= j < i + 1 ==> paths[j] == paths[1..][j - 1];
          }
          assert FirstAt(a, paths, i + 1);
        }
        if i :| 0 <= i < |paths| && FirstAt(a, paths, i) && a.numbers[paths[i]] == n {
          assert i > 0;
          assert forall j :: 0 <= j < i - 1 ==> paths[1..][j] == paths[j + 1];
          assert FirstAt(a, paths[1..], i - 1);
        }
      }
    }
  }

  lemma NumberIsReading(a: Attestation, paths: seq<string>, x: real)
    requires x > 0.0
    ensures NumberOrZero(a, paths) > x <==> ReadsOver(a, paths, x)
    ensures NumberOrZero(a, paths) >= x <==> ReadsAtLeast(a, paths, x)
  {
    var n := NumberOrZero(a, paths);
    ReadIsFirst(a, paths, n);
    if m :| Reads(a, paths, m) { ReadIsFirst(a, paths, m); }
    if ReadsOver(a, paths, x) {
      var m :| Reads(a, paths, m) && m > x;
      ReadIsFirst(a, paths, m);
    }
    if ReadsAtLeast(a, paths, x) {
      var m :| Reads(a, paths, m) && m >= x;
      ReadIsFirst(a, paths, m);
    }
  }

  /** The maximum over a list is zero or somebody's contribution. */
  lemma {:induction false} LargestIsAttained(k: Signal, s: seq<Attestation>)
    ensures Largest(k, s) == 0.0 || exists a :: a in s && Contribution(k, a) == Largest(k, s)
  {
    if s != [] {
      var last := |s| - 1;
      LargestIsAttained(k, s[..last]);
      if a :| a in s[..last] && Contribution(k, a) == Largest(k, s[..last]) { assert a in s; }
      assert s[last] in s;
    }
  }

  lemma LargestAsReading(k: Signal, s: seq<Attestation>, x: real)
    requires x > 0.0
    ensures Largest(k, s) > x <==> exists a :: a in s && Matches(k, a.provider) && ReadsOver(a, Paths(k), x)
    ensures Largest(k, s) >= x <==> exists a :: a in s && Matches(k, a.provider) && ReadsAtLeast(a, Paths(k), x)
  {
    LargestIsAttained(k, s);
    if Largest(k, s) >= x {
      var a :| a in s && Contribution(k, a) == Largest(k, s);
      NumberIsReading(a, Paths(k), x);
    }
    forall a | a in s && Matches(k, a.provider)
      ensures ReadsOver(a, Paths(k), x) ==> Largest(k, s) > x
      ensures ReadsAtLeast(a, Paths(k), x) ==> Largest(k, s) >= x
    {
      LargestIsUpperBound(k, s, a);
      NumberIsReading(a, Paths(k), x);
    }
  }

  // ----- The score -----

  lemma MatchIsMention(a: Attestation)
    ensures Matches(GithubCommits, a.provider) <==> Mentions(a.provider, "github")
    ensures Matches(SpotifyHours, a.provider) <==> Mentions(a.provider, "spotify")
    ensures Matches(TwitterAge, a.provider) <==> OnTwitter(a)
    ensures Matches(TwitterActivity, a.provider) <==> OnTwitter(a)
  {
    IncludesIsMention(a.provider, "github");
    IncludesIsMention(a.provider, "spotify");
    IncludesIsMention(a.provider, "twitter");
    IncludesIsMention(a.provider, "x.com");
  }

  lemma SignalsAsReadings(s: seq<Attestation>)
    ensures Largest(GithubCommits, s) > 50.0 <==> ManyCommits(s)
    ensures Largest(SpotifyHours, s) > 10.0 <==> ManyHours(s)
    ensures Largest(TwitterAge, s) > 365.0 && Largest(TwitterActivity, s) >= 50.0 <==> OldAndActive(s)
  {
    LargestAsReading(GithubCommits, s, 50.0);
    LargestAsReading(SpotifyHours, s, 10.0);
    LargestAsReading(TwitterAge, s, 365.0);
    LargestAsReading(TwitterActivity, s, 50.0);
    forall a: Attestation
      ensures Matches(GithubCommits, a.provider) <==> Mentions(a.provider, "github")
      ensures Matches(SpotifyHours, a.provider) <==> Mentions(a.provider, "spotify")
      ensures Matches(TwitterAge, a.provider) <==> OnTwitter(a)
      ensures Matches(TwitterActivity, a.provider) <==> OnTwitter(a)
    {
      MatchIsMention(a);
    }
  }

  /** The total is the sum of the points, and the mask marks which of them are positive. */
  lemma TotalAndMask(s: seq<Attestation>)
    ensures var b := Score(s);
            && b.totalScore == b.githubPoints + b.spotifyPoints + b.twitterPoints
            && 0 <= b.adapterMask < 8
            && (b.adapterMask % 2 == 1 <==> b.githubPoints > 0)
            && (b.adapterMask / 2 % 2 == 1 <==> b.spotifyPoints > 0)
            && (b.adapterMask / 4 % 2 == 1 <==> b.twitterPoints > 0)
  {
  }

  /** The points, the total and the mask, from the attestations. */
  lemma PointsFromEvidence(s: seq<Attestation>)
    ensures var b := Score(s);
            && b.githubPoints == (if ManyCommits(s) then 40 else 0)
            && b.spotifyPoints == (if ManyHours(s) then 30 else 0)
            && b.twitterPoints == (if OldAndActive(s) then 20 else 0)
            && b.googlePoints == 0
            && b.totalScore == b.githubPoints + b.spotifyPoints + b.twitterPoints
            && 0 <= b.adapterMask < 8
            && (b.adapterMask % 2 == 1 <==> b.githubPoints > 0)
            && (b.adapterMask / 2 % 2 == 1 <==> b.spotifyPoints > 0)
            && (b.adapterMask / 4 % 2 == 1 <==> b.twitterPoints > 0)
  {
    SignalsAsReadings(s);
    TotalAndMask(s);
  }

  /** The score signed for: nothing for a suspected bot, at least 25 for a guest, the points as they are when verified. */
  lemma ScoreFromEvidence(s: seq<Attestation>, mode: UserMode)
    ensures var points := (if ManyCommits(s) then 40 else 0) + (if ManyHours(s) then 30 else 0) + (if OldAndActive(s) then 20 else 0);
            ScoreInMode(s, mode) ==
            match mode
            case BotSuspected => 0
            case Guest => if points == 0 || points == 20 then 25 else points
            case Verified => points
    ensures ApplyUserMode(Score(s), mode).adapterMask == if mode.BotSuspected? then 0 else Score(s).adapterMask
  {
    PointsFromEvidence(s);
  }
}
