/** The `/api/github-stats` handlers: a read-through cache of repository
    counts. Each listed repository is looked up in the store; a stored entry
    is answered as it is, a missing one is filled with random counts, stored
    and answered. */
module StatsCache {
  import opened Wrappers
  import opened Storage

  /** The counts answered for one repository. */
  datatype Triple = Triple(stars: int, forks: int, watchers: int)

  /** Inclusive ranges for the random counts of a repository seen for the
      first time. */
  datatype Ranges = Ranges(starsLo: int, starsHi: int, forksLo: int, forksHi: int,
                           watchersLo: int, watchersHi: int)

  predicate WellFormed(g: Ranges) {
    g.starsLo <= g.starsHi && g.forksLo <= g.forksHi && g.watchersLo <= g.watchersHi
  }

  predicate InRanges(t: Triple, g: Ranges) {
    && g.starsLo <= t.stars <= g.starsHi
    && g.forksLo <= t.forks <= g.forksHi
    && g.watchersLo <= t.watchers <= g.watchersHi
  }

  function TripleOf(s: ProjectStats): Triple {
    Triple(s.stars, s.forks, s.watchers)
  }

  function Listed(repos: seq<string>): set<string> {
    set r | r in repos
  }

  /** `floor(random * 10) + 1`, `floor(random * 5)`, `floor(random * 15) + 1`. */
  const RoutesRanges := Ranges(1, 10, 0, 4, 1, 15)
  const RoutesRepos := ["reservation-system", "music-webapp", "face-recognition-attendance"]

  /** `floor(random * 20) + 5`, `floor(random * 8) + 1`, `floor(random * 15) + 3`. */
  const DemoRanges := Ranges(5, 24, 1, 8, 3, 17)
  const IndexRepos := ["reservation-system", "e-commerce-platform", "task-management",
                       "social-media-dashboard", "weather-app", "portfolio-website", "servidor"]
  const MernRepos := ["reservation-system", "e-commerce-platform", "task-management",
                      "social-media-dashboard", "weather-app", "portfolio-website"]

  /** The key order of the statistics map after upserting `repos` in turn:
      each repository not yet a key joins at the end. */
  function AppendNew(order: seq<string>, repos: seq<string>): seq<string>
    decreases |repos|
  {
    if repos == [] then order
    else
      var prev := AppendNew(order, repos[..|repos| - 1]);
      var repo := repos[|repos| - 1];
      if repo in prev then prev else prev + [repo]
  }

  /** The old order is kept as a prefix, the keys are the old ones plus the
      listed ones, and no key is repeated. */
  lemma {:induction false} AppendNewExtends(order: seq<string>, repos: seq<string>)
    ensures var r := AppendNew(order, repos);
      && |order| <= |r| && r[..|order|] == order
      && (forall x :: x in r <==> x in order || x in repos)
      && (Seqs.Distinct(order) ==> Seqs.Distinct(r))
    decreases |repos|
  {
    if repos != [] {
      var init := repos[..|repos| - 1];
      AppendNewExtends(order, init);
      assert repos == init + [repos[|repos| - 1]];
    }
  }

  /** Listing only repositories that are not keys yet, each once, appends
      them in listed order. */
  lemma {:induction false} AppendNewFresh(order: seq<string>, repos: seq<string>)
    requires Seqs.Distinct(repos) && forall x :: x in repos ==> x !in order
    ensures AppendNew(order, repos) == order + repos
    decreases |repos|
  {
    if repos != [] {
      var init := repos[..|repos| - 1];
      AppendNewFresh(order, init);
      assert repos == init + [repos[|repos| - 1]];
    }
  }

  /** One iteration of the loop: the repository's stored counts, or fresh
      counts within the ranges, stored before they are answered. */
  method ReadOne(store: MemoryStorage, repo: string, ranges: Ranges, now: nat) returns (t: Triple)
    requires store.Valid() && now >= store.lastStamp && WellFormed(ranges)
    modifies store
    ensures store.Valid() && old(store.lastStamp) <= store.lastStamp <= now
    ensures store.projectStats.Keys == old(store.projectStats.Keys) + {repo}
    ensures forall p :: p in old(store.projectStats) ==> store.projectStats[p] == old(store.projectStats)[p]
    ensures t == TripleOf(store.projectStats[repo])
    ensures repo !in old(store.projectStats) ==> InRanges(t, ranges)
    ensures store.statsOrder == if repo in old(store.statsOrder) then old(store.statsOrder)
                                else old(store.statsOrder) + [repo]
    ensures store.nextId == old(store.nextId) + (|store.statsOrder| - |old(store.statsOrder)|)
    ensures store.users == old(store.users) && store.contacts == old(store.contacts)
    ensures store.blogSubscribers == old(store.blogSubscribers)
  {
    store.KeysInOrder();
    var dbStats := store.GetProjectStats(repo);
    if dbStats.Some? {
      t := TripleOf(dbStats.value);
    } else {
      var stars :| ranges.starsLo <= stars <= ranges.starsHi;
      var forks :| ranges.forksLo <= forks <= ranges.forksHi;
      var watchers :| ranges.watchersLo <= watchers <= ranges.watchersHi;
      var saved := store.UpdateProjectStats(StatsInput(repo, stars, forks, watchers), now);
      t := Triple(stars, forks, watchers);
    }
  }

  /** What the loop has established about the answers so far: the store
      holds the old entries unchanged plus exactly the answered keys, each
      answer is what the store holds, and a key new to the store was
      answered within the ranges. */
  ghost predicate Answered(before: map<string, ProjectStats>, current: map<string, ProjectStats>,
                           stats: map<string, Triple>, ranges: Ranges)
  {
    && current.Keys == before.Keys + stats.Keys
    && (forall p :: p in before ==> current[p] == before[p])
    && (forall r :: r in stats ==> stats[r] == TripleOf(current[r]))
    && (forall r :: r in stats && r !in before ==> InRanges(stats[r], ranges))
  }

  /** One more iteration of the loop keeps `Answered`. */
  lemma AnsweredStep(before: map<string, ProjectStats>, mid: map<string, ProjectStats>,
                     after: map<string, ProjectStats>, stats: map<string, Triple>,
                     repo: string, t: Triple, ranges: Ranges)
    requires Answered(before, mid, stats, ranges)
    requires after.Keys == mid.Keys + {repo}
    requires forall p :: p in mid ==> after[p] == mid[p]
    requires t == TripleOf(after[repo])
    requires repo !in mid ==> InRanges(t, ranges)
    ensures Answered(before, after, stats[repo := t], ranges)
  {
    if repo in mid && repo !in before {
      assert stats[repo] == TripleOf(mid[repo]);
    }
  }

  /** The loop shared by the three handlers. Afterwards every listed
      repository is stored and answered with exactly its stored counts;
      entries stored before are neither changed nor re-randomised, and a
      repository stored for the first time has counts within the ranges.
      Nothing but the statistics table changes. */
  method ReadThrough(store: MemoryStorage, repos: seq<string>, ranges: Ranges, now: nat)
    returns (stats: map<string, Triple>)
    requires store.Valid() && now >= store.lastStamp && WellFormed(ranges)
    modifies store
    ensures store.Valid() && store.lastStamp >= old(store.lastStamp) && now >= store.lastStamp
    ensures stats.Keys == Listed(repos)
    ensures Answered(old(store.projectStats), store.projectStats, stats, ranges)
    ensures store.statsOrder == AppendNew(old(store.statsOrder), repos)
    ensures store.nextId == old(store.nextId) + (|store.statsOrder| - |old(store.statsOrder)|)
    ensures store.users == old(store.users) && store.contacts == old(store.contacts)
    ensures store.blogSubscribers == old(store.blogSubscribers)
  {
    ghost var before := store.projectStats;
    stats := map[];
    for i := 0 to |repos|
      invariant store.Valid() && old(store.lastStamp) <= store.lastStamp <= now
      invariant forall r :: r in stats <==> r in repos[..i]
      invariant Answered(before, store.projectStats, stats, ranges)
      invariant store.statsOrder == AppendNew(old(store.statsOrder), repos[..i])
      invariant store.nextId == old(store.nextId) + (|store.statsOrder| - |old(store.statsOrder)|)
      invariant store.users == old(store.users) && store.contacts == old(store.contacts)
      invariant store.blogSubscribers == old(store.blogSubscribers)
    {
      var repo := repos[i];
      assert repos[..i + 1] == repos[..i] + [repo];
      assert repos[..i + 1][..i] == repos[..i];
      ghost var mid := store.projectStats;
      var t := ReadOne(store, repo, ranges, now);
      AnsweredStep(before, mid, store.projectStats, stats, repo, t, ranges);
      stats := stats[repo := t];
    }
    assert repos[..|repos|] == repos;
    assert stats.Keys == Listed(repos);
  }

  /** A second request over the same store answers exactly what the first
      one answered: after the first, every listed repository is a hit. */
  method ReadTwice(store: MemoryStorage, repos: seq<string>, ranges: Ranges, now1: nat, now2: nat)
    returns (first: map<string, Triple>, second: map<string, Triple>)
    requires store.Valid() && store.lastStamp <= now1 <= now2 && WellFormed(ranges)
    modifies store
    ensures second == first
    ensures store.projectStats.Keys == old(store.projectStats.Keys) + Listed(repos)
  {
    ghost var start := store.projectStats;
    first := ReadThrough(store, repos, ranges, now1);
    ghost var between := store.projectStats;
    second := ReadThrough(store, repos, ranges, now2);
    AnsweredAgain(start, between, store.projectStats, first, second, ranges);
  }

  /** Answering the same keys a second time, after the first answers were
      stored, gives the first answers back and stores nothing new. */
  lemma AnsweredAgain(start: map<string, ProjectStats>, between: map<string, ProjectStats>,
                      after: map<string, ProjectStats>, first: map<string, Triple>,
                      second: map<string, Triple>, ranges: Ranges)
    requires Answered(start, between, first, ranges) && Answered(between, after, second, ranges)
    requires second.Keys == first.Keys
    ensures second == first && after == between
  {
    forall r | r in second ensures second[r] == first[r] {
      assert r in first && r in between;
    }
  }

  /** The fixed repository lists have no repeats; the list of
      server/mernServer.js is that of server/index.ts without "servidor". */
  lemma RepoLists()
    ensures |Listed(RoutesRepos)| == 3 && |Listed(IndexRepos)| == 7 && |Listed(MernRepos)| == 6
    ensures Listed(IndexRepos) == Listed(MernRepos) + {"servidor"} && "servidor" !in Listed(MernRepos)
    ensures Seqs.Distinct(RoutesRepos) && Seqs.Distinct(IndexRepos) && Seqs.Distinct(MernRepos)
  {
    assert IndexRepos == MernRepos + ["servidor"];
    assert forall i :: 0 <= i < 7 ==> IndexRepos[i][0] == "retswps"[i];
    assert IndexRepos[3][1] == 'o' && IndexRepos[6][1] == 'e';
    assert Seqs.Distinct(IndexRepos);
    assert Seqs.Distinct(MernRepos);
    assert RoutesRepos[0][0] == 'r' && RoutesRepos[1][0] == 'm' && RoutesRepos[2][0] == 'f';
    Seqs.DistinctCard(RoutesRepos);
    Seqs.DistinctCard(IndexRepos);
    Seqs.DistinctCard(MernRepos);
  }

  /** `/api/github-stats` of server/routes.ts: the three fixed repositories,
      with stars in [1,10], forks in [0,4] and watchers in [1,15] on a miss. */
  method RoutesGithubStats(store: MemoryStorage, now: nat) returns (stats: map<string, Triple>)
    requires store.Valid() && now >= store.lastStamp
    modifies store
    ensures store.Valid() && old(store.lastStamp) <= store.lastStamp <= now
    ensures stats.Keys == Listed(RoutesRepos) && |stats| == 3
    ensures Answered(old(store.projectStats), store.projectStats, stats, RoutesRanges)
    ensures store.statsOrder == AppendNew(old(store.statsOrder), RoutesRepos)
    ensures (forall r :: r in RoutesRepos ==> r !in old(store.projectStats)) ==>
              store.statsOrder == old(store.statsOrder) + RoutesRepos
    ensures store.nextId == old(store.nextId) + (|store.statsOrder| - |old(store.statsOrder)|)
    ensures store.users == old(store.users) && store.contacts == old(store.contacts)
    ensures store.blogSubscribers == old(store.blogSubscribers)
  {
    store.KeysInOrder();
    ghost var order := store.statsOrder;
    stats := ReadThrough(store, RoutesRepos, RoutesRanges, now);
    RepoLists();
    if forall r :: r in RoutesRepos ==> r !in old(store.projectStats) {
      AppendNewFresh(order, RoutesRepos);
    }
  }

  /** `/api/github-stats` of server/index.ts: the seven fixed repositories,
      with stars in [5,24], forks in [1,8] and watchers in [3,17] on a miss. */
  method IndexGithubStats(store: MemoryStorage, now: nat) returns (stats: map<string, Triple>)
    requires store.Valid() && now >= store.lastStamp
    modifies store
    ensures store.Valid() && old(store.lastStamp) <= store.lastStamp <= now
    ensures stats.Keys == Listed(IndexRepos) && |stats| == 7
    ensures Answered(old(store.projectStats), store.projectStats, stats, DemoRanges)
    ensures store.statsOrder == AppendNew(old(store.statsOrder), IndexRepos)
    ensures (forall r :: r in IndexRepos ==> r !in old(store.projectStats)) ==>
              store.statsOrder == old(store.statsOrder) + IndexRepos
    ensures store.nextId == old(store.nextId) + (|store.statsOrder| - |old(store.statsOrder)|)
    ensures store.users == old(store.users) && store.contacts == old(store.contacts)
    ensures store.blogSubscribers == old(store.blogSubscribers)
  {
    store.KeysInOrder();
    ghost var order := store.statsOrder;
    stats := ReadThrough(store, IndexRepos, DemoRanges, now);
    RepoLists();
    if forall r :: r in IndexRepos ==> r !in old(store.projectStats) {
      AppendNewFresh(order, IndexRepos);
    }
  }

  /** `/api/github-stats` of server/mernServer.js: the list of server/index.ts
      without "servidor", with the same ranges. */
  method MernGithubStats(store: MemoryStorage, now: nat) returns (stats: map<string, Triple>)
    requires store.Valid() && now >= store.lastStamp
    modifies store
    ensures store.Valid() && old(store.lastStamp) <= store.lastStamp <= now
    ensures stats.Keys == Listed(MernRepos) && |stats| == 6 && "servidor" !in stats
    ensures Answered(old(store.projectStats), store.projectStats, stats, DemoRanges)
    ensures store.statsOrder == AppendNew(old(store.statsOrder), MernRepos)
    ensures (forall r :: r in MernRepos ==> r !in old(store.projectStats)) ==>
              store.statsOrder == old(store.statsOrder) + MernRepos
    ensures store.nextId == old(store.nextId) + (|store.statsOrder| - |old(store.statsOrder)|)
    ensures store.users == old(store.users) && store.contacts == old(store.contacts)
    ensures store.blogSubscribers == old(store.blogSubscribers)
  {
    store.KeysInOrder();
    ghost var order := store.statsOrder;
    stats := ReadThrough(store, MernRepos, DemoRanges, now);
    RepoLists();
    if forall r :: r in MernRepos ==> r !in old(store.projectStats) {
      AppendNewFresh(order, MernRepos);
    }
  }

  /** Two `/api/github-stats` requests of server/index.ts in a row: the
      second answers exactly what the first answered and stores nothing new. */
  method IndexStatsTwice(store: MemoryStorage, now1: nat, now2: nat)
    returns (first: map<string, Triple>, second: map<string, Triple>)
    requires store.Valid() && store.lastStamp <= now1 <= now2
    modifies store
    ensures second == first && first.Keys == Listed(IndexRepos)
    ensures store.projectStats.Keys == old(store.projectStats.Keys) + Listed(IndexRepos)
  {
    ghost var start := store.projectStats;
    first := IndexGithubStats(store, now1);
    ghost var between := store.projectStats;
    second := IndexGithubStats(store, now2);
    AnsweredAgain(start, between, store.projectStats, first, second, DemoRanges);
  }
}
