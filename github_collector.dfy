/**
 * The organisation-level part of `collectors/gitHubCollector.ts`:
 * `collectContributors`, `getOrgMemberCount` and `collectGitHubStats`, which
 * builds one record per core package from the per-repository statistics,
 * fills in the contributor counts, sorts the records by stars and sums them
 * into organisation totals.
 */
module GitHubCollector {
  import opened Common
  import opened Paging
  import opened Sorting
  import opened GitHubApi
  import opened RepoActivity

  // ----------------------------------------------------------- contributors

  /** `c.login && !c.login.endsWith("[bot]") && !c.login.endsWith("-bot")` */
  predicate IsHumanLogin(login: Option<string>) {
    Truthy(login) && !EndsWith(login.value, "[bot]") && !EndsWith(login.value, "-bot")
  }

  /** The logins a sequence of contributor items adds to a set. */
  function LoginsOf(items: seq<ContributorItem>): set<string> {
    if items == [] then {}
    else
      var last := items[|items| - 1];
      LoginsOf(items[..|items| - 1]) + (if IsHumanLogin(last.login) then {last.login.value} else {})
  }

  lemma {:induction false} LoginsOfConcat(a: seq<ContributorItem>, b: seq<ContributorItem>)
    ensures LoginsOf(a + b) == LoginsOf(a) + LoginsOf(b)
    decreases |b|
  {
    if b == [] {
      assert a + b == a;
    } else {
      assert (a + b)[..|a + b| - 1] == a + b[..|b| - 1];
      LoginsOfConcat(a, b[..|b| - 1]);
    }
  }

  /** The item carries the login `x` and passes the bot filter. */
  predicate CarriesLogin(c: ContributorItem, x: string) {
    c.login == Some(x) && IsHumanLogin(c.login)
  }

  /** A login is collected exactly when some item carries it and passes the bot filter. */
  lemma {:induction false} LoginsOfMembers(items: seq<ContributorItem>, x: string)
    ensures x in LoginsOf(items) <==> exists i :: 0 <= i < |items| && CarriesLogin(items[i], x)
    decreases |items|
  {
    if items != [] {
      var init := items[..|items| - 1];
      var last := items[|items| - 1];
      LoginsOfMembers(init, x);
      assert x in LoginsOf(items) <==> x in LoginsOf(init) || CarriesLogin(last, x);
      assert forall i :: 0 <= i < |init| ==> init[i] == items[i];
      if CarriesLogin(last, x) {
        assert CarriesLogin(items[|items| - 1], x);
      }
    }
  }

  /** The contributor listing of one repository, by the repository's name. */
  datatype ContributorQuery = ContributorQuery(repo: string, contributors: Listing<ContributorItem>)

  /** What `collectContributors` returns: the union of the logins and the size of each repository's set. */
  datatype ContributorsData = ContributorsData(allContributors: set<string>, repoContributorCounts: map<string, nat>)

  /** The logins of one repository, over every page of its listing. */
  function RepoLogins(q: ContributorQuery): set<string> {
    LoginsOf(AllPages(q.contributors).items)
  }

  /** No listing among the first `n` queries throws. */
  predicate NoneThrows(qs: seq<ContributorQuery>, n: nat)
    requires n <= |qs|
  {
    forall k :: 0 <= k < n ==> AllPages(qs[k].contributors).thrown.None?
  }

  function UnionLogins(qs: seq<ContributorQuery>): set<string> {
    if qs == [] then {} else UnionLogins(qs[..|qs| - 1]) + RepoLogins(qs[|qs| - 1])
  }

  /** `repoContributorCounts.set(repo.name, repoContributors.size)` in query order: a later repository of the same name wins. */
  function CountsOf(qs: seq<ContributorQuery>): map<string, nat> {
    if qs == [] then map[]
    else CountsOf(qs[..|qs| - 1])[qs[|qs| - 1].repo := |RepoLogins(qs[|qs| - 1])|]
  }

  function RepoNames(qs: seq<ContributorQuery>): set<string> {
    if qs == [] then {} else RepoNames(qs[..|qs| - 1]) + {qs[|qs| - 1].repo}
  }

  /** What `collectContributors` returns, or `None` when one of its requests throws. */
  function ContributorsOf(qs: seq<ContributorQuery>): Option<ContributorsData> {
    if NoneThrows(qs, |qs|) then Some(ContributorsData(UnionLogins(qs), CountsOf(qs))) else None
  }

  /** The `data.forEach` of `collectContributors`: one page's logins added to both sets. */
  method AddPageLogins(data: seq<ContributorItem>, all0: set<string>, repo0: set<string>)
    returns (allContributors: set<string>, repoContributors: set<string>)
    ensures allContributors == all0 + LoginsOf(data)
    ensures repoContributors == repo0 + LoginsOf(data)
  {
    allContributors, repoContributors := all0, repo0;
    var j := 0;
    while j < |data|
      invariant 0 <= j <= |data|
      invariant allContributors == all0 + LoginsOf(data[..j])
      invariant repoContributors == repo0 + LoginsOf(data[..j])
    {
      var c := data[j];
      TakeOneMore(data, j);
      assert data[..j + 1][..j] == data[..j];
      if c.login.Some? && c.login.value != "" && !EndsWith(c.login.value, "[bot]") && !EndsWith(c.login.value, "-bot") {
        allContributors := allContributors + {c.login.value};
        repoContributors := repoContributors + {c.login.value};
      }
      j := j + 1;
    }
    assert data[..|data|] == data;
  }

  /** The page loop of `collectContributors` for one repository; `thrown` tells that a request threw. */
  method ListRepoContributors(l: Listing<ContributorItem>, all0: set<string>)
    returns (thrown: bool, allContributors: set<string>, repoContributors: set<string>)
    ensures thrown <==> AllPages(l).thrown.Some?
    ensures !thrown ==> allContributors == all0 + LoginsOf(AllPages(l).items)
    ensures !thrown ==> repoContributors == LoginsOf(AllPages(l).items)
  {
    allContributors, repoContributors := all0, {};
    var page := 1;
    ghost var all := AllPages(l);
    ghost var seen: seq<ContributorItem> := [];
    while true
      invariant 1 <= page <= |l.pages| + 1
      invariant all.items == seen + UntilShort(l, page - 1, |l.pages| + 1).items
      invariant all.thrown == UntilShort(l, page - 1, |l.pages| + 1).thrown
      invariant allContributors == all0 + LoginsOf(seen)
      invariant repoContributors == LoginsOf(seen)
      decreases |l.pages| + 1 - page
    {
      var reply := Request(l, page - 1);
      ShortAdvance(l, page - 1, |l.pages| + 1, all, seen);
      if reply.Thrown? {
        return true, allContributors, repoContributors;
      }
      var data := reply.items;
      if |data| == 0 {
        break;
      }
      allContributors, repoContributors := AddPageLogins(data, allContributors, repoContributors);
      LoginsAdded(all0, seen, data);
      seen := seen + data;
      if |data| < PerPage {
        assert all.items == seen && all.thrown.None?;
        break;
      }
      page := page + 1;
    }
    thrown := false;
  }

  /** Adding one more page's logins to both sets. */
  lemma LoginsAdded(all0: set<string>, seen: seq<ContributorItem>, data: seq<ContributorItem>)
    ensures LoginsOf(seen + data) == LoginsOf(seen) + LoginsOf(data)
    ensures all0 + LoginsOf(seen + data) == (all0 + LoginsOf(seen)) + LoginsOf(data)
  {
    LoginsOfConcat(seen, data);
  }

  /** `collectContributors`: a failing listing aborts the whole collection. */
  method CollectContributors(qs: seq<ContributorQuery>) returns (r: Option<ContributorsData>)
    ensures r == ContributorsOf(qs)
  {
    var allContributors: set<string> := {};
    var repoContributorCounts: map<string, nat> := map[];
    var i := 0;
    while i < |qs|
      invariant 0 <= i <= |qs|
      invariant NoneThrows(qs, i)
      invariant allContributors == UnionLogins(qs[..i])
      invariant repoContributorCounts == CountsOf(qs[..i])
    {
      var q := qs[i];
      var thrown, all, repoContributors := ListRepoContributors(q.contributors, allContributors);
      if thrown {
        assert !NoneThrows(qs, |qs|);
        return None;
      }
      CollectStep(qs, i);
      allContributors := all;
      repoContributorCounts := repoContributorCounts[q.repo := |repoContributors|];
      i := i + 1;
    }
    assert qs[..|qs|] == qs;
    r := Some(ContributorsData(allContributors, repoContributorCounts));
  }

  /** One more repository: its logins join the union and its count is set. */
  lemma CollectStep(qs: seq<ContributorQuery>, i: nat)
    requires i < |qs|
    ensures UnionLogins(qs[..i + 1]) == UnionLogins(qs[..i]) + RepoLogins(qs[i])
    ensures CountsOf(qs[..i + 1]) == CountsOf(qs[..i])[qs[i].repo := |RepoLogins(qs[i])|]
    ensures NoneThrows(qs, i) && AllPages(qs[i].contributors).thrown.None? ==> NoneThrows(qs, i + 1)
  {
    assert qs[..i + 1][..i] == qs[..i];
  }

  /** Every repository's logins are among the organisation's. */
  lemma {:induction false} RepoLoginsInUnion(qs: seq<ContributorQuery>, k: nat)
    requires k < |qs|
    ensures RepoLogins(qs[k]) <= UnionLogins(qs)
    decreases |qs|
  {
    if k < |qs| - 1 {
      assert qs[..|qs| - 1][k] == qs[k];
      RepoLoginsInUnion(qs[..|qs| - 1], k);
    }
  }

  /** The map has one key per repository name, and each count comes from a repository of that name. */
  lemma {:induction false} CountsOfNames(qs: seq<ContributorQuery>)
    ensures CountsOf(qs).Keys == RepoNames(qs)
    ensures forall name :: name in CountsOf(qs) ==>
              exists k :: 0 <= k < |qs| && qs[k].repo == name && CountsOf(qs)[name] == |RepoLogins(qs[k])|
    decreases |qs|
  {
    if qs != [] {
      var init := qs[..|qs| - 1];
      CountsOfNames(init);
      forall name | name in CountsOf(qs)
        ensures exists k :: 0 <= k < |qs| && qs[k].repo == name && CountsOf(qs)[name] == |RepoLogins(qs[k])|
      {
        if name != qs[|qs| - 1].repo {
          var k :| 0 <= k < |init| && init[k].repo == name && CountsOf(init)[name] == |RepoLogins(init[k])|;
          assert qs[k] == init[k];
        }
      }
    }
  }

  /** No repository has more contributors than the organisation has unique contributors. */
  lemma RepoCountsBounded(qs: seq<ContributorQuery>)
    ensures forall name :: name in CountsOf(qs) ==> CountsOf(qs)[name] <= |UnionLogins(qs)|
  {
    CountsOfNames(qs);
    forall name | name in CountsOf(qs)
      ensures CountsOf(qs)[name] <= |UnionLogins(qs)|
    {
      var k :| 0 <= k < |qs| && qs[k].repo == name && CountsOf(qs)[name] == |RepoLogins(qs[k])|;
      RepoLoginsInUnion(qs, k);
      SubsetCard(RepoLogins(qs[k]), UnionLogins(qs));
    }
  }

  /** Only logins that pass the bot filter are ever collected. */
  lemma {:induction false} NoBotsCollected(qs: seq<ContributorQuery>, x: string)
    requires x in UnionLogins(qs)
    ensures x != "" && !EndsWith(x, "[bot]") && !EndsWith(x, "-bot")
    decreases |qs|
  {
    var last := qs[|qs| - 1];
    if x in RepoLogins(last) {
      LoginsOfMembers(AllPages(last.contributors).items, x);
    } else {
      NoBotsCollected(qs[..|qs| - 1], x);
    }
  }

  // ---------------------------------------------------------- org members

  /** `getOrgMemberCount("scverse").catch(() => 0)`: the `Link` count of a `per_page: 1` member listing, 0 on failure. */
  function OrgMemberCount(reply: CountReply): (n: nat)
    ensures reply.Failed? ==> n == 0
    ensures reply.Answered? ==> n == LinkCount(reply.link)
    ensures reply.Answered? && !Truthy(reply.link) ==> n == 1
  {
    match reply
    case Failed => 0
    case Answered(link, _) => LinkCount(link)
  }

  // ----------------------------------------------------------- the records

  /** Every reply `collectGitHubStats` receives for one core package; `repo` is `None` when `repos.get` throws. */
  datatype PackageReplies = PackageReplies(
    repo: Option<RepoInfo>,
    stars: Listing<Star>,
    openPrs: CountReply,
    closedPrs: CountReply,
    prs: Listing<PullRequest>,
    openIssues: Listing<Issue>,
    closedIssues: Listing<Issue>,
    recentIssues: Listing<Issue>,
    contributors: Listing<ContributorItem>)

  /** `getStarStats(...).catch(() => ({ starsLastMonth: 0, starsLastYear: 0 }))` */
  function StarsOrZero(p: PackageReplies, oneMonthAgo: int, oneYearAgo: int): StarStats {
    match StarStatsOf(p.stars, oneMonthAgo, oneYearAgo)
    case Some(s) => s
    case None => StarStats(0, 0)
  }

  /** `getPRStats(...).catch(() => ({ open: 0, closed: 0, last_month: 0 }))` */
  function PrsOrZero(p: PackageReplies, oneMonthAgo: int): TrackerStats {
    match PrStatsOf(p.openPrs, p.closedPrs, p.prs, oneMonthAgo)
    case Some(s) => s
    case None => ZeroStats
  }

  /** `getIssueStats(...).catch(() => ({ open: 0, closed: 0, last_month: 0 }))` */
  function IssuesOrZero(p: PackageReplies, oneMonthAgo: int): TrackerStats {
    match IssueStatsOf(p.openIssues, p.closedIssues, p.recentIssues, oneMonthAgo)
    case Some(s) => s
    case None => ZeroStats
  }

  /** The record `repos.push` adds for a package; `contributors_count` is filled in later. */
  function RecordOf(info: RepoInfo, stars: StarStats, prs: TrackerStats, issues: TrackerStats): Repository {
    Repository(
      info.name, info.fullName, OrZero(info.stargazersCount),
      stars.lastMonth, stars.lastYear,
      OrZero(info.forksCount), OrZero(info.openIssuesCount),
      info.description, info.htmlUrl, OrNull(info.language), OrElse(info.updatedAt, ""),
      0,
      prs.open, prs.closed, prs.lastMonth,
      issues.open, issues.closed, issues.lastMonth)
  }

  /** The record of one package, from its replies. */
  function PackageRecord(info: RepoInfo, p: PackageReplies, oneMonthAgo: int, oneYearAgo: int): Repository {
    RecordOf(info, StarsOrZero(p, oneMonthAgo, oneYearAgo), PrsOrZero(p, oneMonthAgo), IssuesOrZero(p, oneMonthAgo))
  }

  /** The records of the packages in order, or `None` when `repos.get` throws for one of them. */
  function Records(ps: seq<PackageReplies>, oneMonthAgo: int, oneYearAgo: int): (r: Option<seq<Repository>>)
    ensures r.Some? ==> |r.value| == |ps|
  {
    if ps == [] then Some([])
    else match Records(ps[..|ps| - 1], oneMonthAgo, oneYearAgo)
      case None => None
      case Some(rs) =>
        match ps[|ps| - 1].repo
        case None => None
        case Some(info) => Some(rs + [PackageRecord(info, ps[|ps| - 1], oneMonthAgo, oneYearAgo)])
  }

  /** One more package: its record is appended when its `repos.get` succeeds. */
  lemma RecordsStep(ps: seq<PackageReplies>, i: nat, oneMonthAgo: int, oneYearAgo: int)
    requires i < |ps|
    ensures var prev := Records(ps[..i], oneMonthAgo, oneYearAgo);
            var next := Records(ps[..i + 1], oneMonthAgo, oneYearAgo);
            next == if prev.None? || ps[i].repo.None? then None
                    else Some(prev.value + [PackageRecord(ps[i].repo.value, ps[i], oneMonthAgo, oneYearAgo)])
  {
    assert ps[..i + 1][..i] == ps[..i];
  }

  /** A fetched package appends its record. */
  lemma RecordsAppend(ps: seq<PackageReplies>, i: nat, rs: seq<Repository>, oneMonthAgo: int, oneYearAgo: int)
    requires i < |ps| && ps[i].repo.Some?
    requires Records(ps[..i], oneMonthAgo, oneYearAgo) == Some(rs)
    ensures Records(ps[..i + 1], oneMonthAgo, oneYearAgo) ==
            Some(rs + [PackageRecord(ps[i].repo.value, ps[i], oneMonthAgo, oneYearAgo)])
  {
    RecordsStep(ps, i, oneMonthAgo, oneYearAgo);
  }

  /** A package whose `repos.get` throws ends the collection without records. */
  lemma RecordsStop(ps: seq<PackageReplies>, i: nat, oneMonthAgo: int, oneYearAgo: int)
    requires i < |ps| && ps[i].repo.None?
    ensures Records(ps, oneMonthAgo, oneYearAgo).None?
  {
    RecordsStep(ps, i, oneMonthAgo, oneYearAgo);
    RecordsFailFrom(ps, i + 1, oneMonthAgo, oneYearAgo);
  }

  /** Once a `repos.get` has thrown, later packages do not matter. */
  lemma {:induction false} RecordsFailFrom(ps: seq<PackageReplies>, n: nat, oneMonthAgo: int, oneYearAgo: int)
    requires n <= |ps|
    requires Records(ps[..n], oneMonthAgo, oneYearAgo).None?
    ensures Records(ps, oneMonthAgo, oneYearAgo).None?
    decreases |ps|
  {
    if n == |ps| {
      assert ps[..n] == ps;
    } else {
      assert ps[..|ps| - 1][..n] == ps[..n];
      RecordsFailFrom(ps[..|ps| - 1], n, oneMonthAgo, oneYearAgo);
    }
  }

  /** When every `repos.get` succeeds the records exist (`RecordsExactly` gives the converse). */
  lemma {:induction false} RecordsWhenAllFetched(ps: seq<PackageReplies>, oneMonthAgo: int, oneYearAgo: int)
    requires forall i :: 0 <= i < |ps| ==> ps[i].repo.Some?
    ensures Records(ps, oneMonthAgo, oneYearAgo).Some?
    decreases |ps|
  {
    if ps != [] {
      var init := ps[..|ps| - 1];
      forall i | 0 <= i < |init| ensures init[i].repo.Some? {
        assert init[i] == ps[i];
      }
      RecordsWhenAllFetched(init, oneMonthAgo, oneYearAgo);
    }
  }

  /** `r` is the record built for package `p`, whose `repos.get` succeeded. */
  predicate RecordFor(p: PackageReplies, r: Repository, oneMonthAgo: int, oneYearAgo: int) {
    p.repo.Some? && r == PackageRecord(p.repo.value, p, oneMonthAgo, oneYearAgo)
  }

  /** When the records exist, every `repos.get` succeeded and record `i` is package `i`'s. */
  lemma {:induction false} RecordsExactly(ps: seq<PackageReplies>, oneMonthAgo: int, oneYearAgo: int)
    ensures var rs := Records(ps, oneMonthAgo, oneYearAgo);
      rs.Some? ==> forall i :: 0 <= i < |ps| ==> RecordFor(ps[i], rs.value[i], oneMonthAgo, oneYearAgo)
    decreases |ps|
  {
    if ps != [] {
      var init := ps[..|ps| - 1];
      var last := ps[|ps| - 1];
      RecordsExactly(init, oneMonthAgo, oneYearAgo);
      var prev := Records(init, oneMonthAgo, oneYearAgo);
      if prev.Some? && last.repo.Some? {
        var rs := prev.value + [PackageRecord(last.repo.value, last, oneMonthAgo, oneYearAgo)];
        assert Records(ps, oneMonthAgo, oneYearAgo) == Some(rs);
        forall i | 0 <= i < |ps|
          ensures RecordFor(ps[i], rs[i], oneMonthAgo, oneYearAgo)
        {
          if i < |init| {
            assert ps[i] == init[i] && rs[i] == prev.value[i];
          }
        }
      }
    }
  }

  /** A package whose per-repository statistics fail still gets a record, with zeros for them. */
  lemma FailedStatisticsGiveZeros(info: RepoInfo, p: PackageReplies, oneMonthAgo: int, oneYearAgo: int)
    ensures var r := PackageRecord(info, p, oneMonthAgo, oneYearAgo);
      && (StarStatsOf(p.stars, oneMonthAgo, oneYearAgo).None? ==> r.starsLastMonth == 0 && r.starsLastYear == 0)
      && (PrStatsOf(p.openPrs, p.closedPrs, p.prs, oneMonthAgo).None? ==>
            r.pullRequestsOpen == 0 && r.pullRequestsClosed == 0 && r.pullRequestsLastMonth == 0)
      && (IssueStatsOf(p.openIssues, p.closedIssues, p.recentIssues, oneMonthAgo).None? ==>
            r.issuesOpen == 0 && r.issuesClosed == 0 && r.issuesLastMonth == 0)
      && r.contributorsCount == 0
      && r.name == info.name
  {
  }

  /** The contributor queries of `collectContributors(repos)`: each record's name with its package's listing. */
  function QueriesOf(repos: seq<Repository>, ps: seq<PackageReplies>): (qs: seq<ContributorQuery>)
    requires |repos| == |ps|
    ensures |qs| == |repos|
    ensures forall i :: 0 <= i < |qs| ==> qs[i] == ContributorQuery(repos[i].name, ps[i].contributors)
  {
    if repos == [] then []
    else [ContributorQuery(repos[0].name, ps[0].contributors)] + QueriesOf(repos[1..], ps[1..])
  }

  /** `contributorsData.repoContributorCounts.get(repo.name) || 0` */
  function CountFor(counts: map<string, nat>, name: string): nat {
    if name in counts then counts[name] else 0
  }

  /** The records after the contributor-count update. */
  function WithCounts(repos: seq<Repository>, counts: map<string, nat>): (r: seq<Repository>)
    ensures |r| == |repos|
    ensures forall i :: 0 <= i < |r| ==>
              r[i] == repos[i].(contributorsCount := CountFor(counts, repos[i].name))
  {
    if repos == [] then []
    else [repos[0].(contributorsCount := CountFor(counts, repos[0].name))] + WithCounts(repos[1..], counts)
  }

  /** The `repos.forEach` that sets each record's `contributors_count`. */
  method UpdateContributorCounts(repos: seq<Repository>, counts: map<string, nat>) returns (updated: seq<Repository>)
    ensures updated == WithCounts(repos, counts)
  {
    updated := repos;
    var k := 0;
    while k < |updated|
      invariant 0 <= k <= |updated| == |repos|
      invariant forall i :: 0 <= i < k ==> updated[i] == repos[i].(contributorsCount := CountFor(counts, repos[i].name))
      invariant forall i :: k <= i < |updated| ==> updated[i] == repos[i]
    {
      var repo := updated[k];
      var c := if repo.name in counts then counts[repo.name] else 0;
      updated := updated[k := repo.(contributorsCount := c)];
      k := k + 1;
    }
  }

  /** The validated `github.json` for the sorted records. */
  function GitHubDataOf(sorted: seq<Repository>, contributors: ContributorsData, orgMembers: nat,
                        timestamp: string): GitHubData
  {
    GitHubData(
      Organization, |sorted|,
      Sum(sorted, StarsOf), Sum(sorted, StarsLastMonthOf), Sum(sorted, StarsLastYearOf),
      |contributors.allContributors|, orgMembers,
      Sum(sorted, PullRequestsOpenOf), Sum(sorted, PullRequestsClosedOf),
      Sum(sorted, IssuesOpenOf), Sum(sorted, IssuesClosedOf),
      timestamp, sorted)
  }

  /**
   * What `collectGitHubStats` writes to `github.json`, or `None` when it
   * rejects: a `repos.get` or a contributor listing throws. The other
   * per-package statistics fall back to zeros and the member count to 0.
   */
  function GitHubStatsOf(ps: seq<PackageReplies>, members: CountReply, oneMonthAgo: int, oneYearAgo: int,
                         timestamp: string): Option<GitHubData>
  {
    match Records(ps, oneMonthAgo, oneYearAgo)
    case None => None
    case Some(repos) =>
      match ContributorsOf(QueriesOf(repos, ps))
      case None => None
      case Some(cd) =>
        Some(GitHubDataOf(SortDesc(WithCounts(repos, cd.repoContributorCounts), StarsOf), cd,
                          OrgMemberCount(members), timestamp))
  }

  /** One package's statistics, each failing one replaced by zeros, and its record. */
  method FetchPackageRecord(info: RepoInfo, p: PackageReplies, oneMonthAgo: int, oneYearAgo: int)
    returns (record: Repository)
    ensures record == PackageRecord(info, p, oneMonthAgo, oneYearAgo)
  {
    var starStats := GetStarStats(p.stars, oneMonthAgo, oneYearAgo);
    var prStats := GetPRStats(p.openPrs, p.closedPrs, p.prs, oneMonthAgo);
    var issueStats := GetIssueStats(p.openIssues, p.closedIssues, p.recentIssues, oneMonthAgo);
    var stars := if starStats.Some? then starStats.value else StarStats(0, 0);
    var prs := if prStats.Some? then prStats.value else ZeroStats;
    var issues := if issueStats.Some? then issueStats.value else ZeroStats;
    record := RecordOf(info, stars, prs, issues);
  }

  /** The per-package loop of `collectGitHubStats`: a throwing `repos.get` ends the collection. */
  method FetchRecords(ps: seq<PackageReplies>, oneMonthAgo: int, oneYearAgo: int) returns (r: Option<seq<Repository>>)
    ensures r == Records(ps, oneMonthAgo, oneYearAgo)
  {
    var repos: seq<Repository> := [];
    var i := 0;
    while i < |ps|
      invariant 0 <= i <= |ps|
      invariant Records(ps[..i], oneMonthAgo, oneYearAgo) == Some(repos)
    {
      var p := ps[i];
      if p.repo.None? {
        RecordsStop(ps, i, oneMonthAgo, oneYearAgo);
        return None;
      }
      var record := FetchPackageRecord(p.repo.value, p, oneMonthAgo, oneYearAgo);
      RecordsAppend(ps, i, repos, oneMonthAgo, oneYearAgo);
      repos := repos + [record];
      i := i + 1;
    }
    assert ps[..|ps|] == ps;
    return Some(repos);
  }

  /** `collectGitHubStats`, with the saved file as its result. */
  method CollectGitHubStats(ps: seq<PackageReplies>, members: CountReply, oneMonthAgo: int, oneYearAgo: int,
                            timestamp: string) returns (r: Option<GitHubData>)
    ensures r == GitHubStatsOf(ps, members, oneMonthAgo, oneYearAgo, timestamp)
  {
    var records := FetchRecords(ps, oneMonthAgo, oneYearAgo);
    if records.None? {
      return None;
    }
    var repos := records.value;
    var contributorsData := CollectContributors(QueriesOf(repos, ps));
    if contributorsData.None? {
      return None;
    }
    var orgMembers := OrgMemberCount(members);
    repos := UpdateContributorCounts(repos, contributorsData.value.repoContributorCounts);
    repos := SortDesc(repos, StarsOf);
    r := Some(GitHubDataOf(repos, contributorsData.value, orgMembers, timestamp));
  }

  // ------------------------------------------------------------ properties

  /**
   * The saved repositories are the records of all packages, sorted by stars,
   * and every total is the sum over the records in input order: sorting
   * changes none of them.
   */
  lemma GitHubTotals(ps: seq<PackageReplies>, members: CountReply, oneMonthAgo: int, oneYearAgo: int,
                     timestamp: string)
    requires GitHubStatsOf(ps, members, oneMonthAgo, oneYearAgo, timestamp).Some?
    ensures var d := GitHubStatsOf(ps, members, oneMonthAgo, oneYearAgo, timestamp).value;
            var repos := Records(ps, oneMonthAgo, oneYearAgo).value;
            var cd := ContributorsOf(QueriesOf(repos, ps)).value;
            var unsorted := WithCounts(repos, cd.repoContributorCounts);
      && d.totalRepositories == |ps|
      && SortedDesc(d.repositories, StarsOf)
      && multiset(d.repositories) == multiset(unsorted)
      && d.totalStars == Sum(unsorted, StarsOf)
      && d.totalStarsLastMonth == Sum(unsorted, StarsLastMonthOf)
      && d.totalStarsLastYear == Sum(unsorted, StarsLastYearOf)
      && d.totalPullRequestsOpen == Sum(unsorted, PullRequestsOpenOf)
      && d.totalPullRequestsClosed == Sum(unsorted, PullRequestsClosedOf)
      && d.totalIssuesOpen == Sum(unsorted, IssuesOpenOf)
      && d.totalIssuesClosed == Sum(unsorted, IssuesClosedOf)
  {
    var repos := Records(ps, oneMonthAgo, oneYearAgo).value;
    var cd := ContributorsOf(QueriesOf(repos, ps)).value;
    var unsorted := WithCounts(repos, cd.repoContributorCounts);
    SortDescKeepsSum(unsorted, StarsOf, StarsOf);
    SortDescKeepsSum(unsorted, StarsOf, StarsLastMonthOf);
    SortDescKeepsSum(unsorted, StarsOf, StarsLastYearOf);
    SortDescKeepsSum(unsorted, StarsOf, PullRequestsOpenOf);
    SortDescKeepsSum(unsorted, StarsOf, PullRequestsClosedOf);
    SortDescKeepsSum(unsorted, StarsOf, IssuesOpenOf);
    SortDescKeepsSum(unsorted, StarsOf, IssuesClosedOf);
  }

  /** No saved repository has more contributors than the organisation's unique contributors. */
  lemma ContributorCountsBounded(ps: seq<PackageReplies>, members: CountReply, oneMonthAgo: int, oneYearAgo: int,
                                 timestamp: string)
    requires GitHubStatsOf(ps, members, oneMonthAgo, oneYearAgo, timestamp).Some?
    ensures var d := GitHubStatsOf(ps, members, oneMonthAgo, oneYearAgo, timestamp).value;
            forall k :: 0 <= k < |d.repositories| ==> d.repositories[k].contributorsCount <= d.uniqueContributors
  {
    var d := GitHubStatsOf(ps, members, oneMonthAgo, oneYearAgo, timestamp).value;
    var repos := Records(ps, oneMonthAgo, oneYearAgo).value;
    var qs := QueriesOf(repos, ps);
    var cd := ContributorsOf(qs).value;
    var unsorted := WithCounts(repos, cd.repoContributorCounts);
    var sorted := SortDesc(unsorted, StarsOf);
    assert d == GitHubDataOf(sorted, cd, OrgMemberCount(members), timestamp);
    assert cd == ContributorsData(UnionLogins(qs), CountsOf(qs));
    RepoCountsBounded(qs);
    WithCountsBounded(repos, cd.repoContributorCounts, |cd.allContributors|);
    PermutationBounded(unsorted, sorted, |cd.allContributors|);
  }

  /** Counts taken from a map whose values are all at most `bound` are at most `bound`. */
  lemma WithCountsBounded(repos: seq<Repository>, counts: map<string, nat>, bound: nat)
    requires forall name :: name in counts ==> counts[name] <= bound
    ensures forall j :: 0 <= j < |repos| ==> WithCounts(repos, counts)[j].contributorsCount <= bound
  {
  }

  /** A bound on every record's contributor count survives a permutation. */
  lemma PermutationBounded(unsorted: seq<Repository>, sorted: seq<Repository>, bound: nat)
    requires multiset(sorted) == multiset(unsorted)
    requires forall j :: 0 <= j < |unsorted| ==> unsorted[j].contributorsCount <= bound
    ensures forall k :: 0 <= k < |sorted| ==> sorted[k].contributorsCount <= bound
  {
    forall k | 0 <= k < |sorted|
      ensures sorted[k].contributorsCount <= bound
    {
      assert sorted[k] in multiset(unsorted);
      var j :| 0 <= j < |unsorted| && unsorted[j] == sorted[k];
    }
  }
}
