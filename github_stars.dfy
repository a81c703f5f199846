/**
 * `gitHubStars.ts`: the standalone statistics run over the core packages
 * (`fetchScverseStats`) and the star history behind each package's chart
 * (`getStarHistory`, `getCurrentStarCount`).
 *
 * Every GitHub call is a reply or a `Listing` given as input, every date an
 * integer (milliseconds), and the calendar step between two history points
 * (`setMonth(getMonth() + 3)`) a parameter `next` that moves strictly forward.
 */
module GitHubStars {
  import opened Common
  import opened Paging
  import opened Sorting
  import opened LinkHeader
  import opened GitHubApi
  import opened RepoActivity

  // ------------------------------------------------- counts from Link headers

  /**
   * The contributor count of one package: 1 by default, the `rel="last"` page
   * number of the `per_page: 1` listing when the header has one, 0 when there
   * is no header and the page is empty, and 0 when the request fails.
   */
  function ContributorsCount(reply: CountReply): (n: nat)
    ensures n == 0 <==>
      || reply.Failed?
      || (!Truthy(reply.link) && reply.pageLength == 0)
      || (Truthy(reply.link) && LastPage(reply.link.value) == Some(0))
    ensures reply.Answered? && Truthy(reply.link) && LastPage(reply.link.value).None? ==> n == 1
  {
    match reply
    case Failed => 0
    case Answered(link, pageLength) =>
      if !Truthy(link) && pageLength == 0 then 0 else LinkCount(link)
  }

  /** A header whose first match is the `rel="last"` link to page `n` gives `n` contributors. */
  lemma ContributorsCountOfLastLink(p: string, n: nat, q: string, pageLength: nat)
    requires forall k :: 0 <= k < |p| ==> !MatchesAt(p, k)
    ensures ContributorsCount(Answered(Some(p + PagePrefix + Decimal(n) + LastSuffix + q), pageLength)) == n
  {
    LinkCountOfLastLink(p, n, q);
  }

  /**
   * The organisation member count: the `rel="last"` page number when the header
   * has one, 0 when a header has none, the page length when there is no header,
   * and 0 when the request fails.
   */
  function MembersCount(reply: CountReply): (n: nat)
    ensures reply.Answered? && !Truthy(reply.link) ==> n == reply.pageLength
    ensures reply.Answered? && Truthy(reply.link) && LastPage(reply.link.value).Some? ==> n == LinkCount(reply.link)
    ensures n == 0 <==>
      || reply.Failed?
      || (!Truthy(reply.link) && reply.pageLength == 0)
      || (Truthy(reply.link) && (LastPage(reply.link.value).None? || LastPage(reply.link.value) == Some(0)))
  {
    match reply
    case Failed => 0
    case Answered(link, pageLength) =>
      if Truthy(link) then
        match LastPage(link.value)
        case Some(k) => k
        case None => 0
      else pageLength
  }

  /** A header whose first match is the `rel="last"` link to page `n` gives `n` members. */
  lemma MembersCountOfLastLink(p: string, n: nat, q: string, pageLength: nat)
    requires forall k :: 0 <= k < |p| ==> !MatchesAt(p, k)
    ensures MembersCount(Answered(Some(p + PagePrefix + Decimal(n) + LastSuffix + q), pageLength)) == n
  {
    LastPageRoundTrip(p, n, q);
  }

  // ------------------------------------------------------------ star windows

  /**
   * The stars of the last month and year: every stargazer page is collected
   * first (until an empty or short page) and counted afterwards, so a request
   * that throws leaves both counts at 0.
   */
  function StarWindowsOf(l: Listing<Star>, oneMonthAgo: int, oneYearAgo: int): StarStats {
    var read := AllPages(l);
    if read.thrown.Some? then StarStats(0, 0)
    else StarStats(CountSince(read.items, oneMonthAgo), CountSince(read.items, oneYearAgo))
  }

  /** A throw leaves both windows at 0, and neither window counts more stars than were read. */
  lemma StarWindowsShape(l: Listing<Star>, oneMonthAgo: int, oneYearAgo: int)
    ensures var r := StarWindowsOf(l, oneMonthAgo, oneYearAgo);
            var read := AllPages(l);
      && (read.thrown.Some? ==> r == StarStats(0, 0))
      && r.lastMonth <= |read.items| && r.lastYear <= |read.items|
  {
  }

  /**
   * The stargazer loop of `fetchScverseStats`. A star without a timestamp
   * becomes an invalid date there, which compares false with both thresholds,
   * so it is exactly a star that `StarredSince` rejects.
   */
  method StarWindows(l: Listing<Star>, oneMonthAgo: int, oneYearAgo: int) returns (s: StarStats)
    ensures s == StarWindowsOf(l, oneMonthAgo, oneYearAgo)
    ensures oneYearAgo <= oneMonthAgo ==> s.lastMonth <= s.lastYear
  {
    var thrown, allStargazers := ListStargazers(l);
    if thrown {
      return StarStats(0, 0);
    }
    var starsLastMonth, starsLastYear := TallyStars(allStargazers, oneMonthAgo, oneYearAgo, 0, 0);
    s := StarStats(starsLastMonth, starsLastYear);
    if oneYearAgo <= oneMonthAgo {
      CountSinceAntitone(allStargazers, oneYearAgo, oneMonthAgo);
    }
  }

  /** The `while (true)` page loop that gathers `allStargazers`; `thrown` tells that a request threw. */
  method ListStargazers(l: Listing<Star>) returns (thrown: bool, allStargazers: seq<Star>)
    ensures thrown <==> AllPages(l).thrown.Some?
    ensures !thrown ==> allStargazers == AllPages(l).items
  {
    var page := 1;
    allStargazers := [];
    ghost var all := AllPages(l);
    while true
      invariant 1 <= page <= |l.pages| + 1
      invariant all.items == allStargazers + UntilShort(l, page - 1, |l.pages| + 1).items
      invariant all.thrown == UntilShort(l, page - 1, |l.pages| + 1).thrown
      decreases |l.pages| + 1 - page
    {
      var reply := Request(l, page - 1);
      ShortAdvance(l, page - 1, |l.pages| + 1, all, allStargazers);
      if reply.Thrown? {
        return true, allStargazers;
      }
      var data := reply.items;
      if |data| == 0 {
        break;
      }
      allStargazers := allStargazers + data;
      if |data| < PerPage {
        break;
      }
      page := page + 1;
    }
    thrown := false;
  }

  // ------------------------------------------------------ package records

  /** The `Repository` interface of this script. */
  datatype StarsRepository = StarsRepository(
    name: string,
    fullName: string,
    stargazersCount: nat,
    starsLastMonth: nat,
    starsLastYear: nat,
    description: Option<string>,
    htmlUrl: string,
    language: Option<string>,
    updatedAt: string,
    contributorsCount: nat,
    starChartUrl: string)

  /** The `Stats` interface of this script. */
  datatype Stats = Stats(
    organization: string,
    totalRepositories: nat,
    totalStars: int,
    totalStarsLastMonth: int,
    totalStarsLastYear: int,
    uniqueContributors: nat,
    organizationMembers: nat,
    timestamp: string,
    repositories: seq<StarsRepository>)

  /**
   * What GitHub answers for one configured package: the repository itself
   * (`None` when `repos.get` fails), the `per_page: 1` contributor listing, the
   * stargazers, and the full contributor listing read for the unique count.
   */
  datatype StarsPackage = StarsPackage(
    repo: Option<RepoInfo>,
    contributorsHead: CountReply,
    stargazers: Listing<Star>,
    contributors: Listing<ContributorItem>)

  /** A package whose repository was fetched, with the contributor listing its name selects. */
  datatype Kept = Kept(record: StarsRepository, contributors: Listing<ContributorItem>)

  function StarChartUrl(name: string): (url: string)
    ensures StartsWith(url, "https://scverse-stats.complextissue.com/stars/")
    ensures EndsWith(url, ".png")
  {
    var prefix := "https://scverse-stats.complextissue.com/stars/";
    var url := prefix + name + ".png";
    assert url[..|prefix|] == prefix;
    assert url[|url| - 4..] == ".png";
    url
  }

  /** The `repoData` record of one fetched package. */
  function StarsRecordOf(info: RepoInfo, p: StarsPackage, oneMonthAgo: int, oneYearAgo: int): StarsRepository {
    var w := StarWindowsOf(p.stargazers, oneMonthAgo, oneYearAgo);
    StarsRepository(
      info.name, info.fullName, OrZero(info.stargazersCount), w.lastMonth, w.lastYear,
      info.description, info.htmlUrl, OrNull(info.language), OrElse(info.updatedAt, ""),
      ContributorsCount(p.contributorsHead), StarChartUrl(info.name))
  }

  /** The packages that `allRepos` keeps, in configuration order: a failed `repos.get` skips its package. */
  function KeptOf(ps: seq<StarsPackage>, oneMonthAgo: int, oneYearAgo: int): (r: seq<Kept>)
    ensures |r| <= |ps|
  {
    if ps == [] then []
    else
      var p := ps[|ps| - 1];
      KeptOf(ps[..|ps| - 1], oneMonthAgo, oneYearAgo)
        + (if p.repo.None? then [] else [KeptEntry(p, oneMonthAgo, oneYearAgo)])
  }

  function KeptEntry(p: StarsPackage, oneMonthAgo: int, oneYearAgo: int): Kept
    requires p.repo.Some?
  {
    Kept(StarsRecordOf(p.repo.value, p, oneMonthAgo, oneYearAgo), p.contributors)
  }

  /** The positions of the packages whose repository was fetched. */
  function FetchedIndices(ps: seq<StarsPackage>): set<int> {
    set i | 0 <= i < |ps| && ps[i].repo.Some?
  }

  lemma FetchedIndicesStep(ps: seq<StarsPackage>)
    requires ps != []
    ensures |FetchedIndices(ps)| ==
      |FetchedIndices(ps[..|ps| - 1])| + (if ps[|ps| - 1].repo.Some? then 1 else 0)
  {
    var init := ps[..|ps| - 1];
    var a := FetchedIndices(init);
    var b := FetchedIndices(ps);
    var extra: set<int> := if ps[|ps| - 1].repo.Some? then {|ps| - 1} else {};
    forall j ensures j in b <==> j in a || j in extra {
      if 0 <= j < |init| {
        assert init[j] == ps[j];
      }
    }
    assert b == a + extra;
    assert a !! extra;
  }

  /** The number of kept packages is the number of packages whose repository was fetched. */
  lemma {:induction false} KeptCount(ps: seq<StarsPackage>, oneMonthAgo: int, oneYearAgo: int)
    ensures |KeptOf(ps, oneMonthAgo, oneYearAgo)| == |FetchedIndices(ps)|
  {
    if ps != [] {
      var init := ps[..|ps| - 1];
      KeptCount(init, oneMonthAgo, oneYearAgo);
      FetchedIndicesStep(ps);
      assert |KeptOf(ps, oneMonthAgo, oneYearAgo)| ==
        |KeptOf(init, oneMonthAgo, oneYearAgo)| + (if ps[|ps| - 1].repo.Some? then 1 else 0);
    }
  }

  /** Every kept entry is the record and listing of one fetched package. */
  lemma {:induction false} KeptFrom(ps: seq<StarsPackage>, oneMonthAgo: int, oneYearAgo: int, k: nat)
    requires k < |KeptOf(ps, oneMonthAgo, oneYearAgo)|
    ensures exists i ::
      0 <= i < |ps| && ps[i].repo.Some? &&
      KeptOf(ps, oneMonthAgo, oneYearAgo)[k] == KeptEntry(ps[i], oneMonthAgo, oneYearAgo)
  {
    var init := ps[..|ps| - 1];
    if k < |KeptOf(init, oneMonthAgo, oneYearAgo)| {
      KeptFrom(init, oneMonthAgo, oneYearAgo, k);
      var i :| 0 <= i < |init| && init[i].repo.Some? &&
        KeptOf(init, oneMonthAgo, oneYearAgo)[k] == KeptEntry(init[i], oneMonthAgo, oneYearAgo);
      assert ps[i] == init[i];
    }
  }

  function RecordsOf(kept: seq<Kept>): (r: seq<StarsRepository>)
    ensures |r| == |kept|
    ensures forall k :: 0 <= k < |r| ==> r[k] == kept[k].record
  {
    if kept == [] then [] else RecordsOf(kept[..|kept| - 1]) + [kept[|kept| - 1].record]
  }

  function ListingsOf(kept: seq<Kept>): (r: seq<Listing<ContributorItem>>)
    ensures |r| == |kept|
    ensures forall k :: 0 <= k < |r| ==> r[k] == kept[k].contributors
  {
    if kept == [] then [] else ListingsOf(kept[..|kept| - 1]) + [kept[|kept| - 1].contributors]
  }

  // ------------------------------------------------------ unique contributors

  /** The logins `forEach` adds: every truthy one, bots included. */
  function TruthyLogins(items: seq<ContributorItem>): set<string> {
    if items == [] then {}
    else
      var last := items[|items| - 1];
      TruthyLogins(items[..|items| - 1]) + (if Truthy(last.login) then {last.login.value} else {})
  }

  lemma {:induction false} TruthyLoginsConcat(a: seq<ContributorItem>, b: seq<ContributorItem>)
    ensures TruthyLogins(a + b) == TruthyLogins(a) + TruthyLogins(b)
    decreases |b|
  {
    if b == [] {
      assert a + b == a;
    } else {
      var b0 := b[..|b| - 1];
      assert (a + b)[..|a + b| - 1] == a + b0;
      assert (a + b)[|a + b| - 1] == b[|b| - 1];
      TruthyLoginsConcat(a, b0);
    }
  }

  /** Adding one more page's logins to the logins collected so far. */
  lemma TruthyLoginsAdded(all0: set<string>, seen: seq<ContributorItem>, data: seq<ContributorItem>)
    ensures all0 + TruthyLogins(seen + data) == (all0 + TruthyLogins(seen)) + TruthyLogins(data)
  {
    TruthyLoginsConcat(seen, data);
  }

  /** A login is collected exactly when some item carries it as a non-empty login. */
  lemma {:induction false} TruthyLoginsMembers(items: seq<ContributorItem>, x: string)
    ensures x in TruthyLogins(items) <==> exists i :: 0 <= i < |items| && items[i].login == Some(x) && x != ""
  {
    if items != [] {
      var init := items[..|items| - 1];
      TruthyLoginsMembers(init, x);
      if x in TruthyLogins(init) {
        var i :| 0 <= i < |init| && init[i].login == Some(x) && x != "";
        assert items[i] == init[i];
      }
      if exists i :: 0 <= i < |items| && items[i].login == Some(x) && x != "" {
        var i :| 0 <= i < |items| && items[i].login == Some(x) && x != "";
        if i < |init| {
          assert init[i] == items[i];
        }
      }
    }
  }

  /**
   * The logins of every kept package with a positive contributor count, over
   * the pages read until a short page; a request that throws keeps what the
   * pages before it added.
   */
  function UniqueContributors(kept: seq<Kept>): set<string> {
    if kept == [] then {}
    else
      var last := kept[|kept| - 1];
      UniqueContributors(kept[..|kept| - 1])
        + (if last.record.contributorsCount > 0 then TruthyLogins(AllPages(last.contributors).items) else {})
  }

  /** `forEach` over one page. */
  method AddTruthyLogins(data: seq<ContributorItem>, all0: set<string>) returns (all: set<string>)
    ensures all == all0 + TruthyLogins(data)
  {
    all := all0;
    var j := 0;
    while j < |data|
      invariant 0 <= j <= |data|
      invariant all == all0 + TruthyLogins(data[..j])
    {
      var contributor := data[j];
      TakeOneMore(data, j);
      assert data[..j + 1][..j] == data[..j];
      if contributor.login.Some? && contributor.login.value != "" {
        all := all + {contributor.login.value};
      }
      j := j + 1;
    }
    assert data[..|data|] == data;
  }

  /** The page loop for one package: it goes on while a page is full, and a throw ends it. */
  method AddRepoLogins(l: Listing<ContributorItem>, all0: set<string>) returns (allContributors: set<string>)
    ensures allContributors == all0 + TruthyLogins(AllPages(l).items)
  {
    allContributors := all0;
    var page := 1;
    var hasMore := true;
    ghost var all := AllPages(l);
    ghost var seen: seq<ContributorItem> := [];
    while hasMore
      invariant 1 <= page <= |l.pages| + 1
      invariant hasMore ==> all.items == seen + UntilShort(l, page - 1, |l.pages| + 1).items
      invariant hasMore ==> all.thrown == UntilShort(l, page - 1, |l.pages| + 1).thrown
      invariant !hasMore ==> all.items == seen
      invariant allContributors == all0 + TruthyLogins(seen)
      decreases |l.pages| + 1 - page, hasMore
    {
      var reply := Request(l, page - 1);
      ShortAdvance(l, page - 1, |l.pages| + 1, all, seen);
      if reply.Thrown? {
        assert all.items == seen;
        return;
      }
      var data := reply.items;
      allContributors := AddTruthyLogins(data, allContributors);
      TruthyLoginsAdded(all0, seen, data);
      seen := seen + data;
      hasMore := |data| == PerPage;
      if hasMore {
        assert page - 1 < |l.pages|;
        page := page + 1;
      } else {
        assert all.items == seen;
      }
    }
  }

  /** The unique-contributor loop over `allRepos`. */
  method CollectUniqueContributors(repos: seq<StarsRepository>, listings: seq<Listing<ContributorItem>>,
                                   ghost kept: seq<Kept>)
    returns (allContributors: set<string>)
    requires repos == RecordsOf(kept) && listings == ListingsOf(kept)
    ensures allContributors == UniqueContributors(kept)
  {
    allContributors := {};
    var i := 0;
    while i < |repos|
      invariant 0 <= i <= |repos|
      invariant allContributors == UniqueContributors(kept[..i])
    {
      assert kept[..i + 1][..i] == kept[..i];
      if repos[i].contributorsCount > 0 {
        allContributors := AddRepoLogins(listings[i], allContributors);
      }
      i := i + 1;
    }
    assert kept[..|repos|] == kept;
  }

  /** A collected login is never empty, and it comes from a kept package with a positive contributor count. */
  lemma {:induction false} UniqueContributorsFrom(kept: seq<Kept>, x: string)
    requires x in UniqueContributors(kept)
    ensures x != ""
    ensures exists k ::
      0 <= k < |kept| && kept[k].record.contributorsCount > 0 &&
      x in TruthyLogins(AllPages(kept[k].contributors).items)
  {
    var init := kept[..|kept| - 1];
    var last := kept[|kept| - 1];
    if x in UniqueContributors(init) {
      UniqueContributorsFrom(init, x);
      var k :| 0 <= k < |init| && init[k].record.contributorsCount > 0 &&
        x in TruthyLogins(AllPages(init[k].contributors).items);
      assert kept[k] == init[k];
    } else {
      TruthyLoginsMembers(AllPages(last.contributors).items, x);
    }
  }

  // ------------------------------------------------------ fetchScverseStats

  function RepoStars(r: StarsRepository): int { r.stargazersCount }
  function RepoStarsLastMonth(r: StarsRepository): int { r.starsLastMonth }
  function RepoStarsLastYear(r: StarsRepository): int { r.starsLastYear }

  /** The `stats` object: totals over `allRepos` before the sort, and the repositories sorted by stars. */
  function StatsOf(ps: seq<StarsPackage>, members: CountReply, oneMonthAgo: int, oneYearAgo: int,
                   timestamp: string): (r: Stats)
    ensures r.totalRepositories == |r.repositories| <= |ps|
    ensures SortedDesc(r.repositories, RepoStars)
  {
    var kept := KeptOf(ps, oneMonthAgo, oneYearAgo);
    var repos := RecordsOf(kept);
    Stats(Organization, |repos|, Sum(repos, RepoStars), Sum(repos, RepoStarsLastMonth), Sum(repos, RepoStarsLastYear),
          |UniqueContributors(kept)|, MembersCount(members), timestamp, SortDesc(repos, RepoStars))
  }

  lemma KeptStep(ps: seq<StarsPackage>, i: nat, oneMonthAgo: int, oneYearAgo: int)
    requires i < |ps|
    ensures KeptOf(ps[..i + 1], oneMonthAgo, oneYearAgo) ==
      KeptOf(ps[..i], oneMonthAgo, oneYearAgo)
        + (if ps[i].repo.None? then [] else [KeptEntry(ps[i], oneMonthAgo, oneYearAgo)])
  {
    assert ps[..i + 1][..i] == ps[..i];
  }

  lemma KeptAppend(kept: seq<Kept>, k: Kept)
    ensures RecordsOf(kept + [k]) == RecordsOf(kept) + [k.record]
    ensures ListingsOf(kept + [k]) == ListingsOf(kept) + [k.contributors]
  {
    assert (kept + [k])[..|kept|] == kept;
  }

  /** The `try` block for one fetched package: its contributor count, star windows and record. */
  method FetchPackage(repo: RepoInfo, p: StarsPackage, oneMonthAgo: int, oneYearAgo: int)
    returns (repoData: StarsRepository)
    ensures repoData == StarsRecordOf(repo, p, oneMonthAgo, oneYearAgo)
  {
    var contributorsCount := ContributorsCount(p.contributorsHead);
    var windows := StarWindows(p.stargazers, oneMonthAgo, oneYearAgo);
    repoData := StarsRepository(
      repo.name, repo.fullName, OrZero(repo.stargazersCount), windows.lastMonth, windows.lastYear,
      repo.description, repo.htmlUrl, OrNull(repo.language), OrElse(repo.updatedAt, ""),
      contributorsCount, StarChartUrl(repo.name));
  }

  /** The package loop of `fetchScverseStats`, with the contributor listing of every kept repository. */
  method FetchRepos(ps: seq<StarsPackage>, oneMonthAgo: int, oneYearAgo: int)
    returns (allRepos: seq<StarsRepository>, listings: seq<Listing<ContributorItem>>, ghost kept: seq<Kept>)
    ensures kept == KeptOf(ps, oneMonthAgo, oneYearAgo)
    ensures allRepos == RecordsOf(KeptOf(ps, oneMonthAgo, oneYearAgo))
    ensures listings == ListingsOf(KeptOf(ps, oneMonthAgo, oneYearAgo))
  {
    allRepos, listings, kept := [], [], [];
    var i := 0;
    while i < |ps|
      invariant 0 <= i <= |ps|
      invariant kept == KeptOf(ps[..i], oneMonthAgo, oneYearAgo)
      invariant allRepos == RecordsOf(kept) && listings == ListingsOf(kept)
    {
      var p := ps[i];
      KeptStep(ps, i, oneMonthAgo, oneYearAgo);
      if p.repo.Some? {
        var repoData := FetchPackage(p.repo.value, p, oneMonthAgo, oneYearAgo);
        ghost var k := Kept(repoData, p.contributors);
        KeptAppend(kept, k);
        allRepos := allRepos + [repoData];
        listings := listings + [p.contributors];
        kept := kept + [k];
      }
      i := i + 1;
    }
    assert ps[..|ps|] == ps;
  }

  /** `fetchScverseStats`, without the file output and the charts. */
  method FetchScverseStats(ps: seq<StarsPackage>, members: CountReply, oneMonthAgo: int, oneYearAgo: int,
                           timestamp: string)
    returns (stats: Stats)
    ensures stats == StatsOf(ps, members, oneMonthAgo, oneYearAgo, timestamp)
  {
    var allRepos, listings, kept := FetchRepos(ps, oneMonthAgo, oneYearAgo);
    var organizationMembers := MembersCount(members);
    var allContributors := CollectUniqueContributors(allRepos, listings, kept);
    var totalStars := Sum(allRepos, RepoStars);
    var totalStarsLastMonth := Sum(allRepos, RepoStarsLastMonth);
    var totalStarsLastYear := Sum(allRepos, RepoStarsLastYear);
    allRepos := SortDesc(allRepos, RepoStars);
    stats := Stats(Organization, |allRepos|, totalStars, totalStarsLastMonth, totalStarsLastYear,
                   |allContributors|, organizationMembers, timestamp, allRepos);
  }

  /**
   * The totals are those of the sorted repositories too, the sort only
   * reorders the records, and the repositories are the kept packages.
   */
  lemma StatsTotals(ps: seq<StarsPackage>, members: CountReply, oneMonthAgo: int, oneYearAgo: int,
                    timestamp: string)
    ensures var s := StatsOf(ps, members, oneMonthAgo, oneYearAgo, timestamp);
      && s.totalRepositories == |s.repositories| == |FetchedIndices(ps)|
      && SortedDesc(s.repositories, RepoStars)
      && multiset(s.repositories) == multiset(RecordsOf(KeptOf(ps, oneMonthAgo, oneYearAgo)))
      && s.totalStars == Sum(s.repositories, RepoStars)
      && s.totalStarsLastMonth == Sum(s.repositories, RepoStarsLastMonth)
      && s.totalStarsLastYear == Sum(s.repositories, RepoStarsLastYear)
  {
    var repos := RecordsOf(KeptOf(ps, oneMonthAgo, oneYearAgo));
    KeptCount(ps, oneMonthAgo, oneYearAgo);
    SortDescKeepsSum(repos, RepoStars, RepoStars);
    SortDescKeepsSum(repos, RepoStars, RepoStarsLastMonth);
    SortDescKeepsSum(repos, RepoStars, RepoStarsLastYear);
  }

  /** No record's star windows are inconsistent: the last month never has more stars than the last year. */
  lemma WindowsNested(ps: seq<StarsPackage>, members: CountReply, oneMonthAgo: int, oneYearAgo: int,
                      timestamp: string)
    requires oneYearAgo <= oneMonthAgo
    ensures forall r :: r in StatsOf(ps, members, oneMonthAgo, oneYearAgo, timestamp).repositories ==>
      r.starsLastMonth <= r.starsLastYear
  {
    var kept := KeptOf(ps, oneMonthAgo, oneYearAgo);
    var repos := RecordsOf(kept);
    SortDescSameElements(repos, RepoStars);
    forall r | r in repos ensures r.starsLastMonth <= r.starsLastYear {
      var k :| 0 <= k < |repos| && repos[k] == r;
      KeptFrom(ps, oneMonthAgo, oneYearAgo, k);
      var i :| 0 <= i < |ps| && ps[i].repo.Some? && kept[k] == KeptEntry(ps[i], oneMonthAgo, oneYearAgo);
      RecordWindowsNested(ps[i].repo.value, ps[i], oneMonthAgo, oneYearAgo);
    }
  }

  /** One record's windows: the last month's stars are at most the last year's. */
  lemma RecordWindowsNested(info: RepoInfo, p: StarsPackage, oneMonthAgo: int, oneYearAgo: int)
    requires oneYearAgo <= oneMonthAgo
    ensures StarsRecordOf(info, p, oneMonthAgo, oneYearAgo).starsLastMonth
         <= StarsRecordOf(info, p, oneMonthAgo, oneYearAgo).starsLastYear
  {
    if AllPages(p.stargazers).thrown.None? {
      CountSinceAntitone(AllPages(p.stargazers).items, oneYearAgo, oneMonthAgo);
    }
  }

  /** The unique-contributor count counts non-empty logins only. */
  lemma UniqueContributorsNonEmpty(ps: seq<StarsPackage>, oneMonthAgo: int, oneYearAgo: int)
    ensures "" !in UniqueContributors(KeptOf(ps, oneMonthAgo, oneYearAgo))
  {
    var kept := KeptOf(ps, oneMonthAgo, oneYearAgo);
    if "" in UniqueContributors(kept) {
      UniqueContributorsFrom(kept, "");
    }
  }

  // ------------------------------------------------------------ star history

  /** The dates `currentDate` takes, from `t` while it is not after `now`. */
  function Steps(t: int, now: int, next: int -> int): seq<int>
    requires forall u :: next(u) > u
    decreases now - t
  {
    if t > now then [] else [t] + Steps(next(t), now, next)
  }

  predicate Increasing(s: seq<int>) {
    forall i, j :: 0 <= i < j < |s| ==> s[i] < s[j]
  }

  lemma {:induction false} StepsShape(t: int, now: int, next: int -> int)
    requires forall u :: next(u) > u
    ensures var s := Steps(t, now, next);
      && (s == [] <==> t > now)
      && (s != [] ==> s[0] == t)
      && Increasing(s)
      && forall k :: 0 <= k < |s| ==> t <= s[k] <= now
    decreases now - t
  {
    if t <= now {
      StepsShape(next(t), now, next);
    }
  }

  /**
   * The interval dates of `getStarHistory`: the creation date, every step after
   * it that is not after `now`, and `now` itself unless the last step hit it.
   * With a creation date after `now` the list is empty and reading its last
   * element throws, which `None` stands for.
   */
  function IntervalsOf(created: int, now: int, next: int -> int): Option<seq<int>>
    requires forall u :: next(u) > u
  {
    var s := Steps(created, now, next);
    if s == [] then None
    else if s[|s| - 1] != now then Some(s + [now])
    else Some(s)
  }

  lemma IntervalsShape(created: int, now: int, next: int -> int)
    requires forall u :: next(u) > u
    ensures IntervalsOf(created, now, next).Some? <==> created <= now
    ensures IntervalsOf(created, now, next).Some? ==>
      var ds := IntervalsOf(created, now, next).value;
      && |ds| >= 1
      && ds[0] == created
      && ds[|ds| - 1] == now
      && Increasing(ds)
      && (forall k :: 0 <= k < |ds| ==> created <= ds[k] <= now)
  {
    StepsShape(created, now, next);
  }

  method Intervals(created: int, now: int, next: int -> int) returns (r: Option<seq<int>>)
    requires forall u :: next(u) > u
    ensures r == IntervalsOf(created, now, next)
  {
    var intervals: seq<int> := [];
    var currentDate := created;
    while currentDate <= now
      invariant Steps(created, now, next) == intervals + Steps(currentDate, now, next)
      decreases now - currentDate
    {
      AppendAssoc(intervals, [currentDate], Steps(next(currentDate), now, next));
      intervals := intervals + [currentDate];
      currentDate := next(currentDate);
    }
    assert intervals + [] == intervals;
    if |intervals| == 0 {
      return None;
    }
    if intervals[|intervals| - 1] != now {
      intervals := intervals + [now];
    }
    r := Some(intervals);
  }

  /** A star dated after `date`: the first one ends the count. */
  predicate LaterThan(s: Star, date: int) {
    s.starredAt.Some? && s.starredAt.value > date
  }

  /** The index of the first star dated after `date`, or the length when there is none. */
  function FirstLater(stars: seq<Star>, date: int): (k: nat)
    ensures k <= |stars|
    ensures forall i :: 0 <= i < k ==> !LaterThan(stars[i], date)
    ensures k < |stars| ==> LaterThan(stars[k], date)
  {
    if stars == [] || LaterThan(stars[0], date) then 0 else 1 + FirstLater(stars[1..], date)
  }

  /** `FirstLater` is determined by its two properties. */
  lemma FirstLaterIs(stars: seq<Star>, date: int, k: nat)
    requires k <= |stars|
    requires forall i :: 0 <= i < k ==> !LaterThan(stars[i], date)
    requires k < |stars| ==> LaterThan(stars[k], date)
    ensures FirstLater(stars, date) == k
  {
  }

  /** The number of stars that carry a timestamp. */
  function CountStamped(stars: seq<Star>): (n: nat)
    ensures n <= |stars|
  {
    if stars == [] then 0
    else (if stars[0].starredAt.Some? then 1 else 0) + CountStamped(stars[1..])
  }

  lemma {:induction false} CountStampedConcat(a: seq<Star>, b: seq<Star>)
    ensures CountStamped(a + b) == CountStamped(a) + CountStamped(b)
    decreases |a|
  {
    if a == [] {
      assert a + b == b;
    } else {
      assert (a + b)[1..] == a[1..] + b;
      CountStampedConcat(a[1..], b);
    }
  }

  /** The count the inner loop reaches over pages without a throw: the stamped stars before the first later one. */
  function StarsUpTo(stars: seq<Star>, date: int): nat {
    CountStamped(stars[..FirstLater(stars, date)])
  }

  /** Floor of `currentStars * pointAge / repoAge`, the linear approximation used when timestamps are refused. */
  function Approximation(currentStars: nat, pointAge: nat, repoAge: nat): nat
    requires repoAge > 0
  {
    currentStars * pointAge / repoAge
  }

  lemma ApproximationBounded(currentStars: nat, pointAge: nat, repoAge: nat)
    requires 0 < repoAge && pointAge <= repoAge
    ensures Approximation(currentStars, pointAge, repoAge) <= currentStars
  {
    assert currentStars * pointAge <= currentStars * repoAge;
    assert currentStars * repoAge / repoAge == currentStars;
  }

  /** `getCurrentStarCount`: `stargazers_count || 0`, and 0 when the request fails. */
  function CurrentStarCount(reply: Option<RepoInfo>): (n: nat)
    ensures n > 0 ==> reply.Some? && reply.value.stargazersCount == Some(n)
    ensures n == 0 <==> reply.None? || reply.value.stargazersCount.None? || reply.value.stargazersCount == Some(0)
  {
    match reply
    case None => 0
    case Some(info) => OrZero(info.stargazersCount)
  }

  /**
   * The stars at one later date: pages are read until an empty one or the
   * first star after the date; a 422 (no timestamps) before that gives the
   * linear approximation, and any other error keeps the count so far.
   */
  function StarsAtOf(l: Listing<Star>, date: int, created: int, now: int, current: Option<RepoInfo>): nat
    requires created < now && created <= date
  {
    var read := UntilEmpty(l, 0, |l.pages| + 1);
    var k := FirstLater(read.items, date);
    if read.thrown == Some(422) && k == |read.items| then
      Approximation(CurrentStarCount(current), date - created, now - created)
    else CountStamped(read.items[..k])
  }

  /** The `for (const star of response.data)` loop over one page. */
  method ScanStarsUpTo(data: seq<Star>, date: int, count0: nat) returns (count: nat, later: bool)
    ensures later <==> FirstLater(data, date) < |data|
    ensures count == count0 + StarsUpTo(data, date)
  {
    count := count0;
    later := false;
    var j := 0;
    while j < |data|
      invariant 0 <= j <= FirstLater(data, date)
      invariant count == count0 + CountStamped(data[..j])
    {
      var star := data[j];
      TakeOneMore(data, j);
      CountStampedConcat(data[..j], [star]);
      if star.starredAt.Some? {
        if star.starredAt.value <= date {
          count := count + 1;
        } else {
          later := true;
          break;
        }
      }
      j := j + 1;
    }
  }

  /** `FirstLater` over a concatenation whose first part holds no later star. */
  lemma FirstLaterConcat(a: seq<Star>, b: seq<Star>, date: int)
    requires FirstLater(a, date) == |a|
    ensures FirstLater(a + b, date) == |a| + FirstLater(b, date)
    ensures StarsUpTo(a + b, date) == CountStamped(a) + StarsUpTo(b, date)
  {
    var k := FirstLater(b, date);
    FirstLaterIs(a + b, date, |a| + k);
    TakeConcatRight(a, b, k);
    CountStampedConcat(a, b[..k]);
  }

  /** The `while (hasMore)` loop for one later interval date. */
  method StarsAt(l: Listing<Star>, date: int, created: int, now: int, current: Option<RepoInfo>)
    returns (starsAtDate: nat)
    requires created < now && created <= date
    ensures starsAtDate == StarsAtOf(l, date, created, now, current)
  {
    var page := 1;
    starsAtDate := 0;
    var hasMore := true;
    ghost var all := UntilEmpty(l, 0, |l.pages| + 1);
    ghost var seen: seq<Star> := [];
    while hasMore
      invariant 1 <= page <= |l.pages| + 1
      invariant hasMore ==> all.items == seen + UntilEmpty(l, page - 1, |l.pages| + 1).items
      invariant hasMore ==> all.thrown == UntilEmpty(l, page - 1, |l.pages| + 1).thrown
      invariant hasMore ==> FirstLater(seen, date) == |seen| && starsAtDate == CountStamped(seen)
      invariant !hasMore ==> starsAtDate == StarsAtOf(l, date, created, now, current)
      decreases |l.pages| + 1 - page, hasMore
    {
      var reply := Request(l, page - 1);
      EmptyAdvance(l, page - 1, |l.pages| + 1, all, seen);
      if reply.Thrown? {
        StarsAtEnd(l, date, created, now, current, seen);
        if reply.status == 422 {
          starsAtDate := Approximation(CurrentStarCount(current), date - created, now - created);
        }
        hasMore := false;
      } else if |reply.items| == 0 {
        StarsAtEnd(l, date, created, now, current, seen);
        hasMore := false;
        break;
      } else {
        var data := reply.items;
        var later;
        starsAtDate, later := ScanStarsUpTo(data, date, starsAtDate);
        if later {
          StarsAtLater(l, date, created, now, current, seen, data, UntilEmpty(l, page, |l.pages| + 1).items);
          hasMore := false;
        } else {
          StarsAtNext(seen, data, date);
          seen := seen + data;
        }
        page := page + 1;
      }
    }
  }

  /** A page without a later star adds its stamped stars to the count. */
  lemma StarsAtNext(seen: seq<Star>, data: seq<Star>, date: int)
    requires FirstLater(seen, date) == |seen|
    requires FirstLater(data, date) == |data|
    ensures FirstLater(seen + data, date) == |seen + data|
    ensures CountStamped(seen) + StarsUpTo(data, date) == CountStamped(seen + data)
  {
    FirstLaterConcat(seen, data, date);
    assert data[..|data|] == data;
    CountStampedConcat(seen, data);
  }

  /** The traversal ended on `seen` without a later star: the count so far, or the approximation after a 422. */
  lemma StarsAtEnd(l: Listing<Star>, date: int, created: int, now: int, current: Option<RepoInfo>, seen: seq<Star>)
    requires created < now && created <= date
    requires UntilEmpty(l, 0, |l.pages| + 1).items == seen
    requires FirstLater(seen, date) == |seen|
    ensures UntilEmpty(l, 0, |l.pages| + 1).thrown == Some(422) ==>
      StarsAtOf(l, date, created, now, current) == Approximation(CurrentStarCount(current), date - created, now - created)
    ensures UntilEmpty(l, 0, |l.pages| + 1).thrown != Some(422) ==>
      StarsAtOf(l, date, created, now, current) == CountStamped(seen)
  {
    assert seen[..|seen|] == seen;
  }

  /** The traversal met a later star on the page `data` that followed `seen`: the rest of it does not matter. */
  lemma StarsAtLater(l: Listing<Star>, date: int, created: int, now: int, current: Option<RepoInfo>,
                     seen: seq<Star>, data: seq<Star>, rest: seq<Star>)
    requires created < now && created <= date
    requires UntilEmpty(l, 0, |l.pages| + 1).items == (seen + data) + rest
    requires FirstLater(seen, date) == |seen|
    requires FirstLater(data, date) < |data|
    ensures StarsAtOf(l, date, created, now, current) == CountStamped(seen) + StarsUpTo(data, date)
  {
    AppendAssoc(seen, data, rest);
    FirstLaterConcat(seen, data + rest, date);
    FirstLaterKeepsPrefix(data, rest, date);
  }

  /** A later star inside the first part decides `FirstLater` there. */
  lemma FirstLaterKeepsPrefix(a: seq<Star>, b: seq<Star>, date: int)
    requires FirstLater(a, date) < |a|
    ensures FirstLater(a + b, date) == FirstLater(a, date)
    ensures StarsUpTo(a + b, date) == StarsUpTo(a, date)
  {
    var k := FirstLater(a, date);
    FirstLaterIs(a + b, date, k);
    TakeConcatLeft(a, b, k);
  }

  /** One point of the history chart. */
  datatype HistoryPoint = HistoryPoint(date: int, stars: nat)

  /**
   * `getStarHistory`: one point per interval date, 0 stars at the creation date
   * and `StarsAtOf` at every later one; `None` when the creation date is after
   * `now`, where the source throws.
   */
  method GetStarHistory(l: Listing<Star>, created: int, now: int, next: int -> int, current: Option<RepoInfo>)
    returns (r: Option<seq<HistoryPoint>>)
    requires forall u :: next(u) > u
    ensures r.None? <==> created > now
    ensures r.Some? ==>
      var ds := IntervalsOf(created, now, next).value;
      && |r.value| == |ds|
      && (forall i :: 0 <= i < |ds| ==> r.value[i].date == ds[i])
      && r.value[0] == HistoryPoint(created, 0)
      && r.value[|ds| - 1].date == now
      && (forall i :: 1 <= i < |ds| ==>
            created < now && created <= ds[i] &&
            r.value[i].stars == StarsAtOf(l, ds[i], created, now, current))
  {
    IntervalsShape(created, now, next);
    var intervals := Intervals(created, now, next);
    if intervals.None? {
      return None;
    }
    var ds := intervals.value;
    var history: seq<HistoryPoint> := [];
    var i := 0;
    while i < |ds|
      invariant 0 <= i <= |ds|
      invariant |history| == i
      invariant forall k :: 0 <= k < i ==> history[k].date == ds[k]
      invariant i > 0 ==> history[0].stars == 0
      invariant forall k :: 1 <= k < i ==> created < now && history[k].stars == StarsAtOf(l, ds[k], created, now, current)
    {
      var date := ds[i];
      if i == 0 {
        history := history + [HistoryPoint(date, 0)];
      } else {
        assert ds[0] < ds[i];
        var starsAtDate := StarsAt(l, date, created, now, current);
        history := history + [HistoryPoint(date, starsAtDate)];
      }
      i := i + 1;
    }
    r := Some(history);
  }

  /** A date of the history never counts more stars than a later one, for the same listing. */
  lemma {:induction false} StarsUpToMonotone(stars: seq<Star>, d1: int, d2: int)
    requires d1 <= d2
    ensures StarsUpTo(stars, d1) <= StarsUpTo(stars, d2)
    decreases |stars|
  {
    if stars != [] && !LaterThan(stars[0], d1) {
      StarsUpToStep(stars, d1);
      if !LaterThan(stars[0], d2) {
        StarsUpToStep(stars, d2);
        StarsUpToMonotone(stars[1..], d1, d2);
      }
    }
  }

  lemma StarsUpToStep(stars: seq<Star>, date: int)
    requires stars != [] && !LaterThan(stars[0], date)
    ensures StarsUpTo(stars, date) == (if stars[0].starredAt.Some? then 1 else 0) + StarsUpTo(stars[1..], date)
  {
    var k := FirstLater(stars[1..], date);
    assert stars[..1 + k][1..] == stars[1..][..k];
  }

  /** Without request errors the history counts never decrease from one date to a later one. */
  lemma StarsAtMonotone(l: Listing<Star>, d1: int, d2: int, created: int, now: int, current: Option<RepoInfo>)
    requires l.failure.None?
    requires created < now && created <= d1 <= d2
    ensures StarsAtOf(l, d1, created, now, current) <= StarsAtOf(l, d2, created, now, current)
  {
    UntilEmptyBounds(l, 0, |l.pages| + 1);
    StarsUpToMonotone(UntilEmpty(l, 0, |l.pages| + 1).items, d1, d2);
  }

  /** A 422 approximation never exceeds the current star count at any date up to `now`. */
  lemma StarsAtApproximationBounded(l: Listing<Star>, date: int, created: int, now: int, current: Option<RepoInfo>)
    requires created < now && created <= date <= now
    requires UntilEmpty(l, 0, |l.pages| + 1).thrown == Some(422)
    requires FirstLater(UntilEmpty(l, 0, |l.pages| + 1).items, date) == |UntilEmpty(l, 0, |l.pages| + 1).items|
    ensures StarsAtOf(l, date, created, now, current) <= CurrentStarCount(current)
  {
    ApproximationBounded(CurrentStarCount(current), date - created, now - created);
  }

  /** A date counts no more stars than the listing's timestamped stars, unless timestamps are refused. */
  lemma StarsAtCounted(l: Listing<Star>, date: int, created: int, now: int, current: Option<RepoInfo>)
    requires created < now && created <= date
    requires l.failure != Some(422)
    ensures StarsAtOf(l, date, created, now, current) <= CountStamped(UntilEmpty(l, 0, |l.pages| + 1).items)
  {
    var read := UntilEmpty(l, 0, |l.pages| + 1);
    var items := read.items;
    UntilEmptyBounds(l, 0, |l.pages| + 1);
    var k := FirstLater(items, date);
    assert read.thrown != Some(422);
    assert StarsAtOf(l, date, created, now, current) == CountStamped(items[..k]);
    assert items == items[..k] + items[k..];
    CountStampedConcat(items[..k], items[k..]);
  }
}
