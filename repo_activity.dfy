/**
 * The per-repository statistics of `collectors/gitHubCollector.ts`:
 * `getStarStats`, `getPRStats` and `getIssueStats`. Every API call is an
 * argument: a `Listing` for a paginated endpoint, a `CountReply` for a
 * `per_page: 1` request. The window thresholds "one month ago" and "one year
 * ago" are integer timestamps.
 */
module RepoActivity {
  import opened Common
  import opened Paging
  import opened LinkHeader
  import opened GitHubApi

  /** The last-month PR and issue loops run `while (page < 10)`: pages 1 to 9. */
  const LastMonthPages: nat := 9

  datatype StarStats = StarStats(lastMonth: nat, lastYear: nat)

  // ---------------------------------------------------------------- stars

  /** What `getStarStats` returns, or `None` when one of its requests throws. */
  function StarStatsOf(stars: Listing<Star>, oneMonthAgo: int, oneYearAgo: int): Option<StarStats> {
    var read := AllPages(stars);
    if read.thrown.Some? then None
    else Some(StarStats(CountSince(read.items, oneMonthAgo), CountSince(read.items, oneYearAgo)))
  }

  /** Only a throw loses the statistics, and neither window counts more stars than were read. */
  lemma StarStatsShape(stars: Listing<Star>, oneMonthAgo: int, oneYearAgo: int)
    ensures var r := StarStatsOf(stars, oneMonthAgo, oneYearAgo);
            var read := AllPages(stars);
      && (r.None? <==> read.thrown.Some?)
      && (r.Some? ==> r.value.lastMonth <= |read.items| && r.value.lastYear <= |read.items|)
  {
  }

  /** `getStarStats`: both windows counted in one pass over every page of stargazers. */
  method GetStarStats(stars: Listing<Star>, oneMonthAgo: int, oneYearAgo: int) returns (r: Option<StarStats>)
    ensures r == StarStatsOf(stars, oneMonthAgo, oneYearAgo)
    ensures r.Some? && oneYearAgo <= oneMonthAgo ==> r.value.lastMonth <= r.value.lastYear
  {
    var starsLastMonth, starsLastYear := 0, 0;
    var page := 1;
    ghost var all := AllPages(stars);
    ghost var seen: seq<Star> := [];
    while true
      invariant 1 <= page <= |stars.pages| + 1
      invariant all.items == seen + UntilShort(stars, page - 1, |stars.pages| + 1).items
      invariant all.thrown == UntilShort(stars, page - 1, |stars.pages| + 1).thrown
      invariant starsLastMonth == CountSince(seen, oneMonthAgo)
      invariant starsLastYear == CountSince(seen, oneYearAgo)
      decreases |stars.pages| + 1 - page
    {
      var reply := Request(stars, page - 1);
      ShortAdvance(stars, page - 1, |stars.pages| + 1, all, seen);
      if reply.Thrown? {
        return None;
      }
      var data := reply.items;
      if |data| == 0 {
        break;
      }
      starsLastMonth, starsLastYear := TallyStars(data, oneMonthAgo, oneYearAgo, starsLastMonth, starsLastYear);
      CountSinceConcat(seen, data, oneMonthAgo);
      CountSinceConcat(seen, data, oneYearAgo);
      seen := seen + data;
      if |data| < PerPage {
        break;
      }
      page := page + 1;
    }
    if oneYearAgo <= oneMonthAgo {
      CountSinceAntitone(all.items, oneYearAgo, oneMonthAgo);
    }
    assert all.items == seen && all.thrown.None?;
    assert CountSince(AllPages(stars).items, oneMonthAgo) == starsLastMonth;
    assert CountSince(AllPages(stars).items, oneYearAgo) == starsLastYear;
    r := Some(StarStats(starsLastMonth, starsLastYear));
  }

  /** The `for (const star of data)` loop of `getStarStats`: both window counters advanced over one page. */
  method TallyStars(data: seq<Star>, oneMonthAgo: int, oneYearAgo: int, month0: nat, year0: nat)
    returns (starsLastMonth: nat, starsLastYear: nat)
    ensures starsLastMonth == month0 + CountSince(data, oneMonthAgo)
    ensures starsLastYear == year0 + CountSince(data, oneYearAgo)
  {
    starsLastMonth, starsLastYear := month0, year0;
    var j := 0;
    while j < |data|
      invariant 0 <= j <= |data|
      invariant starsLastMonth == month0 + CountSince(data[..j], oneMonthAgo)
      invariant starsLastYear == year0 + CountSince(data[..j], oneYearAgo)
    {
      var star := data[j];
      TakeOneMore(data, j);
      CountSinceSnoc(data[..j], star, oneMonthAgo);
      CountSinceSnoc(data[..j], star, oneYearAgo);
      if star.starredAt.Some? {
        if star.starredAt.value >= oneMonthAgo {
          starsLastMonth := starsLastMonth + 1;
        }
        if star.starredAt.value >= oneYearAgo {
          starsLastYear := starsLastYear + 1;
        }
      }
      j := j + 1;
    }
    assert data[..|data|] == data;
  }

  /** Every star of the last month is a star of the last year. */
  lemma StarWindowsNested(stars: Listing<Star>, oneMonthAgo: int, oneYearAgo: int)
    requires oneYearAgo <= oneMonthAgo
    ensures var r := StarStatsOf(stars, oneMonthAgo, oneYearAgo);
            r.Some? ==> r.value.lastMonth <= r.value.lastYear
  {
    CountSinceAntitone(AllPages(stars).items, oneYearAgo, oneMonthAgo);
  }

  // ---------------------------------------------------------- pull requests

  /** A pull request of `pulls.list`; only its creation time is read. */
  datatype PullRequest = PullRequest(createdAt: Option<int>)

  /** The `{ open, closed, last_month }` record of `getPRStats` and `getIssueStats`. */
  datatype TrackerStats = TrackerStats(open: nat, closed: nat, lastMonth: nat)

  const ZeroStats := TrackerStats(0, 0, 0)

  /** `created_at && new Date(created_at) >= oneMonthAgo` */
  predicate CreatedSince(createdAt: Option<int>, threshold: int) {
    createdAt.Some? && createdAt.value >= threshold
  }

  /** The count from a `per_page: 1` listing's `Link` header: the last page number, else 1. */
  function LinkCount(link: Option<string>): (n: nat)
    ensures n != 1 ==> Truthy(link) && LastPage(link.value) == Some(n)
    ensures n == 0 <==> Truthy(link) && LastPage(link.value) == Some(0)
    ensures Truthy(link) && LastPage(link.value).Some? ==> n == LastPage(link.value).value
  {
    if Truthy(link) then
      match LastPage(link.value)
      case Some(k) => k
      case None => 1
    else 1
  }

  /** A GitHub-style header whose `rel="last"` link is the first match gives that link's page number. */
  lemma LinkCountOfLastLink(p: string, n: nat, q: string)
    requires forall k :: 0 <= k < |p| ==> !MatchesAt(p, k)
    ensures LinkCount(Some(p + PagePrefix + Decimal(n) + LastSuffix + q)) == n
  {
    LastPageRoundTrip(p, n, q);
  }

  /** The index of the first pull request older than the threshold, or the length when there is none. */
  function FirstOld(prs: seq<PullRequest>, threshold: int): (k: nat)
    ensures k <= |prs|
    ensures forall i :: 0 <= i < k ==> CreatedSince(prs[i].createdAt, threshold)
    ensures k < |prs| ==> !CreatedSince(prs[k].createdAt, threshold)
  {
    if prs == [] || !CreatedSince(prs[0].createdAt, threshold) then 0
    else 1 + FirstOld(prs[1..], threshold)
  }

  /** `FirstOld` is determined by its two properties. */
  lemma FirstOldIs(prs: seq<PullRequest>, threshold: int, k: nat)
    requires k <= |prs|
    requires forall i :: 0 <= i < k ==> CreatedSince(prs[i].createdAt, threshold)
    requires k < |prs| ==> !CreatedSince(prs[k].createdAt, threshold)
    ensures FirstOld(prs, threshold) == k
  {
  }

  /** A leading run of recent pull requests is skipped over by `FirstOld`. */
  lemma {:induction false} FirstOldSkip(a: seq<PullRequest>, b: seq<PullRequest>, threshold: int)
    requires forall i :: 0 <= i < |a| ==> CreatedSince(a[i].createdAt, threshold)
    ensures FirstOld(a + b, threshold) == |a| + FirstOld(b, threshold)
    decreases |a|
  {
    if a == [] {
      assert a + b == b;
    } else {
      assert (a + b)[1..] == a[1..] + b;
      FirstOldSkip(a[1..], b, threshold);
    }
  }

  /** Once an older pull request is met, what follows it does not matter. */
  lemma FirstOldStops(a: seq<PullRequest>, b: seq<PullRequest>, threshold: int)
    requires FirstOld(a, threshold) < |a|
    ensures FirstOld(a + b, threshold) == FirstOld(a, threshold)
  {
    FirstOldIs(a + b, threshold, FirstOld(a, threshold));
  }

  /**
   * The last-month pull-request count, or `None` when a page request throws:
   * the leading run of pull requests, newest first, created since the
   * threshold, over at most nine pages. A request that would throw is never
   * made when an older pull request ends the run first.
   */
  function PrsLastMonthOf(prs: Listing<PullRequest>, oneMonthAgo: int): Option<nat> {
    var read := UntilEmpty(prs, 0, LastMonthPages);
    var n := FirstOld(read.items, oneMonthAgo);
    if read.thrown.Some? && n == |read.items| then None else Some(n)
  }

  /**
   * Only a throw loses the count; otherwise the count is a run of pull
   * requests read, all created since the threshold, and the one after the
   * run, when read, is older.
   */
  lemma PrsLastMonthRun(prs: Listing<PullRequest>, oneMonthAgo: int)
    ensures var r := PrsLastMonthOf(prs, oneMonthAgo);
            var read := UntilEmpty(prs, 0, LastMonthPages);
      && (r.None? ==> read.thrown.Some?)
      && (r.Some? ==>
            && r.value <= |read.items|
            && (forall i :: 0 <= i < r.value ==> CreatedSince(read.items[i].createdAt, oneMonthAgo))
            && (r.value < |read.items| ==> !CreatedSince(read.items[r.value].createdAt, oneMonthAgo)))
  {
  }

  /** What `getPRStats` returns, or `None` when one of its requests throws. */
  function PrStatsOf(openReply: CountReply, closedReply: CountReply, prs: Listing<PullRequest>,
                     oneMonthAgo: int): (r: Option<TrackerStats>)
    ensures r.None? <==> openReply.Failed? || closedReply.Failed? || PrsLastMonthOf(prs, oneMonthAgo).None?
    ensures r.Some? ==> r.value.lastMonth == PrsLastMonthOf(prs, oneMonthAgo).value
  {
    if openReply.Failed? || closedReply.Failed? then None
    else match PrsLastMonthOf(prs, oneMonthAgo)
      case None => None
      case Some(n) => Some(TrackerStats(LinkCount(openReply.link), LinkCount(closedReply.link), n))
  }

  /** `getPRStats`. */
  method GetPRStats(openReply: CountReply, closedReply: CountReply, prs: Listing<PullRequest>,
                    oneMonthAgo: int) returns (r: Option<TrackerStats>)
    ensures r == PrStatsOf(openReply, closedReply, prs, oneMonthAgo)
  {
    if openReply.Failed? || closedReply.Failed? {
      return None;
    }
    var openCount := 1;
    if Truthy(openReply.link) {
      var m := LastPage(openReply.link.value);
      openCount := if m.Some? then m.value else 1;
    }
    var closedCount := 1;
    if Truthy(closedReply.link) {
      var m := LastPage(closedReply.link.value);
      closedCount := if m.Some? then m.value else 1;
    }
    var prsLastMonth := CountPrsLastMonth(prs, oneMonthAgo);
    if prsLastMonth.None? {
      return None;
    }
    r := Some(TrackerStats(openCount, closedCount, prsLastMonth.value));
  }

  /**
   * The state of the last-month loop before page `page`: either the pages so
   * far were a run of `count` recent pull requests and the rest is still to
   * be read, or an old pull request has ended the run (`page` 100, after the
   * source's `page = 99` and the loop's `page++`).
   */
  ghost predicate PrsLoop(prs: Listing<PullRequest>, threshold: int, page: nat, seen: seq<PullRequest>, count: nat) {
    var all := UntilEmpty(prs, 0, LastMonthPages);
    if page == 100 then count == FirstOld(all.items, threshold) < |all.items|
    else
      && 1 <= page <= LastMonthPages + 1
      && all.items == seen + UntilEmpty(prs, page - 1, LastMonthPages).items
      && all.thrown == UntilEmpty(prs, page - 1, LastMonthPages).thrown
      && count == |seen|
      && forall i :: 0 <= i < |seen| ==> CreatedSince(seen[i].createdAt, threshold)
  }

  /**
   * The last-month loop of `getPRStats`: pages 1 to 9, counting until a page
   * is empty or a pull request older than the threshold sets `page = 99`.
   */
  method CountPrsLastMonth(prs: Listing<PullRequest>, oneMonthAgo: int) returns (r: Option<nat>)
    ensures r == PrsLastMonthOf(prs, oneMonthAgo)
  {
    var prsLastMonth := 0;
    var page := 1;
    ghost var seen: seq<PullRequest> := [];
    while page <= LastMonthPages
      invariant PrsLoop(prs, oneMonthAgo, page, seen, prsLastMonth)
      decreases 100 - page
    {
      var reply := Request(prs, page - 1);
      UntilEmptyStep(prs, page - 1, LastMonthPages);
      if reply.Thrown? {
        PrsLoopEnds(prs, oneMonthAgo, page, seen, prsLastMonth);
        return None;
      }
      var data := reply.items;
      if |data| == 0 {
        PrsLoopEnds(prs, oneMonthAgo, page, seen, prsLastMonth);
        return Some(prsLastMonth);
      }
      var added, older := ScanPrs(data, oneMonthAgo);
      PrsLoopPage(prs, oneMonthAgo, page, seen, prsLastMonth, added);
      prsLastMonth := prsLastMonth + added;
      if older {
        page := 99;
      } else {
        seen := seen + data;
      }
      page := page + 1;
    }
    PrsLoopDone(prs, oneMonthAgo, page, seen, prsLastMonth);
    r := Some(prsLastMonth);
  }

  /** A page that throws or is empty ends the loop: `None` on a throw, otherwise the run so far. */
  lemma PrsLoopEnds(prs: Listing<PullRequest>, threshold: int, page: nat, seen: seq<PullRequest>, count: nat)
    requires page <= LastMonthPages && PrsLoop(prs, threshold, page, seen, count)
    requires Request(prs, page - 1).Thrown? || |Request(prs, page - 1).items| == 0
    ensures PrsLastMonthOf(prs, threshold) == if Request(prs, page - 1).Thrown? then None else Some(count)
  {
    UntilEmptyStep(prs, page - 1, LastMonthPages);
    var all := UntilEmpty(prs, 0, LastMonthPages);
    assert all.items == seen + [];
    FirstOldIs(all.items, threshold, |seen|);
  }

  /** A non-empty page either ends the run on it or joins the run. */
  lemma PrsLoopPage(prs: Listing<PullRequest>, threshold: int, page: nat, seen: seq<PullRequest>, count: nat,
                    added: nat)
    requires page <= LastMonthPages && PrsLoop(prs, threshold, page, seen, count)
    requires Request(prs, page - 1).Served? && |Request(prs, page - 1).items| > 0
    requires added == FirstOld(Request(prs, page - 1).items, threshold)
    ensures var data := Request(prs, page - 1).items;
      if added < |data| then PrsLoop(prs, threshold, 100, seen, count + added)
      else PrsLoop(prs, threshold, page + 1, seen + data, count + added)
  {
    UntilEmptyStep(prs, page - 1, LastMonthPages);
    var data := Request(prs, page - 1).items;
    var rest := UntilEmpty(prs, page, LastMonthPages).items;
    PrPageAdvance(seen, data, rest, threshold);
  }

  /** After the ninth page the count is the run read so far. */
  lemma PrsLoopDone(prs: Listing<PullRequest>, threshold: int, page: nat, seen: seq<PullRequest>, count: nat)
    requires page > LastMonthPages && PrsLoop(prs, threshold, page, seen, count)
    ensures PrsLastMonthOf(prs, threshold) == Some(count)
  {
    if page != 100 {
      var all := UntilEmpty(prs, 0, LastMonthPages);
      assert all.items == seen + [];
      FirstOldIs(all.items, threshold, |seen|);
    }
  }

  /**
   * One page of the last-month loop after a run of recent pull requests: an
   * old pull request on it ends the run there, otherwise the page joins the run.
   */
  lemma PrPageAdvance(seen: seq<PullRequest>, data: seq<PullRequest>, rest: seq<PullRequest>, threshold: int)
    requires forall i :: 0 <= i < |seen| ==> CreatedSince(seen[i].createdAt, threshold)
    ensures FirstOld(data, threshold) < |data| ==>
      FirstOld(seen + (data + rest), threshold) == |seen| + FirstOld(data, threshold) < |seen + (data + rest)|
    ensures FirstOld(data, threshold) == |data| ==>
      && seen + (data + rest) == (seen + data) + rest
      && forall i :: 0 <= i < |seen + data| ==> CreatedSince((seen + data)[i].createdAt, threshold)
  {
    FirstOldSkip(seen, data + rest, threshold);
    if FirstOld(data, threshold) < |data| {
      FirstOldStops(data, rest, threshold);
    } else {
      AppendAssoc(seen, data, rest);
      forall i | 0 <= i < |seen + data| ensures CreatedSince((seen + data)[i].createdAt, threshold) {
        if i >= |seen| {
          assert (seen + data)[i] == data[i - |seen|];
        }
      }
    }
  }

  /**
   * The `for (const pr of data)` loop of `getPRStats` over one page: the number
   * of pull requests counted before one older than the threshold, and whether
   * such a pull request was met (the source then sets `page = 99`).
   */
  method ScanPrs(data: seq<PullRequest>, oneMonthAgo: int) returns (added: nat, older: bool)
    ensures added == FirstOld(data, oneMonthAgo)
    ensures older <==> added < |data|
  {
    added := 0;
    older := false;
    var j := 0;
    while j < |data|
      invariant 0 <= j <= |data|
      invariant added == j
      invariant forall i :: 0 <= i < j ==> CreatedSince(data[i].createdAt, oneMonthAgo)
    {
      var pr := data[j];
      if pr.createdAt.Some? && pr.createdAt.value >= oneMonthAgo {
        added := added + 1;
      } else {
        older := true;
        break;
      }
      j := j + 1;
    }
    FirstOldIs(data, oneMonthAgo, added);
  }

  /** The last-month pull-request count reads at most nine pages of 100, so it is at most 900. */
  lemma PrsLastMonthBounded(openReply: CountReply, closedReply: CountReply, prs: Listing<PullRequest>,
                            oneMonthAgo: int)
    ensures var r := PrStatsOf(openReply, closedReply, prs, oneMonthAgo);
            r.Some? ==> r.value.lastMonth <= PerPage * LastMonthPages
  {
    UntilEmptyBounds(prs, 0, LastMonthPages);
  }

  // ----------------------------------------------------------------- issues

  /** An item of `issues.listForRepo`, which lists pull requests too: `isPullRequest` is `!!issue.pull_request`. */
  datatype Issue = Issue(isPullRequest: bool, createdAt: Option<int>)

  /** The number of true issues, pull requests excluded. */
  function CountIssues(items: seq<Issue>): (n: nat)
    ensures n <= |items|
  {
    if items == [] then 0
    else (if items[0].isPullRequest then 0 else 1) + CountIssues(items[1..])
  }

  lemma {:induction false} CountIssuesConcat(a: seq<Issue>, b: seq<Issue>)
    ensures CountIssues(a + b) == CountIssues(a) + CountIssues(b)
    decreases |a|
  {
    if a == [] {
      assert a + b == b;
    } else {
      assert (a + b)[1..] == a[1..] + b;
      CountIssuesConcat(a[1..], b);
    }
  }

  /** Pull requests listed among the issues are never counted. */
  lemma {:induction false} PullRequestsNotCounted(items: seq<Issue>)
    requires forall i :: 0 <= i < |items| ==> items[i].isPullRequest
    ensures CountIssues(items) == 0
    decreases |items|
  {
    if items != [] {
      PullRequestsNotCounted(items[1..]);
    }
  }

  /** An issue ends the last-month run when it is a true issue and was not created since the threshold. */
  predicate EndsRun(issue: Issue, threshold: int) {
    !issue.isPullRequest && !CreatedSince(issue.createdAt, threshold)
  }

  /** The index of the first issue that ends the last-month run, or the length when there is none. */
  function FirstStop(items: seq<Issue>, threshold: int): (k: nat)
    ensures k <= |items|
    ensures forall i :: 0 <= i < k ==> !EndsRun(items[i], threshold)
    ensures k < |items| ==> EndsRun(items[k], threshold)
  {
    if items == [] || EndsRun(items[0], threshold) then 0
    else 1 + FirstStop(items[1..], threshold)
  }

  /** `FirstStop` is determined by its two properties. */
  lemma FirstStopIs(items: seq<Issue>, threshold: int, k: nat)
    requires k <= |items|
    requires forall i :: 0 <= i < k ==> !EndsRun(items[i], threshold)
    requires k < |items| ==> EndsRun(items[k], threshold)
    ensures FirstStop(items, threshold) == k
  {
  }

  lemma {:induction false} FirstStopSkip(a: seq<Issue>, b: seq<Issue>, threshold: int)
    requires forall i :: 0 <= i < |a| ==> !EndsRun(a[i], threshold)
    ensures FirstStop(a + b, threshold) == |a| + FirstStop(b, threshold)
    decreases |a|
  {
    if a == [] {
      assert a + b == b;
    } else {
      assert (a + b)[1..] == a[1..] + b;
      FirstStopSkip(a[1..], b, threshold);
    }
  }

  lemma FirstStopStops(a: seq<Issue>, b: seq<Issue>, threshold: int)
    requires FirstStop(a, threshold) < |a|
    ensures FirstStop(a + b, threshold) == FirstStop(a, threshold)
  {
    FirstStopIs(a + b, threshold, FirstStop(a, threshold));
  }

  /**
   * The last-month issue count: true issues, newest first, before the first
   * true issue older than the threshold; pull requests in between neither
   * count nor end the run.
   */
  function IssuesSince(items: seq<Issue>, threshold: int): (n: nat)
    ensures n <= |items|
  {
    CountIssues(items[..FirstStop(items, threshold)])
  }

  /** The issue count over every page of a listing, or `None` when a request throws. */
  function IssueCountOf(issues: Listing<Issue>): (r: Option<nat>)
    ensures r.None? <==> AllPages(issues).thrown.Some?
    ensures r.Some? ==> r.value <= |AllPages(issues).items|
  {
    var read := AllPages(issues);
    if read.thrown.Some? then None else Some(CountIssues(read.items))
  }

  /** The last-month issue count over at most nine pages, or `None` when a request throws before the run ends. */
  function IssuesLastMonthOf(issues: Listing<Issue>, oneMonthAgo: int): (r: Option<nat>)
    ensures r.None? ==> UntilEmpty(issues, 0, LastMonthPages).thrown.Some?
    ensures r.Some? ==> r.value <= FirstStop(UntilEmpty(issues, 0, LastMonthPages).items, oneMonthAgo)
  {
    var read := UntilEmpty(issues, 0, LastMonthPages);
    var k := FirstStop(read.items, oneMonthAgo);
    if read.thrown.Some? && k == |read.items| then None
    else Some(CountIssues(read.items[..k]))
  }

  /** What `getIssueStats` returns, or `None` when one of its requests throws. */
  function IssueStatsOf(open: Listing<Issue>, closed: Listing<Issue>, recent: Listing<Issue>,
                        oneMonthAgo: int): (r: Option<TrackerStats>)
    ensures r.None? <==>
      IssueCountOf(open).None? || IssueCountOf(closed).None? || IssuesLastMonthOf(recent, oneMonthAgo).None?
    ensures r.Some? ==> r.value.lastMonth == IssuesLastMonthOf(recent, oneMonthAgo).value
  {
    match (IssueCountOf(open), IssueCountOf(closed), IssuesLastMonthOf(recent, oneMonthAgo))
    case (Some(o), Some(c), Some(m)) => Some(TrackerStats(o, c, m))
    case _ => None
  }

  /** `getIssueStats`: the open, the closed and the last-month listing, in that order. */
  method GetIssueStats(open: Listing<Issue>, closed: Listing<Issue>, recent: Listing<Issue>,
                       oneMonthAgo: int) returns (r: Option<TrackerStats>)
    ensures r == IssueStatsOf(open, closed, recent, oneMonthAgo)
  {
    var openCount := CountIssuePages(open);
    if openCount.None? {
      return None;
    }
    var closedCount := CountIssuePages(closed);
    if closedCount.None? {
      return None;
    }
    var issuesLastMonth := CountIssuesLastMonth(recent, oneMonthAgo);
    if issuesLastMonth.None? {
      return None;
    }
    r := Some(TrackerStats(openCount.value, closedCount.value, issuesLastMonth.value));
  }

  /** The `for (const issue of issues)` loop of the open and closed counts: true issues on one page. */
  method TallyIssues(data: seq<Issue>, count0: nat) returns (count: nat)
    ensures count == count0 + CountIssues(data)
  {
    count := count0;
    var j := 0;
    while j < |data|
      invariant 0 <= j <= |data|
      invariant count == count0 + CountIssues(data[..j])
    {
      TakeOneMore(data, j);
      CountIssuesConcat(data[..j], [data[j]]);
      if !data[j].isPullRequest {
        count := count + 1;
      }
      j := j + 1;
    }
    assert data[..|data|] == data;
  }

  /** The open-issue and the closed-issue loop of `getIssueStats`, which are the same code: every page, PRs excluded. */
  method CountIssuePages(issues: Listing<Issue>) returns (r: Option<nat>)
    ensures r == IssueCountOf(issues)
  {
    var count := 0;
    var page := 1;
    ghost var all := AllPages(issues);
    ghost var seen: seq<Issue> := [];
    while true
      invariant 1 <= page <= |issues.pages| + 1
      invariant all.items == seen + UntilShort(issues, page - 1, |issues.pages| + 1).items
      invariant all.thrown == UntilShort(issues, page - 1, |issues.pages| + 1).thrown
      invariant count == CountIssues(seen)
      decreases |issues.pages| + 1 - page
    {
      var reply := Request(issues, page - 1);
      ShortAdvance(issues, page - 1, |issues.pages| + 1, all, seen);
      if reply.Thrown? {
        return None;
      }
      var data := reply.items;
      if |data| == 0 {
        break;
      }
      count := TallyIssues(data, count);
      CountIssuesConcat(seen, data);
      seen := seen + data;
      if |data| < PerPage {
        break;
      }
      page := page + 1;
    }
    assert all.items == seen && all.thrown.None?;
    assert CountIssues(AllPages(issues).items) == count;
    r := Some(count);
  }

  /**
   * The issue loop of the last-month count over one page: the true issues
   * counted before one that ends the run, and whether one did (the source
   * then sets `page = 99`).
   */
  method ScanIssues(data: seq<Issue>, oneMonthAgo: int) returns (added: nat, older: bool)
    ensures added == IssuesSince(data, oneMonthAgo)
    ensures older <==> FirstStop(data, oneMonthAgo) < |data|
  {
    added := 0;
    older := false;
    var j := 0;
    while j < |data|
      invariant 0 <= j <= |data|
      invariant added == CountIssues(data[..j])
      invariant forall i :: 0 <= i < j ==> !EndsRun(data[i], oneMonthAgo)
    {
      var issue := data[j];
      TakeOneMore(data, j);
      CountIssuesConcat(data[..j], [issue]);
      if !issue.isPullRequest && issue.createdAt.Some? && issue.createdAt.value >= oneMonthAgo {
        added := added + 1;
      } else if !issue.isPullRequest {
        older := true;
        break;
      }
      j := j + 1;
    }
    FirstStopIs(data, oneMonthAgo, j);
  }

  /** Items read so far with no run end: everything they hold is counted. */
  lemma RunHasNoEnd(seen: seq<Issue>, threshold: int)
    requires forall i :: 0 <= i < |seen| ==> !EndsRun(seen[i], threshold)
    ensures FirstStop(seen, threshold) == |seen|
    ensures IssuesSince(seen, threshold) == CountIssues(seen)
  {
    FirstStopIs(seen, threshold, |seen|);
    assert seen[..|seen|] == seen;
  }

  /** A page on which the run ends fixes the count, whatever the later pages hold. */
  lemma RunEndsOnPage(seen: seq<Issue>, data: seq<Issue>, rest: seq<Issue>, threshold: int)
    requires forall i :: 0 <= i < |seen| ==> !EndsRun(seen[i], threshold)
    requires FirstStop(data, threshold) < |data|
    ensures FirstStop(seen + (data + rest), threshold) < |seen + (data + rest)|
    ensures IssuesSince(seen + (data + rest), threshold) == CountIssues(seen) + IssuesSince(data, threshold)
  {
    var k := FirstStop(data, threshold);
    FirstStopSkip(seen, data + rest, threshold);
    FirstStopStops(data, rest, threshold);
    TakeConcatRight(seen, data + rest, k);
    TakeConcatLeft(data, rest, k);
    CountIssuesConcat(seen, data[..k]);
  }

  /** A page on which the run does not end is counted whole, and the run goes on. */
  lemma RunGoesOn(seen: seq<Issue>, data: seq<Issue>, rest: seq<Issue>, threshold: int)
    requires forall i :: 0 <= i < |seen| ==> !EndsRun(seen[i], threshold)
    requires FirstStop(data, threshold) == |data|
    ensures forall i :: 0 <= i < |seen + data| ==> !EndsRun((seen + data)[i], threshold)
    ensures CountIssues(seen + data) == CountIssues(seen) + IssuesSince(data, threshold)
    ensures seen + (data + rest) == (seen + data) + rest
  {
    CountIssuesConcat(seen, data);
    assert data[..|data|] == data;
    AppendAssoc(seen, data, rest);
  }

  /** The last-month loop of `getIssueStats`: pages 1 to 9, stopped by an empty page or by `page = 99`. */
  method CountIssuesLastMonth(issues: Listing<Issue>, oneMonthAgo: int) returns (r: Option<nat>)
    ensures r == IssuesLastMonthOf(issues, oneMonthAgo)
  {
    var issuesLastMonth := 0;
    var page := 1;
    ghost var all := UntilEmpty(issues, 0, LastMonthPages);
    ghost var seen: seq<Issue> := [];
    while page <= LastMonthPages
      invariant 1 <= page <= LastMonthPages + 1 || page == 100
      invariant page != 100 ==> all.items == seen + UntilEmpty(issues, page - 1, LastMonthPages).items
      invariant page != 100 ==> all.thrown == UntilEmpty(issues, page - 1, LastMonthPages).thrown
      invariant page != 100 ==> issuesLastMonth == CountIssues(seen)
      invariant page != 100 ==> forall i :: 0 <= i < |seen| ==> !EndsRun(seen[i], oneMonthAgo)
      invariant page == 100 ==> FirstStop(all.items, oneMonthAgo) < |all.items|
      invariant page == 100 ==> issuesLastMonth == IssuesSince(all.items, oneMonthAgo)
      decreases 100 - page
    {
      var reply := Request(issues, page - 1);
      UntilEmptyStep(issues, page - 1, LastMonthPages);
      if reply.Thrown? {
        assert all.items == seen + [];
        RunHasNoEnd(seen, oneMonthAgo);
        return None;
      }
      var data := reply.items;
      if |data| == 0 {
        assert all.items == seen + [];
        break;
      }
      ghost var rest := UntilEmpty(issues, page, LastMonthPages).items;
      assert all.items == seen + (data + rest);
      var added, older := ScanIssues(data, oneMonthAgo);
      issuesLastMonth := issuesLastMonth + added;
      if older {
        RunEndsOnPage(seen, data, rest, oneMonthAgo);
        page := 99;
      } else {
        RunGoesOn(seen, data, rest, oneMonthAgo);
        seen := seen + data;
      }
      page := page + 1;
    }
    if page != 100 {
      assert all.items == seen + [];
      RunHasNoEnd(seen, oneMonthAgo);
    }
    r := Some(issuesLastMonth);
  }

  /** The last-month issue count reads at most nine pages of 100, so it is at most 900. */
  lemma IssuesLastMonthBounded(issues: Listing<Issue>, oneMonthAgo: int)
    ensures var r := IssuesLastMonthOf(issues, oneMonthAgo);
            r.Some? ==> r.value <= PerPage * LastMonthPages
  {
    UntilEmptyBounds(issues, 0, LastMonthPages);
  }
}
