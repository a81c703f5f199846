/**
 * `combiner.ts`: the summary `stats.json` built from the files the collectors
 * wrote. A file that is missing or is not JSON loads as `null` (`loadJson`),
 * which is `None` here; the run's clock reading is a parameter.
 */
module Combiner {
  import opened Common
  import opened GitHubApi
  import PepyCollector

  /** The one field the combiner reads from each of the files no collector of this model writes. */
  datatype BlueskyData = BlueskyData(followersCount: int)
  datatype ZulipData = ZulipData(activeUsers: int)
  datatype EcosystemData = EcosystemData(totalPackages: int)
  datatype CitationsData = CitationsData(totalCitationCount: int)

  /**
   * What the combiner reads from `pepy.json`: `total_downloads`, and
   * `computed.combined_avg_daily` when `computed` is there and that field is a
   * number (`None` otherwise).
   */
  datatype PepyData = PepyData(totalDownloads: int, combinedAvgDaily: Option<real>)

  /** The `github` sub-record: the ten totals of `github.json`. */
  datatype GitHubTotals = GitHubTotals(
    totalRepositories: int,
    totalStars: int,
    totalStarsLastMonth: int,
    totalStarsLastYear: int,
    uniqueContributors: int,
    organizationMembers: int,
    totalPullRequestsOpen: int,
    totalPullRequestsClosed: int,
    totalIssuesOpen: int,
    totalIssuesClosed: int)

  /** `stats.json` (`CombinedStats` of `types.ts`); `None` is a field that is not written. */
  datatype CombinedStats = CombinedStats(
    timestamp: string,
    blueskyFollowers: Option<int>,
    zulipUsers: Option<int>,
    github: Option<GitHubTotals>,
    ecosystemPackages: Option<int>,
    citationCount: Option<int>,
    pepyDownloads: Option<int>,
    pepyAvgDaily30: Option<int>)

  /** `Math.round`: the nearest integer, halves rounded up. */
  function Round(x: real): (n: int)
    ensures x - 0.5 < n as real <= x + 0.5
  {
    (x + 0.5).Floor
  }

  /** A whole number rounds to itself. */
  lemma RoundWhole(n: int)
    ensures Round(n as real) == n
  {
  }

  function TotalsOf(g: GitHubData): GitHubTotals {
    GitHubTotals(
      g.totalRepositories, g.totalStars, g.totalStarsLastMonth, g.totalStarsLastYear,
      g.uniqueContributors, g.organizationMembers,
      g.totalPullRequestsOpen, g.totalPullRequestsClosed, g.totalIssuesOpen, g.totalIssuesClosed)
  }

  /** The `pepy_avg_daily_30` guarded by `pepyData.computed && typeof … === "number"`. */
  function PepyAverage(pepy: PepyData): Option<int> {
    if pepy.combinedAvgDaily.Some? then Some(Round(pepy.combinedAvgDaily.value)) else None
  }

  /** `combineStats`: one guarded assignment per loaded file. */
  function Combine(
    now: string,
    github: Option<GitHubData>,
    zulip: Option<ZulipData>,
    bluesky: Option<BlueskyData>,
    ecosystem: Option<EcosystemData>,
    citations: Option<CitationsData>,
    pepy: Option<PepyData>): (c: CombinedStats)
    ensures c.timestamp == now
    ensures c.github.Some? <==> github.Some?
    ensures c.pepyAvgDaily30.Some? ==> c.pepyDownloads.Some?
  {
    CombinedStats(
      now,
      if bluesky.Some? then Some(bluesky.value.followersCount) else None,
      if zulip.Some? then Some(zulip.value.activeUsers) else None,
      if github.Some? then Some(TotalsOf(github.value)) else None,
      if ecosystem.Some? then Some(ecosystem.value.totalPackages) else None,
      if citations.Some? then Some(citations.value.totalCitationCount) else None,
      if pepy.Some? then Some(pepy.value.totalDownloads) else None,
      if pepy.Some? then PepyAverage(pepy.value) else None)
  }

  /**
   * The timestamp is always written; every other field is written exactly
   * when its file loaded and then equals the field it is copied from.
   */
  lemma CombinePresence(
    now: string,
    github: Option<GitHubData>,
    zulip: Option<ZulipData>,
    bluesky: Option<BlueskyData>,
    ecosystem: Option<EcosystemData>,
    citations: Option<CitationsData>,
    pepy: Option<PepyData>)
    ensures var c := Combine(now, github, zulip, bluesky, ecosystem, citations, pepy);
      && c.timestamp == now
      && (c.blueskyFollowers.Some? <==> bluesky.Some?)
      && (bluesky.Some? ==> c.blueskyFollowers.value == bluesky.value.followersCount)
      && (c.zulipUsers.Some? <==> zulip.Some?)
      && (zulip.Some? ==> c.zulipUsers.value == zulip.value.activeUsers)
      && (c.github.Some? <==> github.Some?)
      && (c.ecosystemPackages.Some? <==> ecosystem.Some?)
      && (ecosystem.Some? ==> c.ecosystemPackages.value == ecosystem.value.totalPackages)
      && (c.citationCount.Some? <==> citations.Some?)
      && (citations.Some? ==> c.citationCount.value == citations.value.totalCitationCount)
      && (c.pepyDownloads.Some? <==> pepy.Some?)
      && (pepy.Some? ==> c.pepyDownloads.value == pepy.value.totalDownloads)
  {
  }

  /** The `github` sub-record holds the ten totals of `github.json` unchanged and nothing else. */
  lemma GitHubTotalsCopied(g: GitHubData, now: string, zulip: Option<ZulipData>, bluesky: Option<BlueskyData>,
                           ecosystem: Option<EcosystemData>, citations: Option<CitationsData>, pepy: Option<PepyData>)
    ensures var t := Combine(now, Some(g), zulip, bluesky, ecosystem, citations, pepy).github.value;
      && t.totalRepositories == g.totalRepositories
      && t.totalStars == g.totalStars
      && t.totalStarsLastMonth == g.totalStarsLastMonth
      && t.totalStarsLastYear == g.totalStarsLastYear
      && t.uniqueContributors == g.uniqueContributors
      && t.organizationMembers == g.organizationMembers
      && t.totalPullRequestsOpen == g.totalPullRequestsOpen
      && t.totalPullRequestsClosed == g.totalPullRequestsClosed
      && t.totalIssuesOpen == g.totalIssuesOpen
      && t.totalIssuesClosed == g.totalIssuesClosed
  {
  }

  /** Two `github.json` files with the same totals give the same summary: the repositories are dropped. */
  lemma GitHubRepositoriesDropped(g: GitHubData, h: GitHubData, now: string, zulip: Option<ZulipData>,
                                  bluesky: Option<BlueskyData>, ecosystem: Option<EcosystemData>,
                                  citations: Option<CitationsData>, pepy: Option<PepyData>)
    requires TotalsOf(g) == TotalsOf(h)
    ensures Combine(now, Some(g), zulip, bluesky, ecosystem, citations, pepy)
         == Combine(now, Some(h), zulip, bluesky, ecosystem, citations, pepy)
  {
  }

  /** `pepy_avg_daily_30` is written exactly when the pepy file has a numeric average, and is that average rounded. */
  lemma PepyAveragePresence(now: string, github: Option<GitHubData>, zulip: Option<ZulipData>,
                            bluesky: Option<BlueskyData>, ecosystem: Option<EcosystemData>,
                            citations: Option<CitationsData>, pepy: Option<PepyData>)
    ensures var c := Combine(now, github, zulip, bluesky, ecosystem, citations, pepy);
      && (c.pepyAvgDaily30.Some? <==> pepy.Some? && pepy.value.combinedAvgDaily.Some?)
      && (c.pepyAvgDaily30.Some? ==>
            var avg := pepy.value.combinedAvgDaily.value;
            avg - 0.5 < c.pepyAvgDaily30.value as real <= avg + 0.5)
  {
  }

  /** How the combiner sees a `pepy.json` written by the pepy collector of this model. */
  function Loaded(f: PepyCollector.PepyFile): PepyData {
    PepyData(f.totalDownloads, Some(f.computed.combinedAvgDaily))
  }

  /** A pepy file the collector wrote always yields both pepy fields of the summary. */
  lemma CollectedPepyGivesBothFields(apiKey: Option<string>, qs: seq<PepyCollector.PepyQuery>, todayMs: int,
                                     stamp: string, now: string)
    requires PepyCollector.PepyOf(apiKey, qs, todayMs, stamp).Some?
    ensures var f := PepyCollector.PepyOf(apiKey, qs, todayMs, stamp).value;
            var c := Combine(now, None, None, None, None, None, Some(Loaded(f)));
      && c.pepyDownloads == Some(f.totalDownloads)
      && c.pepyAvgDaily30 == Some(Round(f.computed.combinedAvgDaily))
  {
  }
}
