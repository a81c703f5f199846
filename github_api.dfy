/**
 * The GitHub REST API entities that more than one collector reads: stargazers
 * with their timestamps, contributor list items, and the reply to a
 * `per_page: 1` request whose `Link` header carries the item count.
 */
module GitHubApi {
  import opened Common

  /** A stargazer as listed with the `star+json` media type; `starredAt` is a timestamp. */
  datatype Star = Star(starredAt: Option<int>)

  /** A list item of `repos.listContributors`. */
  datatype ContributorItem = ContributorItem(
    login: Option<string>,
    avatarUrl: Option<string>,
    htmlUrl: Option<string>,
    contributions: Option<nat>)

  /** The reply to a `per_page: 1` request: its `Link` header and the length of its page, or a thrown error. */
  datatype CountReply = Answered(link: Option<string>, pageLength: nat) | Failed

  /**
   * A star counts for a window when it has a timestamp not earlier than the
   * threshold. A missing `starred_at` is skipped (`if (star.starred_at)`) or
   * becomes an invalid date, which every comparison rejects: it counts nowhere.
   */
  predicate StarredSince(s: Star, threshold: int) {
    s.starredAt.Some? && s.starredAt.value >= threshold
  }

  function CountSince(stars: seq<Star>, threshold: int): (n: nat)
    ensures n <= |stars|
  {
    if stars == [] then 0
    else (if StarredSince(stars[0], threshold) then 1 else 0) + CountSince(stars[1..], threshold)
  }

  /** Appending one star adds one exactly when that star is in the window. */
  lemma CountSinceSnoc(stars: seq<Star>, star: Star, threshold: int)
    ensures CountSince(stars + [star], threshold) ==
            CountSince(stars, threshold) + (if StarredSince(star, threshold) then 1 else 0)
  {
    CountSinceConcat(stars, [star], threshold);
  }

  lemma {:induction false} CountSinceConcat(a: seq<Star>, b: seq<Star>, threshold: int)
    ensures CountSince(a + b, threshold) == CountSince(a, threshold) + CountSince(b, threshold)
    decreases |a|
  {
    if a == [] {
      assert a + b == b;
    } else {
      assert (a + b)[1..] == a[1..] + b;
      CountSinceConcat(a[1..], b, threshold);
    }
  }

  /** A later threshold counts no more stars: every star since `later` is also a star since `earlier`. */
  lemma {:induction false} CountSinceAntitone(stars: seq<Star>, earlier: int, later: int)
    requires earlier <= later
    ensures CountSince(stars, later) <= CountSince(stars, earlier)
    decreases |stars|
  {
    if stars != [] {
      CountSinceAntitone(stars[1..], earlier, later);
    }
  }

  /** A star without a timestamp changes no window count. */
  lemma {:induction false} CountSinceSkipsUnstamped(stars: seq<Star>, threshold: int)
    requires forall i :: 0 <= i < |stars| ==> stars[i].starredAt.None?
    ensures CountSince(stars, threshold) == 0
    decreases |stars|
  {
    if stars != [] {
      CountSinceSkipsUnstamped(stars[1..], threshold);
    }
  }

  /** The fields of `repos.get` that the collectors read; the counts are optional as in the API typing. */
  datatype RepoInfo = RepoInfo(
    name: string,
    fullName: string,
    stargazersCount: Option<nat>,
    forksCount: Option<nat>,
    openIssuesCount: Option<nat>,
    description: Option<string>,
    htmlUrl: string,
    language: Option<string>,
    updatedAt: Option<string>)

  /** One entry of `repositories` in `github.json` (`GitHubRepository` of `types.ts`). */
  datatype Repository = Repository(
    name: string,
    fullName: string,
    stargazersCount: nat,
    starsLastMonth: nat,
    starsLastYear: nat,
    forksCount: nat,
    openIssuesCount: nat,
    description: Option<string>,
    htmlUrl: string,
    language: Option<string>,
    updatedAt: string,
    contributorsCount: nat,
    pullRequestsOpen: nat,
    pullRequestsClosed: nat,
    pullRequestsLastMonth: nat,
    issuesOpen: nat,
    issuesClosed: nat,
    issuesLastMonth: nat)

  /** `github.json` (`GitHubData` of `types.ts`). */
  datatype GitHubData = GitHubData(
    organization: string,
    totalRepositories: nat,
    totalStars: int,
    totalStarsLastMonth: int,
    totalStarsLastYear: int,
    uniqueContributors: nat,
    organizationMembers: nat,
    totalPullRequestsOpen: int,
    totalPullRequestsClosed: int,
    totalIssuesOpen: int,
    totalIssuesClosed: int,
    timestamp: string,
    repositories: seq<Repository>)

  /** The organisation every collector queries. */
  const Organization := "scverse"

  // The fields summed into the totals and the sort key, as functions for `Sum` and `SortDesc`.
  function StarsOf(r: Repository): int { r.stargazersCount }
  function StarsLastMonthOf(r: Repository): int { r.starsLastMonth }
  function StarsLastYearOf(r: Repository): int { r.starsLastYear }
  function PullRequestsOpenOf(r: Repository): int { r.pullRequestsOpen }
  function PullRequestsClosedOf(r: Repository): int { r.pullRequestsClosed }
  function IssuesOpenOf(r: Repository): int { r.issuesOpen }
  function IssuesClosedOf(r: Repository): int { r.issuesClosed }
}
