# scverse-stats, modelled in Dafny

scverse-stats gathers statistics about the scverse organisation and its core
packages. It writes one JSON file per source, and a serverless edge Worker
serves those files to the scverse web sites. This project models:

- **`gitHubCollector.ts`**, which writes `github.json`:
  - per repository: stars in the last month and year, open, closed and
    last-month pull requests and issues, and the human contributors;
  - the organisation's member count;
  - the totals over all packages.
- **`gitHubStars.ts`**, which writes the star statistics:
  - the per-repository contributor count read from a `Link` header;
  - the star windows;
  - the sampled star history of a repository;
  - the organisation members and unique contributors, and the totals.
- **`contributorsCollector.ts`**, which writes `contributors.json`:
  - at most 49 pages of contributors per package;
  - bot accounts dropped;
  - merged by login, then sorted by contributions.
- **`pepyCollector.ts`**, which writes `pepy.json`:
  - PyPI download totals per package;
  - a 30-day window of daily downloads;
  - the handling of the replies 404, 401, 429 and other failures.
- **`combiner.ts`**, which builds the summary `stats.json` from the collected files.
- **`deploy/index.js`**, the Worker:
  - the allowed-origin check;
  - CORS preflight answers;
  - copying the CORS header fields onto asset responses.

The source reaches the network through several APIs:

- the GitHub REST API, through Octokit;
- the pepy.tech API;
- the Worker's asset server.

The model turns what these calls return into inputs:

- A paged listing is a `Listing` value: the pages the server would serve, and
  the status thrown by the first request past them, if any.
- A count query answered with a `Link` header is a `CountReply`.
- A pepy reply is a `PepyReply`.
- The asset response is a `Response`.

"Now", "one month ago" and "one year ago" are integer timestamps passed in as
parameters. Each loop of the source becomes a `method` with a `while` or `for`
loop. That method is proved equal to a function of its inputs, and the
properties the source promises are proved about that function.

Module layout:

- `common.dfy`: JavaScript truthiness and `||` defaults, and decimal digits.
- `paging.dfy`: the three ways the source walks pages:
  - stop at an empty or short page;
  - every page;
  - stop at an empty page.
- `sorting.dfy`: the descending sort and sums.
- `link_header.dfy`: the `page=(\d+)>; rel="last"` match.
- `github_api.dfy`: GitHub records and star counting.
- `repo_activity.dfy`: `getStarStats`, `getPRStats` and `getIssueStats`.
- `github_collector.dfy`: the rest of `gitHubCollector.ts`.
- `github_stars.dfy`: `gitHubStars.ts`.
- `contributors_collector.dfy`: `contributorsCollector.ts`.
- `pepy_collector.dfy`: `pepyCollector.ts`.
- `combiner.dfy`: `combiner.ts`.
- `edge_origin.dfy`: `deploy/index.js`.

## Model

| member | source | states |
|---|---|---|
| Common.DecimalRoundTrip | scverse-stats/collectors/gitHubCollector.ts:80-81 | `parseInt` of the decimal digits written for n gives back n |
| Paging.Request | scverse-stats/collectors/gitHubCollector.ts:27-33 | the i-th request is served the i-th page when there is one; a non-empty page is only ever served from the listing |
| Paging.UntilShortShape | scverse-stats/collectors/gitHubCollector.ts:26-48 | a walk that stops at an empty or short page makes at most `limit` requests and reads at most 100 items per request; every page before the last one is full; when it stops early without a throw, the last page read was short |
| Paging.ShortAdvance | scverse-stats/collectors/gitHubCollector.ts:35-46 | one response decides the next step: a throw ends the walk with it, an empty or short page ends it after that page, a full page goes on to the next |
| Paging.UntilEmptyBounds | scverse-stats/collectors/gitHubCollector.ts:91-116 | a walk that stops at an empty page makes at most `limit` requests, reads at most 100 items per request, and throws only the listing's own failure |
| Paging.EmptyAdvance | scverse-stats/collectors/gitHubCollector.ts:91-106 | one response decides the next step: a throw ends the walk, an empty page ends it, a non-empty page is taken and the walk goes on |
| Paging.AllPagesSeesEverything | scverse-stats/collectors/gitHubCollector.ts:26-48 | when every served page is full and nothing throws, the walk returns every item of every page, in page order |
| Sorting.Insert | scverse-stats/collectors/gitHubCollector.ts:348 | inserting into a descending sequence keeps it descending and adds exactly that element |
| Sorting.SortDesc | scverse-stats/collectors/gitHubCollector.ts:348 | `sort((a, b) => b.key - a.key)`: the result is non-increasing in the key and is a permutation of the input |
| Sorting.SumConcat | scverse-stats/collectors/gitHubCollector.ts:351-372 | a `reduce` sum over a concatenation is the sum of the sums of the two parts |
| Sorting.SortDescKeepsSum | scverse-stats/gitHubStars.ts:472-486 | sorting does not change a sum over the records, whichever field is summed |
| Sorting.SortDescSameElements | scverse-stats/collectors/gitHubCollector.ts:348 | the sorted sequence has exactly the elements of the input |
| LinkHeader.DigitRunEnd | scverse-stats/collectors/gitHubCollector.ts:80 | the greedy `\d+`: the run is all digits, and the character after it, if any, is not a digit |
| LinkHeader.LastPageFrom | scverse-stats/collectors/gitHubCollector.ts:80 | `link.match(/page=(\d+)>; rel="last"/)`: no value exactly when no position matches; otherwise the number captured at the leftmost match |
| LinkHeader.LastPageRoundTrip | scverse-stats/collectors/gitHubCollector.ts:80-81 | a header whose first match is `page=` n `>; rel="last"` yields n |
| GitHubApi.CountSince | scverse-stats/collectors/gitHubCollector.ts:37-43 | the number of stars in a window is at most the number of stars read |
| GitHubApi.CountSinceConcat | scverse-stats/collectors/gitHubCollector.ts:26-48 | counting page by page gives the same count as counting all stars at once |
| GitHubApi.CountSinceAntitone | scverse-stats/collectors/gitHubCollector.ts:37-43 | an earlier threshold counts at least as many stars as a later one |
| GitHubApi.CountSinceSkipsUnstamped | scverse-stats/collectors/gitHubCollector.ts:38 | a star without `starred_at` never counts |
| RepoActivity.GetStarStats | scverse-stats/collectors/gitHubCollector.ts:9-51 | both window counts over every page of stargazers, or no result when a request throws; the month count never exceeds the year count |
| RepoActivity.StarStatsShape | scverse-stats/collectors/gitHubCollector.ts:9-51 | the star statistics are missing exactly when some stargazer request throws; otherwise neither window counts more stars than were read |
| RepoActivity.TallyStars | scverse-stats/collectors/gitHubCollector.ts:37-43 | one page adds its in-window stars to both counters |
| RepoActivity.StarWindowsNested | scverse-stats/collectors/gitHubCollector.ts:9-51 | the last month's star count is at most the last year's |
| RepoActivity.LinkCount | scverse-stats/collectors/gitHubCollector.ts:78-88 | a `per_page: 1` count other than 1 is the last-page number of a present `Link` header; the count is 0 exactly when that header names page 0; whenever the header matches, the count is its page number |
| RepoActivity.LinkCountOfLastLink | scverse-stats/collectors/gitHubCollector.ts:78-88 | a `Link` header pointing to last page n gives the count n |
| RepoActivity.FirstOld | scverse-stats/collectors/gitHubCollector.ts:107-114 | the length of the leading run of pull requests created since the threshold; the one after it, if any, is older |
| RepoActivity.FirstOldIs | scverse-stats/collectors/gitHubCollector.ts:107-114 | any index with that property is that run length: the stop point is unique |
| RepoActivity.FirstOldSkip | scverse-stats/collectors/gitHubCollector.ts:91-116 | a page of recent pull requests only lengthens the run: the count goes on to the next page |
| RepoActivity.FirstOldStops | scverse-stats/collectors/gitHubCollector.ts:110-113 | once a page holds an old pull request, later pages do not change the count |
| RepoActivity.CountPrsLastMonth | scverse-stats/collectors/gitHubCollector.ts:91-116 | the last-month pull-request count: the run of recent pull requests over at most nine pages of 100; a throw before the run ends is no result |
| RepoActivity.PrsLastMonthRun | scverse-stats/collectors/gitHubCollector.ts:91-116 | the last-month pull-request count is missing only when a request throws; otherwise it is at most the pull requests read, the first that many were created since the threshold, and the next one read, if any, is older |
| RepoActivity.PrsLoopEnds | scverse-stats/collectors/gitHubCollector.ts:95-105 | a throw ends the loop without a count; an empty page ends it with the count so far |
| RepoActivity.PrsLoopPage | scverse-stats/collectors/gitHubCollector.ts:107-115 | a page whose run ends inside it adds the run's length and ends the loop (`page = 99`, then `page++`); a page of recent pull requests adds all of them and goes on to the next page |
| RepoActivity.PrsLoopDone | scverse-stats/collectors/gitHubCollector.ts:94 | past the ninth page the loop ends with the count so far |
| RepoActivity.PrPageAdvance | scverse-stats/collectors/gitHubCollector.ts:107-114 | after a run of recent pull requests, a page that ends the run ends the overall run at the same place, and a page that does not keeps the run going |
| RepoActivity.ScanPrs | scverse-stats/collectors/gitHubCollector.ts:107-114 | one page adds the length of its recent run, and reports an old pull request exactly when the run ends inside the page |
| RepoActivity.GetPRStats | scverse-stats/collectors/gitHubCollector.ts:53-123 | the open and closed counts from the `Link` headers and the last-month count, or no result when a request throws |
| RepoActivity.PrStatsOf | scverse-stats/collectors/gitHubCollector.ts:53-123 | the pull-request statistics are missing exactly when the open count, the closed count or the last-month count fails, and the last-month figure is that count |
| RepoActivity.PrsLastMonthBounded | scverse-stats/collectors/gitHubCollector.ts:94-116 | the last-month pull-request count is at most 900 |
| RepoActivity.CountIssues | scverse-stats/collectors/gitHubCollector.ts:152-156 | the issues of a page that are not pull requests, at most the page's length |
| RepoActivity.CountIssuesConcat | scverse-stats/collectors/gitHubCollector.ts:139-161 | counting page by page equals counting everything read |
| RepoActivity.PullRequestsNotCounted | scverse-stats/collectors/gitHubCollector.ts:153 | entries carrying `pull_request` are never counted as issues |
| RepoActivity.FirstStop | scverse-stats/collectors/gitHubCollector.ts:202-213 | the first real issue older than the threshold ends the run; no entry before it does |
| RepoActivity.FirstStopIs | scverse-stats/collectors/gitHubCollector.ts:202-213 | that stop point is unique |
| RepoActivity.FirstStopSkip | scverse-stats/collectors/gitHubCollector.ts:189-216 | a page that does not end the run lets the scan go on to the next page |
| RepoActivity.FirstStopStops | scverse-stats/collectors/gitHubCollector.ts:209-212 | once a page ends the run, later pages do not change the count |
| RepoActivity.IssuesSince | scverse-stats/collectors/gitHubCollector.ts:202-213 | the issues a page adds before the run ends, at most the page's length |
| RepoActivity.TallyIssues | scverse-stats/collectors/gitHubCollector.ts:152-156 | one page adds its non-pull-request issues |
| RepoActivity.CountIssuePages | scverse-stats/collectors/gitHubCollector.ts:139-161 | the open (or closed) issue count is the count over every page, or no result when a request throws |
| RepoActivity.IssueCountOf | scverse-stats/collectors/gitHubCollector.ts:139-161 | an issue count is missing exactly when some request throws, and is otherwise at most the entries read |
| RepoActivity.ScanIssues | scverse-stats/collectors/gitHubCollector.ts:202-213 | one page adds its issues before the run ends, and reports the end exactly when it falls inside the page |
| RepoActivity.RunEndsOnPage | scverse-stats/collectors/gitHubCollector.ts:209-212 | when the run ends on a page, the count is everything before it plus that page's part |
| RepoActivity.RunGoesOn | scverse-stats/collectors/gitHubCollector.ts:189-216 | a page that does not end the run adds all its issues and leaves the run open |
| RepoActivity.CountIssuesLastMonth | scverse-stats/collectors/gitHubCollector.ts:187-216 | the last-month issue count: the issues before the first old one over at most nine pages; a throw before the run ends is no result |
| RepoActivity.IssuesLastMonthOf | scverse-stats/collectors/gitHubCollector.ts:187-216 | the last-month issue count is missing only when a request throws, and never goes past the first old issue among the entries read |
| RepoActivity.GetIssueStats | scverse-stats/collectors/gitHubCollector.ts:125-223 | the open, closed and last-month issue counts, or no result when a request throws |
| RepoActivity.IssueStatsOf | scverse-stats/collectors/gitHubCollector.ts:125-223 | the issue statistics are missing exactly when one of their three counts is, and the last-month figure is that count |
| RepoActivity.IssuesLastMonthBounded | scverse-stats/collectors/gitHubCollector.ts:189-216 | the last-month issue count is at most 900 |
| GitHubCollector.LoginsOfConcat | scverse-stats/collectors/gitHubCollector.ts:236-257 | collecting logins page by page equals collecting them from all items at once |
| GitHubCollector.LoginsOfMembers | scverse-stats/collectors/gitHubCollector.ts:246-252 | a login is collected if and only if some item carries it, non-empty, and it ends neither in `[bot]` nor in `-bot` |
| GitHubCollector.AddPageLogins | scverse-stats/collectors/gitHubCollector.ts:246-252 | one page adds its human logins to both the organisation set and the repository set |
| GitHubCollector.LoginsAdded | scverse-stats/collectors/gitHubCollector.ts:236-257 | adding a page's logins to a running set equals collecting over the pages read so far |
| GitHubCollector.ListRepoContributors | scverse-stats/collectors/gitHubCollector.ts:233-257 | for one repository: reports a throw exactly when a request throws; otherwise the repository set is the human logins of every page, and the organisation set has gained them |
| GitHubCollector.CollectContributors | scverse-stats/collectors/gitHubCollector.ts:225-263 | the set of all human contributors and the per-repository counts, or no result when a request throws |
| GitHubCollector.CollectStep | scverse-stats/collectors/gitHubCollector.ts:232-260 | one more repository adds its human logins to the overall set and its own count to the map; a repository whose listing did not throw keeps the run going |
| GitHubCollector.RepoLoginsInUnion | scverse-stats/collectors/gitHubCollector.ts:249-250 | each repository's contributors are among the organisation's contributors |
| GitHubCollector.CountsOfNames | scverse-stats/collectors/gitHubCollector.ts:259 | the count map has a key for exactly the repository names, and each count is the size of one listed repository's contributor set |
| GitHubCollector.RepoCountsBounded | scverse-stats/collectors/gitHubCollector.ts:259 | no repository counts more contributors than the organisation |
| GitHubCollector.NoBotsCollected | scverse-stats/collectors/gitHubCollector.ts:248 | a collected login is non-empty and ends neither in `[bot]` nor in `-bot` |
| GitHubCollector.OrgMemberCount | scverse-stats/collectors/gitHubCollector.ts:265-277 | the member count from the `Link` header, and exactly the header's `LinkCount` whenever the request is answered; 1 without a header; 0 when the request fails (the `.catch` at line 339) |
| GitHubCollector.Records | scverse-stats/collectors/gitHubCollector.ts:289-335 | a successful collection has exactly one record per package |
| GitHubCollector.RecordsStep | scverse-stats/collectors/gitHubCollector.ts:289-335 | the records are built package by package, in order |
| GitHubCollector.RecordsFailFrom | scverse-stats/collectors/gitHubCollector.ts:290-293 | a failing `repos.get` makes the whole collection fail |
| GitHubCollector.RecordsWhenAllFetched | scverse-stats/collectors/gitHubCollector.ts:289-335 | when every `repos.get` succeeds, the records exist |
| GitHubCollector.RecordsExactly | scverse-stats/collectors/gitHubCollector.ts:312-331 | record i is built from package i's repository and its statistics |
| GitHubCollector.FailedStatisticsGiveZeros | scverse-stats/collectors/gitHubCollector.ts:295-310 | a failed star, pull-request or issue query gives zeros for exactly its own figures |
| GitHubCollector.QueriesOf | scverse-stats/collectors/gitHubCollector.ts:338 | the contributor queries are the fetched repositories' names, in order, each with its package's listing |
| GitHubCollector.WithCounts | scverse-stats/collectors/gitHubCollector.ts:343-346 | each record gets its repository's contributor count and is otherwise unchanged |
| GitHubCollector.UpdateContributorCounts | scverse-stats/collectors/gitHubCollector.ts:343-346 | the update loop gives each record its contributor count |
| GitHubCollector.FetchRecords | scverse-stats/collectors/gitHubCollector.ts:289-335 | the package loop builds the records, or fails on the first failing `repos.get` |
| GitHubCollector.FetchPackageRecord | scverse-stats/collectors/gitHubCollector.ts:295-331 | one package's record: its repository fields, with zero star, pull-request and issue figures in place of any statistics request that throws |
| GitHubCollector.RecordsAppend | scverse-stats/collectors/gitHubCollector.ts:289-334 | a package whose `repos.get` succeeds appends exactly its own record to the earlier ones |
| GitHubCollector.RecordsStop | scverse-stats/collectors/gitHubCollector.ts:289-294 | a package whose `repos.get` fails makes the whole record list fail |
| GitHubCollector.CollectGitHubStats | scverse-stats/collectors/gitHubCollector.ts:279-379 | the whole collection: the records, the contributors and member count, the count update, the sort and the totals |
| GitHubCollector.GitHubTotals | scverse-stats/collectors/gitHubCollector.ts:348-373 | the repositories are sorted by stars and are a permutation of the updated records; there is one per package; each total is the sum of its field over the records |
| GitHubCollector.ContributorCountsBounded | scverse-stats/collectors/gitHubCollector.ts:343-359 | no repository's contributor count exceeds the unique contributor total |
| GitHubStars.ContributorsCount | scverse-stats/gitHubStars.ts:272-303 | the contributor count is 0 exactly when the request fails, or there is no header and the page is empty, or the header's last page is 0; a header without a match gives 1 |
| GitHubStars.ContributorsCountOfLastLink | scverse-stats/gitHubStars.ts:284-291 | a header pointing to last page n gives n contributors |
| GitHubStars.MembersCount | scverse-stats/gitHubStars.ts:410-429 | without a header the member count is the page length; with a matching header it is that header's `LinkCount`; it is 0 exactly when the request fails, the page is empty without a header, or the header has no match or names page 0 |
| GitHubStars.MembersCountOfLastLink | scverse-stats/gitHubStars.ts:418-423 | a header pointing to last page n gives n members |
| GitHubStars.StarWindows | scverse-stats/gitHubStars.ts:307-366 | both star windows over the stargazer pages up to the first empty or short page; the stars are counted only after every page is read, so a throw leaves both windows at 0; the month count never exceeds the year count |
| GitHubStars.StarWindowsShape | scverse-stats/gitHubStars.ts:325-366 | a throw leaves both windows at 0, and neither window counts more stars than were read |
| GitHubStars.ListStargazers | scverse-stats/gitHubStars.ts:325-349 | the stargazer pages collected up to the first empty or short page, and whether a page request threw |
| GitHubStars.StarChartUrl | scverse-stats/gitHubStars.ts:379 | the chart URL is under `https://scverse-stats.complextissue.com/stars/` and ends in `.png` |
| GitHubStars.KeptOf | scverse-stats/gitHubStars.ts:261-402 | a failed package is skipped, so there are at most as many records as packages |
| GitHubStars.FetchedIndicesStep | scverse-stats/gitHubStars.ts:261-402 | each package adds one record when its repository was fetched and none otherwise |
| GitHubStars.KeptCount | scverse-stats/gitHubStars.ts:397-402 | there is exactly one record per package whose repository was fetched |
| GitHubStars.KeptFrom | scverse-stats/gitHubStars.ts:368-397 | every record comes from a package whose repository was fetched |
| GitHubStars.RecordsOf | scverse-stats/gitHubStars.ts:397 | `allRepos` holds the kept records in order |
| GitHubStars.ListingsOf | scverse-stats/gitHubStars.ts:439-447 | the listings read again for unique contributors are the kept repositories' listings, in order |
| GitHubStars.TruthyLoginsConcat | scverse-stats/gitHubStars.ts:439-467 | collecting logins page by page equals collecting them all at once |
| GitHubStars.TruthyLoginsMembers | scverse-stats/gitHubStars.ts:451-455 | a login is collected if and only if some item carries it, non-empty; this loop has no bot filter |
| GitHubStars.AddTruthyLogins | scverse-stats/gitHubStars.ts:451-455 | one page adds its non-empty logins |
| GitHubStars.AddRepoLogins | scverse-stats/gitHubStars.ts:439-467 | one repository adds the non-empty logins of every page |
| GitHubStars.CollectUniqueContributors | scverse-stats/gitHubStars.ts:433-469 | the set of contributors is the non-empty logins of every repository with a positive contributor count |
| GitHubStars.UniqueContributorsFrom | scverse-stats/gitHubStars.ts:435-469 | every unique contributor is non-empty and comes from a kept repository with a positive `contributors_count` |
| GitHubStars.UniqueContributorsNonEmpty | scverse-stats/gitHubStars.ts:452 | the empty login is never a contributor |
| GitHubStars.KeptStep | scverse-stats/gitHubStars.ts:261-406 | the records are built package by package, in order |
| GitHubStars.KeptAppend | scverse-stats/gitHubStars.ts:397 | pushing a record extends both the records and the listings |
| GitHubStars.FetchPackage | scverse-stats/gitHubStars.ts:264-397 | one package's record: the repository fields, contributor count, star windows and chart URL |
| GitHubStars.FetchRepos | scverse-stats/gitHubStars.ts:258-406 | the package loop keeps a record for each fetched package, in order |
| GitHubStars.FetchScverseStats | scverse-stats/gitHubStars.ts:247-498 | the whole run: the records, the members, the unique contributors, the totals and the sort |
| GitHubStars.StatsOf | scverse-stats/gitHubStars.ts:471-498 | `total_repositories` is the number of repositories listed, at most the number of packages, and the repositories are sorted by stars |
| GitHubStars.StatsTotals | scverse-stats/gitHubStars.ts:471-498 | the repositories are sorted by stars and are a permutation of the kept records; there is one per fetched package; the star totals are sums over them |
| GitHubStars.WindowsNested | scverse-stats/gitHubStars.ts:352-361 | in every record, the last month's stars are at most the last year's |
| GitHubStars.RecordWindowsNested | scverse-stats/gitHubStars.ts:352-361 | for one repository, the last month's stars are at most the last year's |
| GitHubStars.StepsShape | scverse-stats/gitHubStars.ts:133-139 | the sample dates start at the creation date, increase strictly and stay at or before now; there are none when the creation date is after now |
| GitHubStars.IntervalsShape | scverse-stats/gitHubStars.ts:133-144 | there are dates exactly when the repository was created no later than now; the dates start at the creation date and end at now |
| GitHubStars.Intervals | scverse-stats/gitHubStars.ts:133-144 | the interval loop and the final `now` point build those dates |
| GitHubStars.FirstLater | scverse-stats/gitHubStars.ts:183-193 | the first timestamped star after the date ends the count; no star before it is later |
| GitHubStars.FirstLaterIs | scverse-stats/gitHubStars.ts:183-193 | that stop point is unique |
| GitHubStars.CountStamped | scverse-stats/gitHubStars.ts:184-185 | the timestamped stars are at most all the stars |
| GitHubStars.CountStampedConcat | scverse-stats/gitHubStars.ts:166-198 | counting timestamped stars page by page equals counting them all at once |
| GitHubStars.ApproximationBounded | scverse-stats/gitHubStars.ts:206-210 | the linear approximation never exceeds the current star count |
| GitHubStars.CurrentStarCount | scverse-stats/gitHubStars.ts:235-245 | the count is 0 exactly when the request fails or the repository reports no or zero stars; a positive count is the one the repository reports |
| GitHubStars.ScanStarsUpTo | scverse-stats/gitHubStars.ts:183-193 | one page adds its stars up to the date, and reports a later star exactly when one is met |
| GitHubStars.FirstLaterConcat | scverse-stats/gitHubStars.ts:166-198 | a page with no later star adds all its timestamped stars and lets the scan go on |
| GitHubStars.FirstLaterKeepsPrefix | scverse-stats/gitHubStars.ts:186-192 | once a later star is met, later pages do not change the count |
| GitHubStars.StarsAt | scverse-stats/gitHubStars.ts:161-215 | the stars at one sample date, with the approximation on a `422` and the partial count on any other error |
| GitHubStars.StarsAtLater | scverse-stats/gitHubStars.ts:183-193 | when the run ends on a page, the count is the stamped stars before it plus that page's part |
| GitHubStars.GetStarHistory | scverse-stats/gitHubStars.ts:123-233 | no history when the creation date is after now; otherwise one point per sample date, with the creation date first at 0 stars, `now` last, and every other point the stars at its date |
| GitHubStars.StarsUpToMonotone | scverse-stats/gitHubStars.ts:183-193 | a later date counts at least as many stars |
| GitHubStars.StarsAtMonotone | scverse-stats/gitHubStars.ts:161-219 | when nothing throws, the history never decreases from one date to a later one |
| GitHubStars.StarsAtApproximationBounded | scverse-stats/gitHubStars.ts:200-211 | the stars at a date, when approximated, never exceed the current star count |
| GitHubStars.StarsAtCounted | scverse-stats/gitHubStars.ts:161-219 | without a `422`, the stars at a date are at most the timestamped stars read |
| ContributorsCollector.Fresh | scverse-stats/collectors/contributorsCollector.ts:64-81 | a new entry keeps the login, and always has a non-empty name and profile URL |
| ContributorsCollector.MergeConcat | scverse-stats/collectors/contributorsCollector.ts:33-92 | merging package by package equals merging all items at once |
| ContributorsCollector.StepValid | scverse-stats/collectors/contributorsCollector.ts:52-83 | one item keeps the table well formed |
| ContributorsCollector.StepShape | scverse-stats/collectors/contributorsCollector.ts:52-83 | one item only extends the insertion order, by at most one login; the table gains exactly the item's login when it is accepted; every other entry is unchanged |
| ContributorsCollector.MergeValid | scverse-stats/collectors/contributorsCollector.ts:52-83 | merging keeps the table well formed: each login occurs once in the order, the order holds exactly the table's logins, and each entry is filed under its own login |
| ContributorsCollector.MergeShape | scverse-stats/collectors/contributorsCollector.ts:46-84 | merging only extends the insertion order, by at most one login per item, and keeps every login the table had |
| ContributorsCollector.MergeKeys | scverse-stats/collectors/contributorsCollector.ts:46-83 | after merging, the table holds the logins it had and exactly the accepted logins of the items |
| ContributorsCollector.MergeContributions | scverse-stats/collectors/contributorsCollector.ts:52-70 | a login's contributions are what it had plus its contributions in every accepted item |
| ContributorsCollector.ContributionsForAbsent | scverse-stats/collectors/contributorsCollector.ts:46-56 | a login with no accepted item contributes nothing |
| ContributorsCollector.MergeFirstSeen | scverse-stats/collectors/contributorsCollector.ts:52-82 | apart from contributions, an entry is the one created from the FIRST accepted item that carries its login, or the one already in the table: later items only add contributions |
| ContributorsCollector.ValuesOf | scverse-stats/collectors/contributorsCollector.ts:95 | `Array.from(map.values())`: the entries in insertion order |
| ContributorsCollector.ValuesFresh | scverse-stats/collectors/contributorsCollector.ts:57-82 | adding a new login leaves the values of the earlier logins as they were |
| ContributorsCollector.SumUpdate | scverse-stats/collectors/contributorsCollector.ts:54-56 | changing one entry changes the sum by the change in that entry |
| ContributorsCollector.StepSum | scverse-stats/collectors/contributorsCollector.ts:52-83 | one item adds its contributions to the table's sum, or nothing when it is not accepted |
| ContributorsCollector.MergeSum | scverse-stats/collectors/contributorsCollector.ts:52-83 | the table's sum grows by exactly the accepted items' contributions |
| ContributorsCollector.MergePage | scverse-stats/collectors/contributorsCollector.ts:46-84 | one page merged into the map |
| ContributorsCollector.MergePackage | scverse-stats/collectors/contributorsCollector.ts:34-89 | one package: at most 49 pages up to an empty or short one, merged, or a throw |
| ContributorsCollector.CollectContributorsData | scverse-stats/collectors/contributorsCollector.ts:25-106 | the whole run: every package merged, then sorted by contributions; a throw gives no file |
| ContributorsCollector.ContributorsFileOf | scverse-stats/collectors/contributorsCollector.ts:25-106 | a file is written exactly when no package listing throws; `total_contributors` is then the list's length, the list is sorted by contributions, and the file carries the run's timestamp |
| ContributorsCollector.ReadPackagesStops | scverse-stats/collectors/contributorsCollector.ts:37-42 | a throw in one package ends the whole run without a file |
| ContributorsCollector.ContributorsFileCount | scverse-stats/collectors/contributorsCollector.ts:95-99 | `total_contributors` is the length of the list and the number of distinct accepted logins |
| ContributorsCollector.ContributorsFileLogins | scverse-stats/collectors/contributorsCollector.ts:95-100 | the list is sorted by contributions, has no repeated login, and holds exactly the accepted logins |
| ContributorsCollector.ContributorsFileSum | scverse-stats/collectors/contributorsCollector.ts:52-100 | the listed contributions add up to the accepted items' contributions |
| ContributorsCollector.DistinctLogins | scverse-stats/collectors/contributorsCollector.ts:95-96 | sorting the values keeps each login once and loses none |
| ContributorsCollector.SortedAreEntries | scverse-stats/collectors/contributorsCollector.ts:95-96 | every sorted entry is the table's entry for its login |
| ContributorsCollector.EntryFallbacks | scverse-stats/collectors/contributorsCollector.ts:64-81 | an entry's name is the looked-up name or the login, and its contributions are that login's total; its avatar URL is the first accepted item's `avatar_url` or `""`, and its profile URL is that item's `html_url` or `https://github.com/` followed by the login |
| ContributorsCollector.PagesBounded | scverse-stats/collectors/contributorsCollector.ts:36 | at most 49 requests per package |
| ContributorsCollector.ContributorsFileOfAsWritten | scverse-stats/collectors/contributorsCollector.ts:9-21 | the final schema parse: when it passes, the file is the corrected one; it rejects exactly the files listing an empty avatar URL |
| ContributorsCollector.MissingAvatarExample | scverse-stats/collectors/contributorsCollector.ts:67 | one contributor without `avatar_url` makes the run as written fail, where the corrected run writes that contributor |
| PepyCollector.ToLower | scverse-stats/collectors/pepyCollector.ts:11 | `toLowerCase`: the result has the input's length and no upper-case letter; each upper-case letter becomes the letter at the same place in the lower-case alphabet, and every other character is kept |
| PepyCollector.ReplaceUnderscores | scverse-stats/collectors/pepyCollector.ts:11 | `replace(/_/g, "-")`: the result has the input's length and no `_`; each character is kept, or is an `_` turned into `-` |
| PepyCollector.NormalizeNameClean | scverse-stats/collectors/pepyCollector.ts:10-12 | a normalised name has its input's length, no `_` and no upper-case letter, and every other character is kept |
| PepyCollector.NormalizeNameIdempotent | scverse-stats/collectors/pepyCollector.ts:10-12 | normalising twice is normalising once |
| PepyCollector.Window | scverse-stats/collectors/pepyCollector.ts:87-103 | the 30-day loop never counts more than 30 days, or more days than there are dates |
| PepyCollector.WindowUncapped | scverse-stats/collectors/pepyCollector.ts:87-103 | while the cap is not reached, the loop counts every date in the window and nothing else |
| PepyCollector.InWindowRange | scverse-stats/collectors/pepyCollector.ts:89-94 | a date is in the window exactly when it is today or one of the 29 days before |
| PepyCollector.DescendingInRange | scverse-stats/collectors/pepyCollector.ts:82-103 | strictly descending dates in the window are at most as many as the days in the range they fall in |
| PepyCollector.CapNeverBinds | scverse-stats/collectors/pepyCollector.ts:82-103 | with distinct dates, sorted descending, the cap of 30 never cuts the count short |
| PepyCollector.SortedDistinct | scverse-stats/collectors/pepyCollector.ts:82 | distinct dates sorted descending are strictly descending |
| PepyCollector.Last30Days | scverse-stats/collectors/pepyCollector.ts:81-103 | the loop's total and day count are the window's |
| PepyCollector.HandleBody | scverse-stats/collectors/pepyCollector.ts:70-124 | the entry and window kept for a successful reply |
| PepyCollector.Handle | scverse-stats/collectors/pepyCollector.ts:48-124 | a reply gives 30-day figures exactly when it is a 2xx other than 404 whose body passes the package schema, and they are its own entry's figures; an entry without figures is filed under the project name; a failed status or fetch gives the zero entry |
| PepyCollector.CollectPepyStats | scverse-stats/collectors/pepyCollector.ts:14-163 | the whole run: no file without a key or after a 401, partial results after a 429, zero entries for other failures |
| PepyCollector.RunSettles | scverse-stats/collectors/pepyCollector.ts:56-61 | once a 401 or a 429 stops the loop, later packages change nothing |
| PepyCollector.Run | scverse-stats/collectors/pepyCollector.ts:39-137 | the package loop: while it goes on it has one entry per package so far; after a 429 it has fewer entries than packages; it never has more 30-day figures than entries |
| PepyCollector.FirstHalt | scverse-stats/collectors/pepyCollector.ts:56-61 | the index of the first 401 or 429 reply; no reply before it is one |
| PepyCollector.RunShape | scverse-stats/collectors/pepyCollector.ts:39-137 | the first 401 aborts the run; the first 429 stops it; up to that point, or over every package, entry i is the one from reply i, and the 30-day figures are those of the replies that have them, in reply order |
| PepyCollector.PepyWritten | scverse-stats/collectors/pepyCollector.ts:29-61 | `pepy.json` is written unless the API key is missing or empty, or a 401 comes before any 429 |
| PepyCollector.PepyOf | scverse-stats/collectors/pepyCollector.ts:14-163 | a written file needs a non-empty key and carries the run's timestamp, at most one entry per package and at most one set of 30-day figures per entry |
| PepyCollector.FailuresGiveZeroEntries | scverse-stats/collectors/pepyCollector.ts:48-69 | a 404, another failed status or a fetch error gives a zero entry and no window |
| PepyCollector.TotalDownloads | scverse-stats/collectors/pepyCollector.ts:139 | `total_downloads` is the sum of the totals of the replies before the first halt |
| PepyCollector.EntriesTotal | scverse-stats/collectors/pepyCollector.ts:139 | the sum over entries equals the sum over their replies |
| PepyCollector.WindowFigures | scverse-stats/collectors/pepyCollector.ts:81-110 | a package's window has its id, the window's total and the total divided by the days counted |
| PepyCollector.AverageMean | scverse-stats/collectors/pepyCollector.ts:105 | the average times the days counted is the total, and it is 0 when no day is counted |
| PepyCollector.PepyOfAsWritten | scverse-stats/collectors/pepyCollector.ts:116-124 | the run as written: a fallback entry that the schema itself refuses (the body fails the package schema and so does its fallback), from a reply before the first halt, makes the final parse fail; otherwise it is the corrected run |
| PepyCollector.FallbackRejectedExample | scverse-stats/collectors/pepyCollector.ts:150-154 | one reply with a string `total_downloads` loses the whole file as written, where the corrected run writes it |
| Combiner.Round | scverse-stats/combiner.ts:54-56 | `Math.round`: the result is within one half of the input |
| Combiner.RoundWhole | scverse-stats/combiner.ts:54-56 | a whole number rounds to itself |
| Combiner.CombinePresence | scverse-stats/combiner.ts:13-58 | the timestamp is always written; every other field is written exactly when its file loaded, and is then the field it is copied from |
| Combiner.Combine | scverse-stats/combiner.ts:13-58 | the summary always carries the timestamp, has a `github` part exactly when `github.json` loaded, and has a 30-day average only together with the download total |
| Combiner.GitHubTotalsCopied | scverse-stats/combiner.ts:25-38 | the `github` sub-record holds the ten totals of `github.json` unchanged |
| Combiner.GitHubRepositoriesDropped | scverse-stats/combiner.ts:25-38 | the summary depends on `github.json` only through its totals |
| Combiner.PepyAveragePresence | scverse-stats/combiner.ts:48-58 | the 30-day average is written exactly when the pepy file has a numeric average, and is then that average rounded |
| Combiner.CollectedPepyGivesBothFields | scverse-stats/combiner.ts:48-58 | a `pepy.json` the collector wrote always yields both pepy fields of the summary |
| EdgeOrigin.MatchesLocalhostIff | deploy/index.js:6 | `/^https?:\/\/localhost:\d+$/` matches exactly `http://localhost:` or `https://localhost:` followed by one or more digits |
| EdgeOrigin.LocalhostPortsMatch | deploy/index.js:6 | every port number gives a matching local origin |
| EdgeOrigin.FirstMatch | deploy/index.js:15-25 | the loop's `break`: the first pattern that matches, and none before it matches |
| EdgeOrigin.AllowedOrigin | deploy/index.js:5-26 | an origin is allowed if and only if it is one of the two scverse origins or a local origin, and the header value then echoes it |
| EdgeOrigin.NoOriginNotAllowed | deploy/index.js:14 | a missing or empty `Origin` is never allowed |
| EdgeOrigin.MatchOrigin | deploy/index.js:11-26 | the matching loop sets the flag exactly when it finds an origin, and that origin is the allowed one |
| EdgeOrigin.WithCorsFields | deploy/index.js:61-70 | the CORS fields are set, with the request's origin and the two policy values, and every other header is kept |
| EdgeOrigin.AddCorsHeaders | deploy/index.js:62-70 | the header-copy loop gives those headers |
| EdgeOrigin.Fetch | deploy/index.js:2-79 | the handler answers as the response function describes |
| EdgeOrigin.AllowOriginIsRequestOrigin | deploy/index.js:36-76 | whenever `Access-Control-Allow-Origin` is written, it is an allowed request origin and never `*` |
| EdgeOrigin.PreflightAllowed | deploy/index.js:37-44 | a preflight from an allowed origin gets 204 with no body and exactly the three CORS fields |
| EdgeOrigin.PreflightRefused | deploy/index.js:45-55 | a preflight from another origin gets 403 with no headers; without an origin it gets 204 with `Allow: GET, OPTIONS` |
| EdgeOrigin.OrdinaryRequests | deploy/index.js:58-78 | other methods keep the asset's status and body; the headers gain the CORS fields only for an allowed origin, and the response is untouched otherwise |

## Left out

- File output and input are not modelled:
  - `saveJson`, and the `loadJson` reads of `utils.ts`;
  - the package list read from the configuration file, which is an input sequence here.
- A file that is missing or is not JSON loads as `null`. The combiner models that as `None`.
- Console output and the rate-limit `setTimeout` delays do not change any result and are left out.
- `Promise.all` over the contributor listing and the member count is modelled as sequential evaluation. No concurrency is modelled.
- Dates are integers. The model does not do calendar arithmetic:
  - `oneMonthAgo`, `oneYearAgo` and "now" are parameters;
  - the three-month step of the star history is a parameter `next`, required to move forward;
  - `toISOString` formatting is not modelled;
  - pepy's date keys are day numbers, so an unparsable date key is not modelled.
- Floating-point numbers are `real`. No rounding of JavaScript doubles is modelled.
- zod schemas are represented as follows:
  - the pepy package check and the fallback check are two flags of the reply body, `schemaValid` and `fallbackValid`;
  - the final parses of `github.json`, `stats.json` and the star statistics are assumed to pass on what the code builds;
  - the only other `.url()` check modelled is the avatar URL of `contributors.json`.
- A pepy body whose `versions` is not an array and JSON parse failures are modelled as fetch errors.
- Letter case: `toLowerCase` is modelled for ASCII letters only. Header names are compared as exact strings, not case-insensitively.
- Default headers that the runtime adds to a `Response`, such as the content type of the 403, are not modelled.
- Star charts are left out: `generateStarChart` and the PNG files. The star history that only feeds the chart is modelled by `GetStarHistory`, but no record stores it.
- The Bluesky, Zulip, ecosystem and citations collectors are not part of this model. The combiner reads one field from each of their files, and only that field is modelled.
- `users.getByUsername` is modelled as a map from login to name. A missing key stands for a lookup that throws.
- `env.ASSETS.fetch` is a parameter of the Worker: the asset response.
- Sorting is modelled as an insertion sort on sequences, not as the engine's `Array.prototype.sort`. It keeps records with equal keys in input order, as the stable sort of ES2019 does. Its contracts state sortedness and permutation only, not that stability.
- EdgeOrigin.AllowOriginIsRequestOrigin: states nothing about a non-OPTIONS request from an origin that is not allowed. That response is the asset response forwarded unchanged (deploy/index.js:78), with whatever `Access-Control-Allow-Origin` the asset itself carries; `EdgeOrigin.OrdinaryRequests` states that it is untouched.
- `GitHubStars.StarsAt`: the 422 fallback's `getCurrentStarCount` result is an argument, not a second request.

## Findings

| source | as written | input that shows it | evidently intended | confidence | as-written member | corrected member |
|---|---|---|---|---|---|---|
| scverse-stats/collectors/pepyCollector.ts:116-124 | When a 2xx body fails the package schema, the fallback record still copies the body's own `total_downloads`, `versions` and `downloads`. When those values fail the schema as well, the final `PepyDataSchema.parse` at lines 150-154 throws, and `pepy.json` is not written. A body that failed only on its `id` is harmless: the fallback takes `id: project` (line 119) and the file is written. | a 200 reply with body `{"id":"anndata","total_downloads":"12","versions":[],"downloads":{}}` | the fallback entry carries values that satisfy the schema, and the file is written | not executed | PepyCollector.PepyOfAsWritten (shown by PepyCollector.FallbackRejectedExample) | PepyCollector.PepyOf (its properties in PepyCollector.PepyWritten, PepyCollector.RunShape and PepyCollector.TotalDownloads) |
| scverse-stats/collectors/contributorsCollector.ts:67 | A contributor listed without `avatar_url` is stored with `""`. The schema at line 12 demands a URL, so `ContributorsDataSchema.parse` at lines 98-102 throws and no file is written. | one package whose single page holds `{"login":"alice","contributions":3}` | the contributor is written, or the empty avatar is accepted | not executed | ContributorsCollector.ContributorsFileOfAsWritten (shown by ContributorsCollector.MissingAvatarExample) | ContributorsCollector.ContributorsFileOf (its properties in ContributorsCollector.ContributorsFileCount, ContributorsCollector.ContributorsFileLogins and ContributorsCollector.ContributorsFileSum) |
