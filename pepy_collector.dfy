/**
 * `collectors/pepyCollector.ts`: download statistics from the pepy.tech API.
 *
 * Each configured package comes with the reply its request got. A reply body
 * is given in the shape `PepyPackageSchema` describes, together with the
 * verdict of `PepyPackageSchema.parse` on it. The keys of `downloads` are the
 * dates as day numbers since the Unix epoch, and "today" is a millisecond
 * timestamp.
 */
module PepyCollector {
  import opened Common
  import opened Sorting

  /** `1000 * 60 * 60 * 24` */
  const DayMs: int := 86400000

  /** The window length and the cap on counted days. */
  const WindowDays: nat := 30

  // --------------------------------------------------------------- names

  /** `toLowerCase` on the ASCII letters. */
  function LowerChar(c: char): char {
    if 'A' <= c <= 'Z' then (c as int + 32) as char else c
  }

  /** No upper-case ASCII letter is left; every letter keeps its place in the alphabet, every other character is kept. */
  function ToLower(s: string): (r: string)
    ensures |r| == |s|
    ensures forall i :: 0 <= i < |r| ==> !IsUpper(r[i])
    ensures forall i :: 0 <= i < |s| && !IsUpper(s[i]) ==> r[i] == s[i]
    ensures forall i :: 0 <= i < |s| && IsUpper(s[i]) ==> r[i] as int - 'a' as int == s[i] as int - 'A' as int
  {
    seq(|s|, i requires 0 <= i < |s| => LowerChar(s[i]))
  }

  /** `replace(/_/g, "-")` */
  function ReplaceUnderscores(s: string): (r: string)
    ensures |r| == |s| && '_' !in r
    ensures forall i :: 0 <= i < |s| ==> r[i] == s[i] || (s[i] == '_' && r[i] == '-')
  {
    seq(|s|, i requires 0 <= i < |s| => if s[i] == '_' then '-' else s[i])
  }

  /** `normalizeName`: lower case, and every `_` becomes `-`. */
  function NormalizeName(name: string): string {
    ReplaceUnderscores(ToLower(name))
  }

  predicate IsUpper(c: char) {
    'A' <= c <= 'Z'
  }

  /** A normalised name has no `_` and no upper-case letter, and every other character is kept. */
  lemma NormalizeNameClean(name: string)
    ensures var r := NormalizeName(name);
      && |r| == |name|
      && (forall i :: 0 <= i < |r| ==> r[i] != '_' && !IsUpper(r[i]))
      && (forall i :: 0 <= i < |r| && name[i] != '_' && !IsUpper(name[i]) ==> r[i] == name[i])
  {
  }

  /** Normalising twice is normalising once. */
  lemma NormalizeNameIdempotent(name: string)
    ensures NormalizeName(NormalizeName(name)) == NormalizeName(name)
  {
    var r := NormalizeName(name);
    NormalizeNameClean(name);
    assert forall i :: 0 <= i < |r| ==> NormalizeName(r)[i] == r[i];
  }

  // ------------------------------------------------------- the 30-day window

  /** A per-version count as JSON gives it: `Number(v) || 0` makes anything else 0. */
  datatype Value = Num(n: nat) | NotNumber

  /** One key of `downloads`: the date and its per-version counts. */
  datatype DayEntry = DayEntry(day: int, perVersion: seq<Value>)

  function DayOf(e: DayEntry): int { e.day }

  function ValueOf(v: Value): nat {
    match v
    case Num(n) => n
    case NotNumber => 0
  }

  /** The `reduce` over a day's per-version values. */
  function DayTotal(vs: seq<Value>): nat {
    if vs == [] then 0 else ValueOf(vs[0]) + DayTotal(vs[1..])
  }

  /** The day difference between today and a date at midnight UTC, rounded down. */
  function DiffDays(todayMs: int, day: int): int {
    (todayMs - day * DayMs) / DayMs
  }

  predicate InWindow(todayMs: int, day: int) {
    0 <= DiffDays(todayMs, day) < WindowDays
  }

  datatype Tally = Tally(total: nat, days: nat)

  function Add(a: Tally, b: Tally): Tally {
    Tally(a.total + b.total, a.days + b.days)
  }

  /**
   * The `for (const dateStr of sortedDates)` loop from `countedDays` on:
   * it stops once 30 days are counted and skips future dates and dates 30 or
   * more days old.
   */
  function Window(dates: seq<DayEntry>, todayMs: int, counted: nat): (r: Tally)
    ensures counted >= WindowDays ==> r == Tally(0, 0)
    ensures counted < WindowDays ==> counted + r.days <= WindowDays
    ensures r.days <= |dates|
  {
    if dates == [] || counted >= WindowDays then Tally(0, 0)
    else if !InWindow(todayMs, dates[0].day) then Window(dates[1..], todayMs, counted)
    else Add(Tally(DayTotal(dates[0].perVersion), 1), Window(dates[1..], todayMs, counted + 1))
  }

  /** The dates in the window with no cap: what `Window` would count if the cap never applied. */
  function InWindowTally(dates: seq<DayEntry>, todayMs: int): Tally {
    if dates == [] then Tally(0, 0)
    else if !InWindow(todayMs, dates[0].day) then InWindowTally(dates[1..], todayMs)
    else Add(Tally(DayTotal(dates[0].perVersion), 1), InWindowTally(dates[1..], todayMs))
  }

  /** While the cap is not reached, the loop counts every date of the window and nothing else. */
  lemma {:induction false} WindowUncapped(dates: seq<DayEntry>, todayMs: int, counted: nat)
    requires counted + InWindowTally(dates, todayMs).days <= WindowDays
    ensures Window(dates, todayMs, counted) == InWindowTally(dates, todayMs)
    decreases |dates|
  {
    if dates != [] {
      var rest := InWindowTally(dates[1..], todayMs);
      if InWindow(todayMs, dates[0].day) {
        assert InWindowTally(dates, todayMs) == Add(Tally(DayTotal(dates[0].perVersion), 1), rest);
        WindowUncapped(dates[1..], todayMs, counted + 1);
        assert Window(dates, todayMs, counted) ==
          Add(Tally(DayTotal(dates[0].perVersion), 1), Window(dates[1..], todayMs, counted + 1));
      } else {
        assert InWindowTally(dates, todayMs) == rest;
        WindowUncapped(dates[1..], todayMs, counted);
        assert Window(dates, todayMs, counted) == Window(dates[1..], todayMs, counted);
      }
    }
  }

  predicate StrictlyDescending(dates: seq<DayEntry>) {
    forall i, j :: 0 <= i < j < |dates| ==> dates[i].day > dates[j].day
  }

  /** A date is in the window exactly when it is one of the 30 days ending today. */
  lemma InWindowRange(todayMs: int, day: int)
    ensures InWindow(todayMs, day) <==> todayMs / DayMs - 29 <= day <= todayMs / DayMs
  {
    assert (todayMs - day * DayMs) / DayMs == todayMs / DayMs - day;
  }

  /** Strictly descending dates at or below `hi` hold at most `hi - lo + 1` dates from `lo` on. */
  lemma {:induction false} DescendingInRange(dates: seq<DayEntry>, todayMs: int, hi: int)
    requires StrictlyDescending(dates)
    requires forall i :: 0 <= i < |dates| && InWindow(todayMs, dates[i].day) ==> dates[i].day <= hi
    requires hi <= todayMs / DayMs
    ensures InWindowTally(dates, todayMs).days <= if hi - (todayMs / DayMs - 29) + 1 > 0 then hi - (todayMs / DayMs - 29) + 1 else 0
    decreases |dates|
  {
    if dates != [] {
      var rest := dates[1..];
      InWindowRange(todayMs, dates[0].day);
      forall i | 0 <= i < |rest| && InWindow(todayMs, rest[i].day)
        ensures rest[i].day <= (if InWindow(todayMs, dates[0].day) then dates[0].day - 1 else hi)
      {
        assert rest[i] == dates[i + 1];
      }
      if InWindow(todayMs, dates[0].day) {
        DescendingInRange(rest, todayMs, dates[0].day - 1);
      } else {
        DescendingInRange(rest, todayMs, hi);
      }
    }
  }

  /** A JSON object has distinct keys. */
  predicate DistinctDays(entries: seq<DayEntry>) {
    forall i, j :: 0 <= i < j < |entries| ==> entries[i].day != entries[j].day
  }

  /**
   * With the dates of a JSON object sorted, the 30-day cap never applies: at
   * most 30 distinct dates fall in the window, so every one of them is counted.
   */
  lemma CapNeverBinds(downloads: seq<DayEntry>, todayMs: int)
    requires DistinctDays(downloads)
    ensures var sorted := SortDesc(downloads, DayOf);
      Window(sorted, todayMs, 0) == InWindowTally(sorted, todayMs)
  {
    var sorted := SortDesc(downloads, DayOf);
    SortedDistinct(downloads, sorted);
    forall i | 0 <= i < |sorted| && InWindow(todayMs, sorted[i].day) ensures sorted[i].day <= todayMs / DayMs {
      InWindowRange(todayMs, sorted[i].day);
    }
    DescendingInRange(sorted, todayMs, todayMs / DayMs);
    WindowUncapped(sorted, todayMs, 0);
  }

  /** Sorting distinct dates in non-increasing order sorts them strictly. */
  lemma SortedDistinct(downloads: seq<DayEntry>, sorted: seq<DayEntry>)
    requires DistinctDays(downloads)
    requires SortedDesc(sorted, DayOf) && multiset(sorted) == multiset(downloads)
    ensures StrictlyDescending(sorted)
  {
    forall i, j | 0 <= i < j < |sorted| ensures sorted[i].day > sorted[j].day {
      assert sorted[i] in multiset(downloads) && sorted[j] in multiset(downloads);
      var a :| 0 <= a < |downloads| && downloads[a] == sorted[i];
      var b :| 0 <= b < |downloads| && downloads[b] == sorted[j];
      if a == b {
        CountTwice(sorted, i, j);
        CountOnceDistinct(downloads, a);
      }
    }
  }

  /** Two positions holding one value make it occur at least twice. */
  lemma CountTwice<T>(s: seq<T>, i: nat, j: nat)
    requires i < j < |s| && s[i] == s[j]
    ensures multiset(s)[s[i]] >= 2
  {
    assert s == s[..j] + [s[j]] + s[j + 1..];
    assert s[i] in s[..j];
  }

  /** An entry of a sequence with distinct days occurs once. */
  lemma {:induction false} CountOnceDistinct(s: seq<DayEntry>, a: nat)
    requires DistinctDays(s) && a < |s|
    ensures multiset(s)[s[a]] == 1
    decreases |s|
  {
    var init := s[..|s| - 1];
    assert s == init + [s[|s| - 1]];
    if a == |s| - 1 {
      assert s[a] !in init;
    } else {
      assert s[a] != s[|s| - 1];
      assert s[a] == init[a];
      CountOnceDistinct(init, a);
    }
  }

  // -------------------------------------------------------------- replies

  /**
   * The body fields the collector reads: `totalDownloads` is the total when it
   * is a number. `schemaValid` is whether `PepyPackageSchema.parse` accepts the
   * record built from the body; `fallbackValid` is whether the same schema
   * accepts the fallback record of a body that fails it (`id: project` and the
   * body's own total, versions and downloads).
   */
  datatype PepyBody = PepyBody(
    id: Option<string>,
    totalDownloads: Option<nat>,
    versions: Option<seq<string>>,
    downloads: Option<seq<DayEntry>>,
    schemaValid: bool,
    fallbackValid: bool)

  /** A `fetch` that throws or whose body is not JSON, or a response with its status and body. */
  datatype PepyReply = FetchError | Response(status: int, body: PepyBody)

  datatype PepyQuery = PepyQuery(name: string, reply: PepyReply)

  /** One element of `packages`. */
  datatype Package = Package(id: string, totalDownloads: nat, versions: seq<string>, downloads: seq<DayEntry>)

  /** One element of `perPackage30DayAvg`. */
  datatype PackageWindow = PackageWindow(id: string, total30Days: nat, avgPerDay: real)

  datatype Computed = Computed(perPackage30Day: seq<PackageWindow>, combinedTotal30Days: int, combinedAvgDaily: real)

  /** The object written to `pepy.json`. */
  datatype PepyFile = PepyFile(packages: seq<Package>, totalDownloads: int, timestamp: string, computed: Computed)

  /** `resp.ok` */
  predicate Ok(status: int) {
    200 <= status <= 299
  }

  /** The entry pushed for a package that is missing, failed or could not be fetched. */
  function ZeroEntry(project: string): Package {
    Package(project, 0, [], [])
  }

  function Average(t: Tally): real {
    if t.days > 0 then t.total as real / t.days as real else 0.0
  }

  /** The 30-day figures of a validated package, over its dates in descending order. */
  function PackageWindowOf(p: Package, todayMs: int): PackageWindow {
    var t := Window(SortDesc(p.downloads, DayOf), todayMs, 0);
    PackageWindow(p.id, t.total, Average(t))
  }

  /** What one reply other than 401 and 429 adds: an entry, and 30-day figures for a validated body. */
  /**
   * A reply gives 30-day figures exactly when it is a 2xx other than 404 whose
   * body the schema accepts, and they are then the figures of its own entry;
   * an entry without figures is filed under the project's name, and a failed
   * reply or fetch gives the zero entry.
   */
  function Handle(project: string, reply: PepyReply, todayMs: int): (r: (Package, Option<PackageWindow>))
    ensures r.1.Some? <==> reply.Response? && reply.status != 404 && Ok(reply.status) && reply.body.schemaValid
    ensures r.1.Some? ==> r.1.value == PackageWindowOf(r.0, todayMs)
    ensures r.1.None? ==> r.0.id == project
    ensures !(reply.Response? && reply.status != 404 && Ok(reply.status)) ==> r.0 == ZeroEntry(project)
  {
    match reply
    case FetchError => (ZeroEntry(project), None)
    case Response(status, body) =>
      if status == 404 || !Ok(status) then (ZeroEntry(project), None)
      else
        var versions := if body.versions.Some? then body.versions.value else [];
        var downloads := if body.downloads.Some? then body.downloads.value else [];
        if body.schemaValid then
          var validated := Package(OrElse(body.id, project), OrZero(body.totalDownloads), versions, downloads);
          (validated, Some(PackageWindowOf(validated, todayMs)))
        else (Package(project, OrZero(body.totalDownloads), versions, downloads), None)
  }

  predicate Halts(reply: PepyReply) {
    reply.Response? && (reply.status == 401 || reply.status == 429)
  }

  /** The state of the package loop: still going, stopped by a 429, or returned on a 401. */
  datatype Outcome = Going(packages: seq<Package>, windows: seq<PackageWindow>)
                   | Stopped(packages: seq<Package>, windows: seq<PackageWindow>)
                   | Aborted

  /** One iteration of the package loop. */
  function Next(o: Outcome, q: PepyQuery, todayMs: int): (r: Outcome)
  {
    match o
    case Aborted => Aborted
    case Stopped(p, w) => Stopped(p, w)
    case Going(p, w) =>
      if q.reply.Response? && q.reply.status == 401 then Aborted
      else if q.reply.Response? && q.reply.status == 429 then Stopped(p, w)
      else
        var (entry, window) := Handle(NormalizeName(q.name), q.reply, todayMs);
        Going(p + [entry], w + (if window.Some? then [window.value] else []))
  }

  /** The package loop over the queries in order. */
  function Run(qs: seq<PepyQuery>, todayMs: int): (r: Outcome)
    ensures r.Going? ==> |r.packages| == |qs|
    ensures r.Stopped? ==> |r.packages| < |qs|
    ensures !r.Aborted? ==> |r.windows| <= |r.packages|
  {
    if qs == [] then Going([], []) else Next(Run(qs[..|qs| - 1], todayMs), qs[|qs| - 1], todayMs)
  }

  lemma RunStep(qs: seq<PepyQuery>, i: nat, todayMs: int)
    requires i < |qs|
    ensures Run(qs[..i + 1], todayMs) == Next(Run(qs[..i], todayMs), qs[i], todayMs)
  {
    assert qs[..i + 1][..i] == qs[..i];
  }

  function TotalOf(p: Package): int { p.totalDownloads }
  function Total30Of(w: PackageWindow): int { w.total30Days }

  function AverageSum(ws: seq<PackageWindow>): real {
    if ws == [] then 0.0 else ws[0].avgPerDay + AverageSum(ws[1..])
  }

  function FileOf(p: seq<Package>, w: seq<PackageWindow>, timestamp: string): PepyFile {
    PepyFile(p, Sum(p, TotalOf), timestamp, Computed(w, Sum(w, Total30Of), AverageSum(w)))
  }

  /** `collectPepyStats`: nothing is written without an API key or after a 401. */
  function PepyOf(apiKey: Option<string>, qs: seq<PepyQuery>, todayMs: int, timestamp: string): (r: Option<PepyFile>)
    ensures r.Some? ==> Truthy(apiKey) && r.value.timestamp == timestamp
    ensures r.Some? ==> |r.value.packages| <= |qs| && |r.value.computed.perPackage30Day| <= |r.value.packages|
  {
    if !Truthy(apiKey) then None
    else
      match Run(qs, todayMs)
      case Aborted => None
      case Going(p, w) => Some(FileOf(p, w, timestamp))
      case Stopped(p, w) => Some(FileOf(p, w, timestamp))
  }

  // ----------------------------------------------------------------- loops

  /** The 30-day loop over the dates sorted in descending order. */
  method Last30Days(sortedDates: seq<DayEntry>, todayMs: int) returns (total30: nat, countedDays: nat)
    ensures Tally(total30, countedDays) == Window(sortedDates, todayMs, 0)
  {
    total30, countedDays := 0, 0;
    assert sortedDates[0..] == sortedDates;
    for j := 0 to |sortedDates|
      invariant Window(sortedDates, todayMs, 0) ==
        Add(Tally(total30, countedDays), Window(sortedDates[j..], todayMs, countedDays))
    {
      WindowAt(sortedDates, j, todayMs, countedDays);
      if countedDays >= WindowDays {
        break;
      }
      var entry := sortedDates[j];
      var diffDays := DiffDays(todayMs, entry.day);
      ghost var skipped := Window(sortedDates[j + 1..], todayMs, countedDays);
      if diffDays < 0 {
        assert Window(sortedDates[j..], todayMs, countedDays) == skipped;
        continue;
      }
      if diffDays >= WindowDays {
        assert Window(sortedDates[j..], todayMs, countedDays) == skipped;
        continue;
      }
      var dayTotal := DayTotal(entry.perVersion);
      ghost var rest := Window(sortedDates[j + 1..], todayMs, countedDays + 1);
      assert Window(sortedDates[j..], todayMs, countedDays) == Add(Tally(dayTotal, 1), rest);
      AddAssoc(Tally(total30, countedDays), Tally(dayTotal, 1), rest);
      total30 := total30 + dayTotal;
      countedDays := countedDays + 1;
    }
  }

  lemma AddAssoc(a: Tally, b: Tally, c: Tally)
    ensures Add(a, Add(b, c)) == Add(Tally(a.total + b.total, a.days + b.days), c)
  {
  }

  /** The window from position `j` on, one date at a time. */
  lemma WindowAt(dates: seq<DayEntry>, j: nat, todayMs: int, counted: nat)
    requires j < |dates|
    ensures Window(dates[j..], todayMs, counted) ==
      if counted >= WindowDays then Tally(0, 0)
      else if !InWindow(todayMs, dates[j].day) then Window(dates[j + 1..], todayMs, counted)
      else Add(Tally(DayTotal(dates[j].perVersion), 1), Window(dates[j + 1..], todayMs, counted + 1))
  {
    assert dates[j..][1..] == dates[j + 1..];
  }

  /** The `else` branch for a successful response. */
  method HandleBody(project: string, body: PepyBody, todayMs: int) returns (entry: Package, window: Option<PackageWindow>)
    ensures forall status :: Ok(status) && status != 404 ==> (entry, window) == Handle(project, Response(status, body), todayMs)
  {
    var versions := if body.versions.Some? then body.versions.value else [];
    var downloads := if body.downloads.Some? then body.downloads.value else [];
    if body.schemaValid {
      entry := Package(OrElse(body.id, project), OrZero(body.totalDownloads), versions, downloads);
      var sortedDates := SortDesc(entry.downloads, DayOf);
      var total30, countedDays := Last30Days(sortedDates, todayMs);
      var avgPerDay := if countedDays > 0 then total30 as real / countedDays as real else 0.0;
      window := Some(PackageWindow(entry.id, total30, avgPerDay));
    } else {
      entry := Package(project, OrZero(body.totalDownloads), versions, downloads);
      window := None;
    }
  }

  /** `collectPepyStats`, without the file output. */
  method CollectPepyStats(apiKey: Option<string>, qs: seq<PepyQuery>, todayMs: int, timestamp: string)
    returns (r: Option<PepyFile>)
    ensures r == PepyOf(apiKey, qs, todayMs, timestamp)
  {
    var packages: seq<Package> := [];
    var perPackage30DayAvg: seq<PackageWindow> := [];
    if !(apiKey.Some? && apiKey.value != "") {
      return None;
    }
    var i := 0;
    while i < |qs|
      invariant 0 <= i <= |qs|
      invariant Run(qs[..i], todayMs) == Going(packages, perPackage30DayAvg)
    {
      RunStep(qs, i, todayMs);
      var project := NormalizeName(qs[i].name);
      var reply := qs[i].reply;
      if reply.FetchError? {
        packages := packages + [ZeroEntry(project)];
      } else if reply.status == 404 {
        packages := packages + [ZeroEntry(project)];
      } else if reply.status == 401 {
        RunSettles(qs, todayMs, i + 1);
        return None;
      } else if reply.status == 429 {
        RunSettles(qs, todayMs, i + 1);
        break;
      } else if !Ok(reply.status) {
        packages := packages + [ZeroEntry(project)];
      } else {
        var entry, window := HandleBody(project, reply.body, todayMs);
        if window.Some? {
          perPackage30DayAvg := perPackage30DayAvg + [window.value];
        } else {
          assert perPackage30DayAvg + [] == perPackage30DayAvg;
        }
        packages := packages + [entry];
      }
      i := i + 1;
    }
    if i == |qs| {
      assert qs[..|qs|] == qs;
    }
    var total := Sum(packages, TotalOf);
    var combinedTotal30 := Sum(perPackage30DayAvg, Total30Of);
    var combinedAvgDaily := AverageSum(perPackage30DayAvg);
    r := Some(PepyFile(packages, total, timestamp, Computed(perPackage30DayAvg, combinedTotal30, combinedAvgDaily)));
  }

  /** Once the loop has stopped or returned, the later packages change nothing. */
  lemma {:induction false} RunSettles(qs: seq<PepyQuery>, todayMs: int, n: nat)
    requires 0 < n <= |qs|
    requires !Run(qs[..n], todayMs).Going?
    ensures Run(qs, todayMs) == Run(qs[..n], todayMs)
    decreases |qs| - n
  {
    if n < |qs| {
      assert qs[..n + 1][..n] == qs[..n];
      RunSettles(qs, todayMs, n + 1);
    } else {
      assert qs[..n] == qs;
    }
  }

  // ------------------------------------------------------------ properties

  /** The index of the first 401 or 429, or the number of packages when there is none. */
  function FirstHalt(qs: seq<PepyQuery>): (k: nat)
    ensures k <= |qs|
    ensures forall i :: 0 <= i < k ==> !Halts(qs[i].reply)
    ensures k < |qs| ==> Halts(qs[k].reply)
  {
    if qs == [] || Halts(qs[0].reply) then 0 else 1 + FirstHalt(qs[1..])
  }

  /** The 30-day figures the replies of `qs` contribute, in order: one per schema-valid 2xx reply. */
  function HandledWindows(qs: seq<PepyQuery>, todayMs: int): seq<PackageWindow> {
    if qs == [] then []
    else
      var window := Handle(NormalizeName(qs[|qs| - 1].name), qs[|qs| - 1].reply, todayMs).1;
      HandledWindows(qs[..|qs| - 1], todayMs) + (if window.Some? then [window.value] else [])
  }

  /**
   * `p` holds one entry per query of `qs[..k]`, the one that query's own reply
   * determines, and `w` the 30-day figures of those replies.
   */
  predicate HandledEach(p: seq<Package>, w: seq<PackageWindow>, qs: seq<PepyQuery>, k: nat, todayMs: int)
    requires k <= |qs|
  {
    && |p| == k
    && (forall i :: 0 <= i < k ==> p[i] == Handle(NormalizeName(qs[i].name), qs[i].reply, todayMs).0)
    && w == HandledWindows(qs[..k], todayMs)
  }

  /**
   * The loop runs up to the first 401 or 429: a 401 there means nothing is
   * written, and otherwise every package before it pushed exactly one entry,
   * the one its own reply determines, and the 30-day figures of those replies.
   */
  predicate Shape(o: Outcome, qs: seq<PepyQuery>, todayMs: int) {
    var k := FirstHalt(qs);
    match o
    case Aborted => k < |qs| && qs[k].reply.status == 401
    case Stopped(p, w) => k < |qs| && qs[k].reply.status == 429 && HandledEach(p, w, qs, k, todayMs)
    case Going(p, w) => k == |qs| && HandledEach(p, w, qs, k, todayMs)
  }

  /** The package loop has the shape `Shape` describes. */
  lemma {:induction false} RunShape(qs: seq<PepyQuery>, todayMs: int)
    ensures Shape(Run(qs, todayMs), qs, todayMs)
    decreases |qs|
  {
    if qs != [] {
      var init := qs[..|qs| - 1];
      RunShape(init, todayMs);
      match Run(init, todayMs)
      case Aborted => ShapeAfterAborted(qs, todayMs);
      case Stopped(_, _) => ShapeAfterStopped(qs, todayMs);
      case Going(_, _) => ShapeAfterGoing(qs, todayMs);
    }
  }

  lemma ShapeAfterAborted(qs: seq<PepyQuery>, todayMs: int)
    requires qs != [] && Run(qs[..|qs| - 1], todayMs).Aborted?
    requires Shape(Run(qs[..|qs| - 1], todayMs), qs[..|qs| - 1], todayMs)
    ensures Shape(Run(qs, todayMs), qs, todayMs)
  {
    FirstHaltPrefix(qs);
    var k := FirstHalt(qs);
    assert qs[..|qs| - 1][k] == qs[k];
  }

  lemma ShapeAfterStopped(qs: seq<PepyQuery>, todayMs: int)
    requires qs != [] && Run(qs[..|qs| - 1], todayMs).Stopped?
    requires Shape(Run(qs[..|qs| - 1], todayMs), qs[..|qs| - 1], todayMs)
    ensures Shape(Run(qs, todayMs), qs, todayMs)
  {
    FirstHaltPrefix(qs);
    var prev := Run(qs[..|qs| - 1], todayMs);
    var k := FirstHalt(qs);
    assert qs[..|qs| - 1][k] == qs[k];
    HandledPrefix(prev.packages, prev.windows, qs, k, todayMs);
  }

  lemma ShapeAfterGoing(qs: seq<PepyQuery>, todayMs: int)
    requires qs != [] && Run(qs[..|qs| - 1], todayMs).Going?
    requires Shape(Run(qs[..|qs| - 1], todayMs), qs[..|qs| - 1], todayMs)
    ensures Shape(Run(qs, todayMs), qs, todayMs)
  {
    FirstHaltPrefix(qs);
    var prev := Run(qs[..|qs| - 1], todayMs);
    var q := qs[|qs| - 1];
    if !Halts(q.reply) {
      HandledAppend(prev.packages, prev.windows, qs, todayMs);
    } else if q.reply.status == 429 {
      HandledPrefix(prev.packages, prev.windows, qs, |qs| - 1, todayMs);
    }
  }

  /** Entries for a prefix of all but the last query are entries for that prefix of all queries. */
  lemma HandledPrefix(p: seq<Package>, w: seq<PackageWindow>, qs: seq<PepyQuery>, k: nat, todayMs: int)
    requires qs != [] && k <= |qs| - 1
    requires HandledEach(p, w, qs[..|qs| - 1], k, todayMs)
    ensures HandledEach(p, w, qs, k, todayMs)
  {
    assert qs[..|qs| - 1][..k] == qs[..k];
    forall i | 0 <= i < k ensures qs[..|qs| - 1][i] == qs[i] { }
  }

  /** The last query's entry and figures appended to those of the others. */
  lemma HandledAppend(p: seq<Package>, w: seq<PackageWindow>, qs: seq<PepyQuery>, todayMs: int)
    requires qs != []
    requires HandledEach(p, w, qs[..|qs| - 1], |qs| - 1, todayMs)
    ensures var (entry, window) := Handle(NormalizeName(qs[|qs| - 1].name), qs[|qs| - 1].reply, todayMs);
      HandledEach(p + [entry], w + (if window.Some? then [window.value] else []), qs, |qs|, todayMs)
  {
    HandledPrefix(p, w, qs, |qs| - 1, todayMs);
    assert qs[..|qs| - 1][..|qs| - 1] == qs[..|qs| - 1];
    assert qs[..|qs|] == qs;
  }

  /** `FirstHalt` of all but the last package: the same halt, or the end. */
  lemma FirstHaltPrefix(qs: seq<PepyQuery>)
    requires qs != []
    ensures var init := qs[..|qs| - 1];
      FirstHalt(qs) == (if FirstHalt(init) < |init| then FirstHalt(init)
                        else if Halts(qs[|qs| - 1].reply) then |init| else |qs|)
  {
    var init := qs[..|qs| - 1];
    var k := FirstHalt(init);
    if k < |init| {
      FirstHaltIs(qs, k);
    } else if Halts(qs[|qs| - 1].reply) {
      FirstHaltIs(qs, |init|);
    } else {
      FirstHaltIs(qs, |qs|);
    }
  }

  lemma FirstHaltIs(qs: seq<PepyQuery>, k: nat)
    requires k <= |qs|
    requires forall i :: 0 <= i < k ==> !Halts(qs[i].reply)
    requires k < |qs| ==> Halts(qs[k].reply)
    ensures FirstHalt(qs) == k
  {
  }

  /** Without a key, or when a 401 comes before any 429, nothing is written; otherwise a file is. */
  lemma PepyWritten(apiKey: Option<string>, qs: seq<PepyQuery>, todayMs: int, timestamp: string)
    ensures PepyOf(apiKey, qs, todayMs, timestamp).None? <==>
      !Truthy(apiKey) || (FirstHalt(qs) < |qs| && qs[FirstHalt(qs)].reply.status == 401)
  {
    RunShape(qs, todayMs);
  }

  /** A missing package, a failed request and a fetch error each give one zero-download entry. */
  lemma FailuresGiveZeroEntries(project: string, reply: PepyReply, todayMs: int)
    requires reply.FetchError? || (reply.Response? && (reply.status == 404 || !Ok(reply.status)))
    ensures Handle(project, reply, todayMs) == (ZeroEntry(project), None)
  {
  }

  /** The downloads a reply contributes to `total_downloads`: those of a successful response. */
  function ReplyTotal(reply: PepyReply): nat {
    if reply.Response? && reply.status != 404 && Ok(reply.status) then OrZero(reply.body.totalDownloads) else 0
  }

  function RepliesTotal(qs: seq<PepyQuery>): nat {
    if qs == [] then 0 else ReplyTotal(qs[0].reply) + RepliesTotal(qs[1..])
  }

  /** `total_downloads` sums the totals of the successful responses before the first 401 or 429. */
  lemma TotalDownloads(apiKey: Option<string>, qs: seq<PepyQuery>, todayMs: int, timestamp: string)
    requires PepyOf(apiKey, qs, todayMs, timestamp).Some?
    ensures PepyOf(apiKey, qs, todayMs, timestamp).value.totalDownloads == RepliesTotal(qs[..FirstHalt(qs)])
  {
    RunShape(qs, todayMs);
    var k := FirstHalt(qs);
    var p := Run(qs, todayMs).packages;
    EntriesTotal(qs[..k], p, todayMs);
  }

  lemma {:induction false} EntriesTotal(qs: seq<PepyQuery>, p: seq<Package>, todayMs: int)
    requires |p| == |qs|
    requires forall i :: 0 <= i < |qs| ==> !Halts(qs[i].reply)
    requires forall i :: 0 <= i < |qs| ==> p[i] == Handle(NormalizeName(qs[i].name), qs[i].reply, todayMs).0
    ensures Sum(p, TotalOf) == RepliesTotal(qs)
    decreases |qs|
  {
    if qs != [] {
      EntriesTotal(qs[1..], p[1..], todayMs);
    }
  }

  /** Every validated package's 30-day figures count at most 30 days, and its average is their mean. */
  lemma WindowFigures(p: Package, todayMs: int)
    ensures var t := Window(SortDesc(p.downloads, DayOf), todayMs, 0);
            var w := PackageWindowOf(p, todayMs);
      && t.days <= WindowDays
      && w.id == p.id
      && w.total30Days == t.total
      && w.avgPerDay == Average(t)
  {
  }

  /** `avgPerDay` is the mean over the counted days, and 0 when no day is counted. */
  lemma AverageMean(t: Tally)
    ensures t.days > 0 ==> Average(t) * t.days as real == t.total as real
    ensures t.days == 0 ==> Average(t) == 0.0
  {
    if t.days > 0 {
      DivTimes(t.total as real, t.days as real);
    }
  }

  lemma DivTimes(x: real, y: real)
    requires y > 0.0
    ensures (x / y) * y == x
  {
  }

  // ------------------------------------------------- the final schema check

  /**
   * A reply whose entry the final `PepyDataSchema.parse` rejects: a successful
   * response whose body failed validation and whose fallback record fails the
   * package schema as well.
   */
  predicate RejectedFallback(reply: PepyReply) {
    reply.Response? && reply.status != 404 && Ok(reply.status)
    && !reply.body.schemaValid && !reply.body.fallbackValid
  }

  /**
   * `collectPepyStats` as written: one rejected fallback entry among the
   * packages makes the final parse throw, and no file is written.
   */
  function PepyOfAsWritten(apiKey: Option<string>, qs: seq<PepyQuery>, todayMs: int, timestamp: string)
    : (r: Option<PepyFile>)
    ensures (exists i :: 0 <= i < FirstHalt(qs) && RejectedFallback(qs[i].reply)) ==> r.None?
    ensures (forall i :: 0 <= i < FirstHalt(qs) ==> !RejectedFallback(qs[i].reply)) ==>
      r == PepyOf(apiKey, qs, todayMs, timestamp)
  {
    if exists i :: 0 <= i < FirstHalt(qs) && RejectedFallback(qs[i].reply) then None
    else PepyOf(apiKey, qs, todayMs, timestamp)
  }

  /**
   * A 200 reply with `total_downloads: "12"`: the body fails validation, its
   * fallback record keeps the string and fails too, so as written nothing is
   * written, while the collector's evident intent writes the zero-total entry.
   */
  lemma FallbackRejectedExample()
    ensures var body := PepyBody(Some("anndata"), None, Some([]), Some([]), false, false);
            var qs := [PepyQuery("anndata", Response(200, body))];
      && PepyOfAsWritten(Some("key"), qs, 0, "now").None?
      && PepyOf(Some("key"), qs, 0, "now") ==
           Some(PepyFile([Package("anndata", 0, [], [])], 0, "now", Computed([], 0, 0.0)))
  {
    var body := PepyBody(Some("anndata"), None, Some([]), Some([]), false, false);
    var qs := [PepyQuery("anndata", Response(200, body))];
    assert FirstHalt(qs) == 1;
    assert RejectedFallback(qs[0].reply);
    assert NormalizeName("anndata") == "anndata";
    assert qs[..0] == [];
    var entry := Package("anndata", 0, [], []);
    assert Handle("anndata", qs[0].reply, 0) == (entry, None);
    assert Run(qs, 0) == Going([entry], []);
    assert Sum([entry], TotalOf) == 0;
  }
}
