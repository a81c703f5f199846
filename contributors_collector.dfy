/**
 * `collectors/contributorsCollector.ts`: the contributor table merged over the
 * core packages. The JavaScript `Map` keeps its keys in insertion order, so it
 * is modelled as the sequence of logins in the order they were first seen
 * together with the map from login to entry; `Array.from(map.values())` reads
 * the entries in that order.
 *
 * The user lookup `users.getByUsername` is a map from login to the profile's
 * `name`: a login missing from the map is a lookup that throws.
 */
module ContributorsCollector {
  import opened Common
  import opened Paging
  import opened Sorting
  import opened GitHubApi

  /** At most this many pages per package: `while (page < 50)` starting at page 1. */
  const MaxPages: nat := 49

  datatype Contributor = Contributor(
    login: string,
    name: string,
    avatarUrl: string,
    htmlUrl: string,
    contributions: nat)

  /** `contributorsMap`: its keys in insertion order and its entries. */
  datatype Table = Table(order: seq<string>, entries: map<string, Contributor>)

  /** The object given to `ContributorsDataSchema.parse`. */
  datatype ContributorsFile = ContributorsFile(totalContributors: nat, contributors: seq<Contributor>, timestamp: string)

  const EmptyTable := Table([], map[])

  function ContributionsOf(c: Contributor): int { c.contributions }

  /** Items without a login and logins ending in `[bot]` are skipped; `-bot` is not filtered here. */
  predicate IsAccepted(c: ContributorItem) {
    Truthy(c.login) && !EndsWith(c.login.value, "[bot]")
  }

  /** `userInfo.name || contributor.login`, and the login when the lookup throws. */
  function LookupName(users: map<string, Option<string>>, login: string): (name: string)
    ensures login in users && Truthy(users[login]) ==> name == users[login].value
    ensures !(login in users && Truthy(users[login])) ==> name == login
  {
    if login in users then OrElse(users[login], login) else login
  }

  /** The entry created the first time a login is seen. */
  function Fresh(c: ContributorItem, users: map<string, Option<string>>): (e: Contributor)
    requires IsAccepted(c)
    ensures e.login == c.login.value && e.name != "" && e.htmlUrl != ""
  {
    var login := c.login.value;
    Contributor(login, LookupName(users, login), OrElse(c.avatarUrl, ""),
                OrElse(c.htmlUrl, "https://github.com/" + login), OrZero(c.contributions))
  }

  /** The body of `for (const contributor of contributors)`. */
  function Step(t: Table, c: ContributorItem, users: map<string, Option<string>>): Table {
    if !IsAccepted(c) then t
    else
      var login := c.login.value;
      if login in t.entries then
        var existing := t.entries[login];
        Table(t.order, t.entries[login := existing.(contributions := existing.contributions + OrZero(c.contributions))])
      else Table(t.order + [login], t.entries[login := Fresh(c, users)])
  }

  /** The table after a sequence of items, in order. */
  function Merge(t: Table, items: seq<ContributorItem>, users: map<string, Option<string>>): Table {
    if items == [] then t
    else Step(Merge(t, items[..|items| - 1], users), items[|items| - 1], users)
  }

  /**
   * One item touches only its own login: an accepted item adds its login to
   * the keys, appending it to the order when it is new, and every other
   * entry is left as it was.
   */
  lemma StepShape(t: Table, c: ContributorItem, users: map<string, Option<string>>)
    ensures var r := Step(t, c, users);
      && t.order <= r.order && |r.order| <= |t.order| + 1
      && r.entries.Keys == t.entries.Keys + (if IsAccepted(c) then {c.login.value} else {})
      && forall x :: x in t.entries && !(IsAccepted(c) && x == c.login.value) ==> r.entries[x] == t.entries[x]
  {
  }

  /** Merging only appends to the order, at most one login per item, and never drops a login. */
  lemma {:induction false} MergeShape(t: Table, items: seq<ContributorItem>, users: map<string, Option<string>>)
    ensures var r := Merge(t, items, users);
      && t.order <= r.order && |r.order| <= |t.order| + |items|
      && t.entries.Keys <= r.entries.Keys
    decreases |items|
  {
    if items != [] {
      var init := items[..|items| - 1];
      MergeShape(t, init, users);
      StepShape(Merge(t, init, users), items[|items| - 1], users);
    }
  }

  lemma {:induction false} MergeConcat(t: Table, a: seq<ContributorItem>, b: seq<ContributorItem>,
                                       users: map<string, Option<string>>)
    ensures Merge(t, a + b, users) == Merge(Merge(t, a, users), b, users)
    decreases |b|
  {
    if b == [] {
      assert a + b == a;
    } else {
      var b0 := b[..|b| - 1];
      assert (a + b)[..|a + b| - 1] == a + b0;
      assert (a + b)[|a + b| - 1] == b[|b| - 1];
      MergeConcat(t, a, b0, users);
    }
  }

  /** One entry per login, listed once in insertion order, and each entry carries its own login. */
  ghost predicate Valid(t: Table) {
    && (forall i, j :: 0 <= i < j < |t.order| ==> t.order[i] != t.order[j])
    && (forall x :: x in t.entries <==> x in t.order)
    && (forall x :: x in t.entries ==> t.entries[x].login == x)
  }

  lemma StepValid(t: Table, c: ContributorItem, users: map<string, Option<string>>)
    requires Valid(t)
    ensures Valid(Step(t, c, users))
  {
  }

  lemma {:induction false} MergeValid(t: Table, items: seq<ContributorItem>, users: map<string, Option<string>>)
    requires Valid(t)
    ensures Valid(Merge(t, items, users))
    decreases |items|
  {
    if items != [] {
      MergeValid(t, items[..|items| - 1], users);
      StepValid(Merge(t, items[..|items| - 1], users), items[|items| - 1], users);
    }
  }

  /** The distinct logins of the accepted items. */
  function AcceptedLogins(items: seq<ContributorItem>): set<string> {
    set i | 0 <= i < |items| && IsAccepted(items[i]) :: items[i].login.value
  }

  /** The table's logins are the ones it started with together with every accepted login. */
  lemma {:induction false} MergeKeys(t: Table, items: seq<ContributorItem>, users: map<string, Option<string>>)
    ensures Merge(t, items, users).entries.Keys == t.entries.Keys + AcceptedLogins(items)
    decreases |items|
  {
    if items != [] {
      var init := items[..|items| - 1];
      MergeKeys(t, init, users);
      var last := items[|items| - 1];
      var a := AcceptedLogins(init);
      var b := AcceptedLogins(items);
      if IsAccepted(last) {
        assert b == a + {last.login.value} by {
          forall x | x in b ensures x in a + {last.login.value} {
            var i :| 0 <= i < |items| && IsAccepted(items[i]) && items[i].login.value == x;
            if i < |init| {
              assert init[i] == items[i];
            }
          }
          forall x | x in a ensures x in b {
            var i :| 0 <= i < |init| && IsAccepted(init[i]) && init[i].login.value == x;
            assert items[i] == init[i];
          }
          assert items[|items| - 1] == last;
        }
      } else {
        assert b == a by {
          forall x | x in b ensures x in a {
            var i :| 0 <= i < |items| && IsAccepted(items[i]) && items[i].login.value == x;
            assert i < |init|;
            assert init[i] == items[i];
          }
          forall x | x in a ensures x in b {
            var i :| 0 <= i < |init| && IsAccepted(init[i]) && init[i].login.value == x;
            assert items[i] == init[i];
          }
        }
      }
    }
  }

  /** The contributions of the accepted items for one login, a missing count being 0. */
  function ContributionsFor(items: seq<ContributorItem>, login: string): nat {
    if items == [] then 0
    else
      var last := items[|items| - 1];
      ContributionsFor(items[..|items| - 1], login)
        + (if IsAccepted(last) && last.login.value == login then OrZero(last.contributions) else 0)
  }

  /** Every login's entry sums that login's contributions over all the items merged into it. */
  lemma {:induction false} MergeContributions(t: Table, items: seq<ContributorItem>, users: map<string, Option<string>>,
                                              login: string)
    requires login in Merge(t, items, users).entries
    ensures Merge(t, items, users).entries[login].contributions ==
      (if login in t.entries then t.entries[login].contributions else 0) + ContributionsFor(items, login)
    decreases |items|
  {
    if items != [] {
      var init := items[..|items| - 1];
      if login in Merge(t, init, users).entries {
        MergeContributions(t, init, users, login);
      } else {
        MergeKeys(t, init, users);
        ContributionsForAbsent(init, login);
      }
    }
  }

  /** A login no accepted item carries has no contributions. */
  lemma {:induction false} ContributionsForAbsent(items: seq<ContributorItem>, login: string)
    requires login !in AcceptedLogins(items)
    ensures ContributionsFor(items, login) == 0
    decreases |items|
  {
    if items != [] {
      var init := items[..|items| - 1];
      assert AcceptedLogins(init) <= AcceptedLogins(items) by {
        forall x | x in AcceptedLogins(init) ensures x in AcceptedLogins(items) {
          var i :| 0 <= i < |init| && IsAccepted(init[i]) && init[i].login.value == x;
          assert items[i] == init[i];
        }
      }
      ContributionsForAbsent(init, login);
      assert IsAccepted(items[|items| - 1]) ==> items[|items| - 1].login.value in AcceptedLogins(items);
    }
  }

  /** Item `i` is the first accepted item that carries `login`. */
  predicate FirstAccepted(items: seq<ContributorItem>, i: int, login: string) {
    && 0 <= i < |items| && IsAccepted(items[i]) && items[i].login.value == login
    && forall j :: 0 <= j < i ==> !(IsAccepted(items[j]) && items[j].login.value == login)
  }

  /**
   * An entry keeps the name and links chosen when its login was first seen:
   * the fallbacks apply once, to the first accepted item with that login, and
   * later items only add contributions.
   */
  lemma {:induction false} MergeFirstSeen(t: Table, items: seq<ContributorItem>, users: map<string, Option<string>>,
                                          login: string)
    requires login in Merge(t, items, users).entries
    ensures login in t.entries ==>
      Merge(t, items, users).entries[login].(contributions := 0) == t.entries[login].(contributions := 0)
    ensures login !in t.entries ==> exists i ::
      && FirstAccepted(items, i, login)
      && Merge(t, items, users).entries[login].(contributions := 0) == Fresh(items[i], users).(contributions := 0)
    decreases |items|
  {
    if items != [] {
      var init := items[..|items| - 1];
      var last := items[|items| - 1];
      if login in Merge(t, init, users).entries {
        MergeFirstSeen(t, init, users, login);
        if login !in t.entries {
          var i :| && FirstAccepted(init, i, login)
                   && Merge(t, init, users).entries[login].(contributions := 0) == Fresh(init[i], users).(contributions := 0);
          FirstAcceptedPrefix(items, i, login);
        }
      } else {
        MergeKeys(t, init, users);
        if login !in t.entries {
          forall j | 0 <= j < |init| ensures !(IsAccepted(items[j]) && items[j].login.value == login) {
            assert items[j] == init[j];
          }
          assert FirstAccepted(items, |init|, login);
        }
      }
    }
  }

  /** The first accepted item of all but the last item is the first of all items. */
  lemma FirstAcceptedPrefix(items: seq<ContributorItem>, i: int, login: string)
    requires items != [] && FirstAccepted(items[..|items| - 1], i, login)
    ensures FirstAccepted(items, i, login) && items[i] == items[..|items| - 1][i]
  {
    forall j | 0 <= j < i ensures items[j] == items[..|items| - 1][j] { }
  }

  /** `Array.from(contributorsMap.values())`: the entries in insertion order. */
  function ValuesOf(order: seq<string>, entries: map<string, Contributor>): (r: seq<Contributor>)
    requires forall x :: x in order ==> x in entries
    ensures |r| == |order|
    ensures forall i :: 0 <= i < |r| ==> r[i] == entries[order[i]]
  {
    if order == [] then [] else ValuesOf(order[..|order| - 1], entries) + [entries[order[|order| - 1]]]
  }

  /** Changing the entry of a login not listed changes none of the values. */
  lemma ValuesFresh(order: seq<string>, entries: map<string, Contributor>, login: string, e: Contributor)
    requires forall x :: x in order ==> x in entries
    requires login !in order
    ensures ValuesOf(order, entries[login := e]) == ValuesOf(order, entries)
  {
  }

  /** Changing the entry of a login listed once changes the sum by the difference of its contributions. */
  lemma {:induction false} SumUpdate(order: seq<string>, entries: map<string, Contributor>, login: string, e: Contributor)
    requires forall x :: x in order ==> x in entries
    requires forall i, j :: 0 <= i < j < |order| ==> order[i] != order[j]
    requires login in order
    ensures Sum(ValuesOf(order, entries[login := e]), ContributionsOf) ==
      Sum(ValuesOf(order, entries), ContributionsOf) - entries[login].contributions + e.contributions
    decreases |order|
  {
    var init := order[..|order| - 1];
    var last := order[|order| - 1];
    var m := entries[login := e];
    SumConcat(ValuesOf(init, m), [m[last]], ContributionsOf);
    SumConcat(ValuesOf(init, entries), [entries[last]], ContributionsOf);
    if last == login {
      assert login !in init;
      ValuesFresh(init, entries, login, e);
    } else {
      assert login in init by {
        var i :| 0 <= i < |order| && order[i] == login;
        assert i < |order| - 1;
        assert init[i] == login;
      }
      SumUpdate(init, entries, login, e);
    }
  }

  /** The contributions of all accepted items, a missing count being 0. */
  function AcceptedTotal(items: seq<ContributorItem>): nat {
    if items == [] then 0
    else
      var last := items[|items| - 1];
      AcceptedTotal(items[..|items| - 1]) + (if IsAccepted(last) then OrZero(last.contributions) else 0)
  }

  lemma StepSum(t: Table, c: ContributorItem, users: map<string, Option<string>>)
    requires Valid(t)
    ensures Sum(ValuesOf(Step(t, c, users).order, Step(t, c, users).entries), ContributionsOf) ==
      Sum(ValuesOf(t.order, t.entries), ContributionsOf) + (if IsAccepted(c) then OrZero(c.contributions) else 0)
  {
    if IsAccepted(c) {
      var login := c.login.value;
      if login in t.entries {
        SumExisting(t, c, users);
      } else {
        assert Step(t, c, users) == Table(t.order + [login], t.entries[login := Fresh(c, users)]);
        SumFresh(t.order, t.entries, login, Fresh(c, users));
      }
    }
  }

  /** A login seen again adds the item's contributions to the sum. */
  lemma SumExisting(t: Table, c: ContributorItem, users: map<string, Option<string>>)
    requires Valid(t)
    requires IsAccepted(c) && c.login.value in t.entries
    ensures Sum(ValuesOf(Step(t, c, users).order, Step(t, c, users).entries), ContributionsOf) ==
      Sum(ValuesOf(t.order, t.entries), ContributionsOf) + OrZero(c.contributions)
  {
    var login := c.login.value;
    var existing := t.entries[login];
    var updated := existing.(contributions := existing.contributions + OrZero(c.contributions));
    assert Step(t, c, users) == Table(t.order, t.entries[login := updated]);
    SumUpdate(t.order, t.entries, login, updated);
  }

  /** A new login appended last adds its entry's contributions to the sum. */
  lemma SumFresh(order: seq<string>, entries: map<string, Contributor>, login: string, e: Contributor)
    requires forall x :: x in order ==> x in entries
    requires login !in order
    ensures Sum(ValuesOf(order + [login], entries[login := e]), ContributionsOf) ==
      Sum(ValuesOf(order, entries), ContributionsOf) + e.contributions
  {
    var m := entries[login := e];
    ValuesFresh(order, entries, login, e);
    assert (order + [login])[..|order|] == order;
    assert ValuesOf(order + [login], m) == ValuesOf(order, m) + [e];
    SumConcat(ValuesOf(order, m), [e], ContributionsOf);
  }

  /** The table's contributions grow by exactly the contributions of the accepted items merged. */
  lemma {:induction false} MergeSum(t: Table, items: seq<ContributorItem>, users: map<string, Option<string>>)
    requires Valid(t)
    ensures Valid(Merge(t, items, users))
    ensures Sum(ValuesOf(Merge(t, items, users).order, Merge(t, items, users).entries), ContributionsOf) ==
      Sum(ValuesOf(t.order, t.entries), ContributionsOf) + AcceptedTotal(items)
    decreases |items|
  {
    if items != [] {
      MergeSum(t, items[..|items| - 1], users);
      StepValid(Merge(t, items[..|items| - 1], users), items[|items| - 1], users);
      StepSum(Merge(t, items[..|items| - 1], users), items[|items| - 1], users);
    }
  }

  /** A sequence without repeats has as many distinct elements as entries. */
  lemma {:induction false} DistinctCard(s: seq<string>)
    requires forall i, j :: 0 <= i < j < |s| ==> s[i] != s[j]
    ensures |set x | x in s| == |s|
    decreases |s|
  {
    if s != [] {
      var init := s[..|s| - 1];
      DistinctCard(init);
      assert (set x | x in s) == (set x | x in init) + {s[|s| - 1]};
      assert s[|s| - 1] !in init;
    }
  }

  // ------------------------------------------------------------------ loops

  /** The items read for each package: `None` when a request throws, which aborts the collection. */
  function ReadPackages(listings: seq<Listing<ContributorItem>>): Option<seq<ContributorItem>> {
    if listings == [] then Some([])
    else
      match ReadPackages(listings[..|listings| - 1])
      case None => None
      case Some(items) =>
        var read := UntilShort(listings[|listings| - 1], 0, MaxPages);
        if read.thrown.Some? then None else Some(items + read.items)
  }

  /** The merged table, its values sorted by contributions, and their count. */
  function ContributorsFileOf(listings: seq<Listing<ContributorItem>>, users: map<string, Option<string>>,
                              timestamp: string): (r: Option<ContributorsFile>)
    ensures r.None? <==> ReadPackages(listings).None?
    ensures r.Some? ==> && r.value.totalContributors == |r.value.contributors|
                        && SortedDesc(r.value.contributors, ContributionsOf)
                        && r.value.timestamp == timestamp
  {
    match ReadPackages(listings)
    case None => None
    case Some(items) =>
      var t := Merge(EmptyTable, items, users);
      MergeValid(EmptyTable, items, users);
      var contributors := SortDesc(ValuesOf(t.order, t.entries), ContributionsOf);
      Some(ContributorsFile(|contributors|, contributors, timestamp))
  }

  /** The `for (const contributor of contributors)` loop over one page. */
  method MergePage(order0: seq<string>, entries0: map<string, Contributor>, data: seq<ContributorItem>,
                   users: map<string, Option<string>>)
    returns (order: seq<string>, entries: map<string, Contributor>)
    ensures Table(order, entries) == Merge(Table(order0, entries0), data, users)
  {
    order, entries := order0, entries0;
    var j := 0;
    while j < |data|
      invariant 0 <= j <= |data|
      invariant Table(order, entries) == Merge(Table(order0, entries0), data[..j], users)
    {
      var contributor := data[j];
      assert data[..j + 1][..j] == data[..j];
      assert data[..j + 1][j] == contributor;
      if contributor.login.Some? && contributor.login.value != "" && !EndsWith(contributor.login.value, "[bot]") {
        var login := contributor.login.value;
        if login in entries {
          var existing := entries[login];
          entries := entries[login := existing.(contributions := existing.contributions + OrZero(contributor.contributions))];
        } else {
          var name := if login in users then OrElse(users[login], login) else login;
          entries := entries[login := Contributor(login, name, OrElse(contributor.avatarUrl, ""),
                                                  OrElse(contributor.htmlUrl, "https://github.com/" + login),
                                                  OrZero(contributor.contributions))];
          order := order + [login];
        }
      }
      j := j + 1;
    }
    assert data[..|data|] == data;
  }

  /** The page loop for one package: pages 1 to 49, stopping at an empty or short page. */
  method MergePackage(l: Listing<ContributorItem>, order0: seq<string>, entries0: map<string, Contributor>,
                      users: map<string, Option<string>>)
    returns (thrown: bool, order: seq<string>, entries: map<string, Contributor>)
    ensures thrown <==> UntilShort(l, 0, MaxPages).thrown.Some?
    ensures !thrown ==> Table(order, entries) == Merge(Table(order0, entries0), UntilShort(l, 0, MaxPages).items, users)
  {
    order, entries := order0, entries0;
    var page := 1;
    ghost var all := UntilShort(l, 0, MaxPages);
    ghost var seen: seq<ContributorItem> := [];
    while page < MaxPages + 1
      invariant 1 <= page <= MaxPages + 1
      invariant all.items == seen + UntilShort(l, page - 1, MaxPages).items
      invariant all.thrown == UntilShort(l, page - 1, MaxPages).thrown
      invariant Table(order, entries) == Merge(Table(order0, entries0), seen, users)
    {
      var reply := Request(l, page - 1);
      ShortAdvance(l, page - 1, MaxPages, all, seen);
      if reply.Thrown? {
        return true, order, entries;
      }
      var contributors := reply.items;
      if |contributors| == 0 {
        break;
      }
      order, entries := MergePage(order, entries, contributors, users);
      MergeConcat(Table(order0, entries0), seen, contributors, users);
      seen := seen + contributors;
      if |contributors| < PerPage {
        break;
      }
      page := page + 1;
    }
    assert all.items == seen && all.thrown.None?;
    thrown := false;
  }

  /** `collectContributorsData`, without the file output; `None` when a listing request throws. */
  method CollectContributorsData(listings: seq<Listing<ContributorItem>>, users: map<string, Option<string>>,
                                 timestamp: string)
    returns (r: Option<ContributorsFile>)
    ensures r == ContributorsFileOf(listings, users, timestamp)
  {
    var order: seq<string> := [];
    var entries: map<string, Contributor> := map[];
    ghost var items: seq<ContributorItem> := [];
    var i := 0;
    while i < |listings|
      invariant 0 <= i <= |listings|
      invariant ReadPackages(listings[..i]) == Some(items)
      invariant Table(order, entries) == Merge(EmptyTable, items, users)
    {
      assert listings[..i + 1][..i] == listings[..i];
      assert listings[..i + 1][i] == listings[i];
      var thrown;
      thrown, order, entries := MergePackage(listings[i], order, entries, users);
      if thrown {
        ReadPackagesStops(listings, i + 1);
        return None;
      }
      MergeConcat(EmptyTable, items, UntilShort(listings[i], 0, MaxPages).items, users);
      items := items + UntilShort(listings[i], 0, MaxPages).items;
      i := i + 1;
    }
    assert listings[..|listings|] == listings;
    MergeValid(EmptyTable, items, users);
    var contributorsArray := SortDesc(ValuesOf(order, entries), ContributionsOf);
    r := Some(ContributorsFile(|contributorsArray|, contributorsArray, timestamp));
  }

  /** Once a package's listing throws, no later package can bring the collection back. */
  lemma {:induction false} ReadPackagesStops(listings: seq<Listing<ContributorItem>>, n: nat)
    requires 0 < n <= |listings|
    requires ReadPackages(listings[..n]).None?
    ensures ReadPackages(listings).None?
    decreases |listings| - n
  {
    if n < |listings| {
      assert listings[..n + 1][..n] == listings[..n];
      ReadPackagesStops(listings, n + 1);
    } else {
      assert listings[..n] == listings;
    }
  }

  // ------------------------------------------------------------ properties

  /** `total_contributors` is the number of listed contributors and of distinct accepted logins. */
  lemma ContributorsFileCount(listings: seq<Listing<ContributorItem>>, users: map<string, Option<string>>,
                              timestamp: string)
    requires ContributorsFileOf(listings, users, timestamp).Some?
    ensures var f := ContributorsFileOf(listings, users, timestamp).value;
      f.totalContributors == |f.contributors| == |AcceptedLogins(ReadPackages(listings).value)|
  {
    var items := ReadPackages(listings).value;
    var t := Merge(EmptyTable, items, users);
    MergeValid(EmptyTable, items, users);
    MergeKeys(EmptyTable, items, users);
    DistinctCard(t.order);
    assert (set x | x in t.order) == t.entries.Keys;
  }

  /** The file is sorted by contributions and lists every accepted login exactly once. */
  lemma ContributorsFileLogins(listings: seq<Listing<ContributorItem>>, users: map<string, Option<string>>,
                               timestamp: string)
    requires ContributorsFileOf(listings, users, timestamp).Some?
    ensures var f := ContributorsFileOf(listings, users, timestamp).value;
            var items := ReadPackages(listings).value;
      && SortedDesc(f.contributors, ContributionsOf)
      && (forall i, j :: 0 <= i < j < |f.contributors| ==> f.contributors[i].login != f.contributors[j].login)
      && (forall x :: x in AcceptedLogins(items) <==> exists i :: 0 <= i < |f.contributors| && f.contributors[i].login == x)
  {
    var items := ReadPackages(listings).value;
    var t := Merge(EmptyTable, items, users);
    MergeValid(EmptyTable, items, users);
    MergeKeys(EmptyTable, items, users);
    assert t.entries.Keys == AcceptedLogins(items);
    var f := ContributorsFileOf(listings, users, timestamp).value;
    DistinctLogins(ValuesOf(t.order, t.entries), f.contributors, t);
  }

  /** The listed contributions add up to those of all accepted items, a missing count being 0. */
  lemma ContributorsFileSum(listings: seq<Listing<ContributorItem>>, users: map<string, Option<string>>,
                            timestamp: string)
    requires ContributorsFileOf(listings, users, timestamp).Some?
    ensures Sum(ContributorsFileOf(listings, users, timestamp).value.contributors, ContributionsOf) ==
      AcceptedTotal(ReadPackages(listings).value)
  {
    var items := ReadPackages(listings).value;
    var t := Merge(EmptyTable, items, users);
    MergeSum(EmptyTable, items, users);
    SortDescKeepsSum(ValuesOf(t.order, t.entries), ContributionsOf, ContributionsOf);
  }

  /** The sorted file has the distinct logins of the value list. */
  lemma DistinctLogins(values: seq<Contributor>, sorted: seq<Contributor>, t: Table)
    requires Valid(t)
    requires values == ValuesOf(t.order, t.entries)
    requires multiset(sorted) == multiset(values)
    ensures forall i, j :: 0 <= i < j < |sorted| ==> sorted[i].login != sorted[j].login
    ensures forall x :: x in t.entries <==> exists i :: 0 <= i < |sorted| && sorted[i].login == x
  {
    ValuesDistinct(values, t);
    CountsAtMostOne(values);
    NoRepeats(sorted);
    SortedAreEntries(values, sorted, t);
    forall x | x in t.entries ensures exists i :: 0 <= i < |sorted| && sorted[i].login == x {
      var a :| 0 <= a < |t.order| && t.order[a] == x;
      assert values[a] in multiset(sorted);
      var i :| 0 <= i < |sorted| && sorted[i] == values[a];
    }
  }

  lemma ValuesDistinct(values: seq<Contributor>, t: Table)
    requires Valid(t)
    requires values == ValuesOf(t.order, t.entries)
    ensures forall a, b :: 0 <= a < b < |values| ==> values[a] != values[b]
  {
    forall a, b | 0 <= a < b < |values| ensures values[a] != values[b] {
      assert values[a].login == t.order[a] && values[b].login == t.order[b];
    }
  }

  /** Every contributor of a reordering of the values is the table's entry for its login. */
  lemma SortedAreEntries(values: seq<Contributor>, sorted: seq<Contributor>, t: Table)
    requires Valid(t)
    requires values == ValuesOf(t.order, t.entries)
    requires multiset(sorted) == multiset(values)
    ensures forall i :: 0 <= i < |sorted| ==> sorted[i].login in t.entries && sorted[i] == t.entries[sorted[i].login]
  {
    forall i | 0 <= i < |sorted| ensures sorted[i].login in t.entries && sorted[i] == t.entries[sorted[i].login] {
      assert sorted[i] in multiset(values);
      var a :| 0 <= a < |values| && values[a] == sorted[i];
      assert values[a] == t.entries[t.order[a]];
    }
  }

  /** A sequence without repeats holds every value at most once. */
  lemma {:induction false} CountsAtMostOne<T>(s: seq<T>)
    requires forall a, b :: 0 <= a < b < |s| ==> s[a] != s[b]
    ensures forall x :: multiset(s)[x] <= 1
    decreases |s|
  {
    if s != [] {
      CountsAtMostOne(s[1..]);
      assert s == [s[0]] + s[1..];
      assert s[0] !in s[1..];
    }
  }

  /** A sequence holding every value at most once has no repeats. */
  lemma {:induction false} NoRepeats<T>(s: seq<T>)
    requires forall x :: multiset(s)[x] <= 1
    ensures forall a, b :: 0 <= a < b < |s| ==> s[a] != s[b]
    decreases |s|
  {
    if s != [] {
      assert s == [s[0]] + s[1..];
      assert forall x :: multiset(s[1..])[x] <= multiset(s)[x];
      NoRepeats(s[1..]);
      assert multiset(s[1..])[s[0]] == 0;
      forall a, b | 0 <= a < b < |s| ensures s[a] != s[b] {
        if a > 0 {
          assert s[a] == s[1..][a - 1] && s[b] == s[1..][b - 1];
        } else {
          assert s[b] in s[1..];
        }
      }
    }
  }

  /**
   * Every entry's name is the profile's non-empty name or else the login; its
   * avatar and profile links are those of the first accepted item with that
   * login, `""` and `https://github.com/<login>` when that item has none; its
   * contributions are the login's total.
   */
  lemma EntryFallbacks(items: seq<ContributorItem>, users: map<string, Option<string>>, login: string)
    requires login in Merge(EmptyTable, items, users).entries
    ensures var e := Merge(EmptyTable, items, users).entries[login];
      && e.name == LookupName(users, login)
      && e.name != ""
      && e.htmlUrl != ""
      && e.contributions == ContributionsFor(items, login)
      && exists i :: && FirstAccepted(items, i, login)
                     && e.avatarUrl == OrElse(items[i].avatarUrl, "")
                     && e.htmlUrl == OrElse(items[i].htmlUrl, "https://github.com/" + login)
  {
    MergeFirstSeen(EmptyTable, items, users, login);
    MergeContributions(EmptyTable, items, users, login);
  }

  /** A package costs at most 49 page requests. */
  lemma PagesBounded(l: Listing<ContributorItem>)
    ensures UntilShort(l, 0, MaxPages).requests <= MaxPages
  {
    UntilShortShape(l, 0, MaxPages);
  }

  // ------------------------------------------------- the final schema check

  /**
   * `collectContributorsData` as written: `ContributorsDataSchema.parse`
   * requires every `avatar_url` to be a URL, so the empty fallback of a
   * contributor listed without one makes it throw, and no file is written.
   */
  function ContributorsFileOfAsWritten(listings: seq<Listing<ContributorItem>>, users: map<string, Option<string>>,
                                       timestamp: string): (r: Option<ContributorsFile>)
    ensures r.Some? ==> r == ContributorsFileOf(listings, users, timestamp)
    ensures r.Some? ==> forall i :: 0 <= i < |r.value.contributors| ==> r.value.contributors[i].avatarUrl != ""
    ensures ContributorsFileOf(listings, users, timestamp).Some? && r.None? ==>
      var f := ContributorsFileOf(listings, users, timestamp).value;
      exists i :: 0 <= i < |f.contributors| && f.contributors[i].avatarUrl == ""
  {
    match ContributorsFileOf(listings, users, timestamp)
    case None => None
    case Some(f) =>
      if exists i :: 0 <= i < |f.contributors| && f.contributors[i].avatarUrl == "" then None else Some(f)
  }

  /** One contributor listed without `avatar_url`: as written nothing is saved, while the fallbacks meant a saved entry. */
  lemma MissingAvatarExample()
    ensures var l := Listing([[ContributorItem(Some("alice"), None, None, Some(3))]], None);
      && ContributorsFileOfAsWritten([l], map[], "now").None?
      && ContributorsFileOf([l], map[], "now") ==
           Some(ContributorsFile(1, [Contributor("alice", "alice", "", "https://github.com/alice", 3)], "now"))
  {
    var item := ContributorItem(Some("alice"), None, None, Some(3));
    var e := Contributor("alice", "alice", "", "https://github.com/alice", 3);
    var l := Listing([[item]], None);
    ExampleFile(l, item, e);
    var f := ContributorsFile(1, [e], "now");
    assert f.contributors[0].avatarUrl == "";
  }

  lemma ExampleFile(l: Listing<ContributorItem>, item: ContributorItem, e: Contributor)
    requires item == ContributorItem(Some("alice"), None, None, Some(3))
    requires e == Contributor("alice", "alice", "", "https://github.com/alice", 3)
    requires l == Listing([[item]], None)
    ensures ContributorsFileOf([l], map[], "now") == Some(ContributorsFile(1, [e], "now"))
  {
    ExampleRead(item);
    ExampleMerge(item, e);
    var t := Merge(EmptyTable, [item], map[]);
    assert ValuesOf(t.order, t.entries) == [e];
    assert SortDesc([e], ContributionsOf) == [e];
  }

  lemma ExampleRead(item: ContributorItem)
    ensures ReadPackages([Listing([[item]], None)]) == Some([item])
  {
    var l := Listing([[item]], None);
    assert UntilShort(l, 0, MaxPages) == Read([item], 1, None);
    assert [l][..0] == [];
    assert ReadPackages([]) == Some([]);
    assert [] + [item] == [item];
  }

  lemma ExampleMerge(item: ContributorItem, e: Contributor)
    requires item == ContributorItem(Some("alice"), None, None, Some(3))
    requires e == Contributor("alice", "alice", "", "https://github.com/alice", 3)
    ensures Merge(EmptyTable, [item], map[]) == Table(["alice"], map["alice" := e])
  {
    assert [item][..0] == [];
    assert !EndsWith("alice", "[bot]");
    assert "https://github.com/" + "alice" == "https://github.com/alice";
    assert Fresh(item, map[]) == e;
  }
}
