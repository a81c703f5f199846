/**
 * Paginated listings of the GitHub REST API, with the network replaced by data.
 * A listing is the sequence of pages the server would answer, numbered from 0
 * here (the source's `page` starts at 1), plus what happens past the last page.
 */
module Paging {
  import opened Common

  /** Every paginated request of the collectors asks for `per_page: 100`. */
  const PerPage: nat := 100

  /** The server never answers more items than were asked for. */
  type Page<T> = s: seq<T> | |s| <= PerPage witness []

  /**
   * `pages[i]` answers the request for page i + 1. A request past the last
   * given page is answered with an empty page, or throws with the HTTP status
   * in `failure` when that is present.
   */
  datatype Listing<T> = Listing(pages: seq<Page<T>>, failure: Option<int>)

  datatype Reply<T> = Served(items: Page<T>) | Thrown(status: int)

  /** The answer to the request for page index `i`. */
  function Request<T>(l: Listing<T>, i: nat): (r: Reply<T>)
    ensures r.Served? && r.items != [] ==> i < |l.pages|
    ensures i < |l.pages| ==> r == Served(l.pages[i])
  {
    if i < |l.pages| then Served(l.pages[i])
    else if l.failure.Some? then Thrown(l.failure.value)
    else Served([])
  }

  /**
   * What a traversal saw: the items of the pages it was served, the number of
   * requests it made, and the status of the request that threw, if one did.
   */
  datatype Read<T> = Read(items: seq<T>, requests: nat, thrown: Option<int>)

  /**
   * The loop `while (page < limit) { fetch; if empty break; ...; if short break; page++ }`
   * from page index `i`: another page is requested only after a full one.
   */
  function UntilShort<T>(l: Listing<T>, i: nat, limit: nat): Read<T>
    decreases |l.pages| - i
  {
    if i >= limit then Read([], 0, None)
    else match Request(l, i)
      case Thrown(s) => Read([], 1, Some(s))
      case Served(xs) =>
        if xs == [] then Read([], 1, None)
        else if |xs| < PerPage then Read(xs, 1, None)
        else
          var rest := UntilShort(l, i + 1, limit);
          Read(xs + rest.items, 1 + rest.requests, rest.thrown)
  }

  /**
   * The shape of an `UntilShort` traversal: it makes at most `limit - i`
   * requests, reads at most a page per request, is served a full page on
   * every request but the last, and stops on a throw, an empty or short page,
   * or the cap.
   */
  lemma {:induction false} UntilShortShape<T>(l: Listing<T>, i: nat, limit: nat)
    ensures var r := UntilShort(l, i, limit);
      && r.requests <= (if i < limit then limit - i else 0)
      && |r.items| <= PerPage * r.requests
      && FullPages(l, i, i + r.requests - 1)
      && (r.requests > 0 && r.thrown.None? && i + r.requests < limit ==>
            var last := i + r.requests - 1; last >= |l.pages| || |l.pages[last]| < PerPage)
      && (r.thrown.Some? ==> r.requests > 0 && i + r.requests - 1 >= |l.pages| && l.failure == r.thrown)
    decreases |l.pages| - i
  {
    if i < limit && i < |l.pages| && |l.pages[i]| == PerPage {
      UntilShortShape(l, i + 1, limit);
    }
  }

  /** Pages `from` up to but excluding `to` are given and full. */
  predicate FullPages<T>(l: Listing<T>, from: int, to: int) {
    forall k :: from <= k < to ==> 0 <= k < |l.pages| && |l.pages[k]| == PerPage
  }

  /** One step of `UntilShort`: what the reply to page `i` decides. */
  lemma UntilShortStep<T>(l: Listing<T>, i: nat, limit: nat)
    requires i < limit
    ensures var r := UntilShort(l, i, limit);
      match Request(l, i)
      case Thrown(s) => r == Read([], 1, Some(s))
      case Served(xs) =>
        (xs == [] ==> r == Read([], 1, None)) &&
        (0 < |xs| < PerPage ==> r == Read(xs, 1, None)) &&
        (|xs| == PerPage ==> var rest := UntilShort(l, i + 1, limit);
                             r == Read(xs + rest.items, 1 + rest.requests, rest.thrown))
  {
  }

  /**
   * One iteration of a loop that walks an `UntilShort` traversal: when the
   * items seen so far followed by the traversal from page `i` make up `all`,
   * the reply to page `i` either ends the loop with everything seen, or moves
   * the traversal on to page `i + 1`.
   */
  lemma ShortAdvance<T>(l: Listing<T>, i: nat, limit: nat, all: Read<T>, seen: seq<T>)
    requires i < limit
    requires all.items == seen + UntilShort(l, i, limit).items
    requires all.thrown == UntilShort(l, i, limit).thrown
    ensures match Request(l, i)
      case Thrown(s) => all.thrown == Some(s) && all.items == seen
      case Served(xs) =>
        (xs == [] ==> all.items == seen && all.thrown.None?) &&
        (|xs| < PerPage ==> all.items == seen + xs && all.thrown.None?) &&
        (|xs| == PerPage ==>
           all.items == (seen + xs) + UntilShort(l, i + 1, limit).items &&
           all.thrown == UntilShort(l, i + 1, limit).thrown)
  {
    UntilShortStep(l, i, limit);
    match Request(l, i)
    case Thrown(_) =>
      assert all.items == seen + [];
    case Served(xs) =>
      if xs == [] {
        assert seen + xs == seen + [];
      } else if |xs| == PerPage {
        AppendAssoc(seen, xs, UntilShort(l, i + 1, limit).items);
      }
  }

  /** The uncapped `while (true)` form: past the last given page the reply is empty or throws. */
  function AllPages<T>(l: Listing<T>): Read<T> {
    UntilShort(l, 0, |l.pages| + 1)
  }

  /**
   * The loop `while (page < limit) { fetch; if empty break; ...; page++ }` from
   * page index `i`: a short page does not end it, only an empty one, a throw or the cap.
   */
  function UntilEmpty<T>(l: Listing<T>, i: nat, limit: nat): Read<T>
    decreases |l.pages| - i
  {
    if i >= limit then Read([], 0, None)
    else match Request(l, i)
      case Thrown(s) => Read([], 1, Some(s))
      case Served(xs) =>
        if xs == [] then Read([], 1, None)
        else
          var rest := UntilEmpty(l, i + 1, limit);
          Read(xs + rest.items, 1 + rest.requests, rest.thrown)
  }

  /** An `UntilEmpty` traversal makes at most `limit - i` requests and reads at most a page per request. */
  lemma {:induction false} UntilEmptyBounds<T>(l: Listing<T>, i: nat, limit: nat)
    ensures var r := UntilEmpty(l, i, limit);
      && r.requests <= (if i < limit then limit - i else 0)
      && |r.items| <= PerPage * r.requests
      && (r.thrown.Some? ==> l.failure == r.thrown)
    decreases |l.pages| - i
  {
    if i < limit && i < |l.pages| && l.pages[i] != [] {
      UntilEmptyBounds(l, i + 1, limit);
    }
  }

  /** One step of `UntilEmpty`: what the reply to page `i` decides. */
  lemma UntilEmptyStep<T>(l: Listing<T>, i: nat, limit: nat)
    requires i < limit
    ensures var r := UntilEmpty(l, i, limit);
      match Request(l, i)
      case Thrown(s) => r == Read([], 1, Some(s))
      case Served(xs) =>
        (xs == [] ==> r == Read([], 1, None)) &&
        (xs != [] ==> var rest := UntilEmpty(l, i + 1, limit);
                      r == Read(xs + rest.items, 1 + rest.requests, rest.thrown))
  {
  }

  /** One iteration of a loop that walks an `UntilEmpty` traversal; see `ShortAdvance`. */
  lemma EmptyAdvance<T>(l: Listing<T>, i: nat, limit: nat, all: Read<T>, seen: seq<T>)
    requires i < limit
    requires all.items == seen + UntilEmpty(l, i, limit).items
    requires all.thrown == UntilEmpty(l, i, limit).thrown
    ensures match Request(l, i)
      case Thrown(s) => all.thrown == Some(s) && all.items == seen
      case Served(xs) =>
        (xs == [] ==> all.items == seen && all.thrown.None?) &&
        (xs != [] ==>
           all.items == (seen + xs) + UntilEmpty(l, i + 1, limit).items &&
           all.thrown == UntilEmpty(l, i + 1, limit).thrown)
  {
    UntilEmptyStep(l, i, limit);
    match Request(l, i)
    case Thrown(_) =>
      assert all.items == seen + [];
    case Served(xs) =>
      if xs == [] {
        assert seen + xs == seen + [];
      } else {
        AppendAssoc(seen, xs, UntilEmpty(l, i + 1, limit).items);
      }
  }

  /** On a listing that never throws, the uncapped traversal sees every page it was given. */
  lemma {:induction false} AllPagesSeesEverything<T>(l: Listing<T>, i: nat)
    requires l.failure.None?
    requires i <= |l.pages|
    requires forall k :: i <= k < |l.pages| ==> |l.pages[k]| == PerPage
    ensures UntilShort(l, i, |l.pages| + 1).thrown.None?
    ensures UntilShort(l, i, |l.pages| + 1).items == Concat(l.pages[i..])
    decreases |l.pages| - i
  {
    if i < |l.pages| {
      AllPagesSeesEverything(l, i + 1);
      assert l.pages[i..] == [l.pages[i]] + l.pages[i + 1..];
    }
  }

  /** The items of a sequence of pages, in order. */
  function Concat<T>(ps: seq<seq<T>>): seq<T> {
    if ps == [] then [] else ps[0] + Concat(ps[1..])
  }
}
