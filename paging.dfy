/**
 * The paginated fetcher (`fetch` in repos/index.js and repos/github.js) and
 * the join over several fetches (`Promise.all`).
 *
 * The remote search API is replaced by the sequence of answers it gives, in
 * the order the fetcher asks for them: each answer is either a page of items
 * with a "has next page" flag, or an error with its status code.  A 403
 * (rate limited) makes the fetcher send its original request again, which
 * asks for the first page, while the items collected so far are kept; in
 * this sequence a 403 uses up one answer and changes nothing else.  When the
 * answers run out before the fetch settles, the promise is still pending.
 * `Served` derives the answers from a server holding fixed pages, which
 * shows what re-sending the original request does after the first page.
 */
module Paging {
  import opened JsSeq

  /** The status the search API answers with when the caller is rate limited. */
  const RateLimitedStatus := 403

  datatype Response<T> = Page(items: seq<T>, hasNextPage: bool) | Error(code: int)

  /** How a fetch ends: `requests` counts the calls made to the API, retries included. */
  datatype FetchOutcome<T> =
    | Resolved(items: seq<T>, requests: nat)
    | Rejected(code: int, requests: nat)
    | Pending(items: seq<T>)

  /** The fetch, from the `i`-th answer on, with `items` collected so far. */
  function FetchFrom<T>(responses: seq<Response<T>>, i: nat, limit: int, items: seq<T>): FetchOutcome<T>
    requires i <= |responses|
    decreases |responses| - i
  {
    if i == |responses| then Pending(items)
    else
      match responses[i]
      case Error(code) =>
        if code == RateLimitedStatus then FetchFrom(responses, i + 1, limit, items)
        else Rejected(code, i + 1)
      case Page(page, more) =>
        var items' := items + Slice(page, 0, limit - |items|);
        if |items'| >= limit || !more then Resolved(items', i + 1)
        else FetchFrom(responses, i + 1, limit, items')
  }

  function FetchSpec<T>(responses: seq<Response<T>>, limit: int): FetchOutcome<T>
  {
    FetchFrom(responses, 0, limit, [])
  }

  /** `fetch(method, args, limit)`: the `recv` callback, run once per answer. */
  method Fetch<T>(responses: seq<Response<T>>, limit: int) returns (outcome: FetchOutcome<T>)
    ensures outcome == FetchSpec(responses, limit)
  {
    var items: seq<T> := [];
    var i := 0;
    while i < |responses|
      invariant i <= |responses|
      invariant FetchFrom(responses, i, limit, items) == FetchSpec(responses, limit)
    {
      match responses[i] {
        case Error(code) =>
          if code != RateLimitedStatus {
            return Rejected(code, i + 1);
          }
        case Page(page, more) =>
          var batch := Slice(page, 0, limit - |items|);
          ghost var before := items;
          var k := 0;
          while k < |batch|
            invariant k <= |batch|
            invariant items == before + batch[..k]
          {
            items := items + [batch[k]];
            k := k + 1;
          }
          assert batch[..k] == batch;
          if |items| >= limit || !more {
            return Resolved(items, i + 1);
          }
      }
      i := i + 1;
    }
    return Pending(items);
  }

  // ---------------------------------------------------------------------
  // What a fetch means, stated independently of the loop

  function ItemsOf<T>(r: Response<T>): seq<T>
  {
    match r
    case Page(items, _) => items
    case Error(_) => []
  }

  /** All items on the pages among `responses`, in order. */
  function PageItems<T>(responses: seq<Response<T>>): seq<T>
  {
    if responses == [] then []
    else PageItems(responses[..|responses| - 1]) + ItemsOf(responses[|responses| - 1])
  }

  /** The `k`-th answer leaves the fetch running: a rate limit, or a page that has a successor and keeps the total under the limit. */
  predicate Continues<T>(responses: seq<Response<T>>, k: nat, limit: nat)
    requires k < |responses|
  {
    match responses[k]
    case Error(code) => code == RateLimitedStatus
    case Page(_, more) => more && |PageItems(responses[..k + 1])| < limit
  }

  predicate ContinuesBefore<T>(responses: seq<Response<T>>, n: nat, limit: nat)
    requires n <= |responses|
  {
    forall k :: 0 <= k < n ==> Continues(responses, k, limit)
  }

  /**
   * A resolved fetch made `n` requests: every answer before the `n`-th kept it
   * running, the `n`-th is a page that reached the limit or had no successor,
   * and the items are the first `limit` items of those pages.  A rejected
   * fetch stopped at its first error other than 403.  A pending one used up
   * every answer without settling.
   */
  ghost predicate FetchMeans<T>(responses: seq<Response<T>>, limit: nat, outcome: FetchOutcome<T>)
  {
    match outcome
    case Resolved(items, n) =>
      1 <= n <= |responses| && ContinuesBefore(responses, n - 1, limit) &&
      responses[n - 1].Page? && !Continues(responses, n - 1, limit) &&
      items == Take(PageItems(responses[..n]), limit)
    case Rejected(code, n) =>
      1 <= n <= |responses| && ContinuesBefore(responses, n - 1, limit) &&
      responses[n - 1] == Error(code) && code != RateLimitedStatus
    case Pending(items) =>
      ContinuesBefore(responses, |responses|, limit) && items == PageItems(responses)
  }

  lemma TakeAppend<T>(a: seq<T>, b: seq<T>, n: nat)
    requires |a| <= n
    ensures a + Take(b, n - |a|) == Take(a + b, n)
  {
    if n - |a| < |b| {
      assert (a + b)[..n] == a + b[..n - |a|];
    }
  }

  lemma {:induction false} FetchFromMeans<T>(responses: seq<Response<T>>, i: nat, limit: nat, items: seq<T>)
    requires i <= |responses|
    requires items == PageItems(responses[..i]) && |items| <= limit
    requires ContinuesBefore(responses, i, limit)
    ensures FetchMeans(responses, limit, FetchFrom(responses, i, limit, items))
    decreases |responses| - i
  {
    if i == |responses| {
      assert responses[..i] == responses;
    } else {
      match responses[i]
      case Error(code) =>
        if code == RateLimitedStatus {
          PageItemsStep(responses, i);
          assert ContinuesBefore(responses, i + 1, limit);
          FetchFromMeans(responses, i + 1, limit, items);
        }
      case Page(page, more) =>
        var items' := items + Slice(page, 0, limit - |items|);
        PageStep(responses, i, limit, items);
        if !(|items'| >= limit || !more) {
          assert ContinuesBefore(responses, i + 1, limit);
          FetchFromMeans(responses, i + 1, limit, items');
        }
    }
  }

  lemma PageItemsStep<T>(responses: seq<Response<T>>, i: nat)
    requires i < |responses|
    ensures PageItems(responses[..i + 1]) == PageItems(responses[..i]) + ItemsOf(responses[i])
  {
    assert responses[..i + 1][..i] == responses[..i];
  }

  /** One page: the collected items are the first `limit` of all pages so far, and the fetch goes on exactly when the answer continues it. */
  lemma PageStep<T>(responses: seq<Response<T>>, i: nat, limit: nat, items: seq<T>)
    requires i < |responses| && responses[i].Page?
    requires items == PageItems(responses[..i]) && |items| <= limit
    ensures var items' := items + Slice(responses[i].items, 0, limit - |items|);
      && items' == Take(PageItems(responses[..i + 1]), limit)
      && (!(|items'| >= limit || !responses[i].hasNextPage) <==> Continues(responses, i, limit))
      && (Continues(responses, i, limit) ==> items' == PageItems(responses[..i + 1]))
  {
    var page := responses[i].items;
    PageItemsStep(responses, i);
    var all := PageItems(responses[..i + 1]);
    assert all == items + page;
    SliceFromStart(page, limit - |items|);
    TakeAppend(items, page, limit);
    TakeBounds(all, limit);
  }

  /** The loop-free reading of `fetch`: what it returns and when it stops asking. */
  lemma FetchSpecMeans<T>(responses: seq<Response<T>>, limit: nat)
    ensures FetchMeans(responses, limit, FetchSpec(responses, limit))
  {
    FetchFromMeans(responses, 0, limit, []);
  }

  lemma {:induction false} PageItemsPrefix<T>(responses: seq<Response<T>>, n: nat)
    requires n <= |responses|
    ensures PageItems(responses[..n]) <= PageItems(responses)
    decreases |responses| - n
  {
    if n < |responses| {
      PageItemsPrefix(responses, n + 1);
      assert responses[..n + 1][..n] == responses[..n];
    } else {
      assert responses[..n] == responses;
    }
  }

  /** A fetch never returns more than `limit` items, and what it returns is a prefix of all the pages' items. */
  lemma FetchBoundedPrefix<T>(responses: seq<Response<T>>, limit: nat)
    ensures FetchSpec(responses, limit).Resolved? ==>
      |FetchSpec(responses, limit).items| <= limit && FetchSpec(responses, limit).items <= PageItems(responses)
  {
    var outcome := FetchSpec(responses, limit);
    FetchSpecMeans(responses, limit);
    if outcome.Resolved? {
      var all := PageItems(responses[..outcome.requests]);
      TakeBounds(all, limit);
      PageItemsPrefix(responses, outcome.requests);
    }
  }

  /** Three pages of ten with a limit of 25 give 25 items and no request for the fourth page. */
  lemma ThreePagesOfTen<T>(a: seq<T>, b: seq<T>, c: seq<T>, d: seq<T>)
    requires |a| == 10 && |b| == 10 && |c| == 10 && |d| == 10
    ensures FetchSpec([Page(a, true), Page(b, true), Page(c, true), Page(d, false)], 25) == Resolved(a + b + c[..5], 3)
  {
    var rs := [Page(a, true), Page(b, true), Page(c, true), Page(d, false)];
    assert Slice(a, 0, 25) == a;
    assert Slice(b, 0, 15) == b;
    assert Slice(c, 0, 5) == c[..5];
    assert [] + a == a;
    assert FetchFrom(rs, 0, 25, []) == FetchFrom(rs, 1, 25, a);
    assert FetchFrom(rs, 1, 25, a) == FetchFrom(rs, 2, 25, a + b);
    assert FetchFrom(rs, 2, 25, a + b) == Resolved(a + b + c[..5], 3);
  }

  /** A rate-limited first request is sent again, and the page it then gets settles the fetch. */
  lemma RateLimitedThenPage<T>(page: seq<T>, limit: nat)
    ensures FetchSpec([Error(RateLimitedStatus), Page(page, false)], limit) == Resolved(Take(page, limit), 2)
  {
    var rs := [Error(RateLimitedStatus), Page(page, false)];
    SliceFromStart(page, limit);
    assert [] + Take(page, limit) == Take(page, limit);
    assert FetchFrom(rs, 0, limit, []) == FetchFrom(rs, 1, limit, []);
  }

  // ---------------------------------------------------------------------
  // Where the answers come from: a server holding fixed pages

  /**
   * The answers a server holding `pages` gives from the `t`-th request on,
   * with the fetcher at page `k`; `limited[t]` says whether the `t`-th
   * request is rate limited, and the schedule's end leaves the fetch
   * pending.  After a 403 the next request is for the first page when
   * `restart` holds (the original `args` sent again, as written), and for
   * page `k` again otherwise.
   */
  function Served<T>(pages: seq<seq<T>>, limited: seq<bool>, t: nat, k: nat, restart: bool): seq<Response<T>>
    requires k < |pages| && t <= |limited|
    decreases |limited| - t
  {
    if t == |limited| then []
    else if limited[t] then [Error(RateLimitedStatus)] + Served(pages, limited, t + 1, if restart then 0 else k, restart)
    else if k + 1 == |pages| then [Page(pages[k], false)]
    else [Page(pages[k], true)] + Served(pages, limited, t + 1, k + 1, restart)
  }

  /**
   * As written: a 403 on the request for the second page sends the original
   * request again, the first page comes back, and its items are collected twice.
   */
  lemma RetryRestartsFromFirstPage<T>(a: seq<T>, b: seq<T>)
    requires 2 * |a| + |b| < 100
    ensures Served([a, b], [false, true, false, false], 0, 0, true)
      == [Page(a, true), Error(RateLimitedStatus), Page(a, true), Page(b, false)]
    ensures FetchSpec(Served([a, b], [false, true, false, false], 0, 0, true), 100) == Resolved(a + a + b, 4)
  {
    var rs := [Page(a, true), Error(RateLimitedStatus), Page(a, true), Page(b, false)];
    assert Served([a, b], [false, true, false, false], 3, 1, true) == [Page(b, false)];
    assert Served([a, b], [false, true, false, false], 2, 0, true) == [Page(a, true), Page(b, false)];
    assert Slice(a, 0, 100) == a;
    assert Slice(a, 0, 100 - |a|) == a;
    assert Slice(b, 0, 100 - 2 * |a|) == b;
    assert [] + a == a;
    assert FetchFrom(rs, 0, 100, []) == FetchFrom(rs, 2, 100, a);
    assert FetchFrom(rs, 2, 100, a) == FetchFrom(rs, 3, 100, a + a);
  }

  /** Retrying the failed page instead: the same schedule collects each page once. */
  lemma RetrySamePageExample<T>(a: seq<T>, b: seq<T>)
    requires |a| + |b| < 100
    ensures FetchSpec(Served([a, b], [false, true, false, false], 0, 0, false), 100) == Resolved(a + b, 3)
  {
    var rs := [Page(a, true), Error(RateLimitedStatus), Page(b, false)];
    assert Served([a, b], [false, true, false, false], 2, 1, false) == [Page(b, false)];
    assert Served([a, b], [false, true, false, false], 0, 0, false) == rs;
    assert Slice(a, 0, 100) == a;
    assert Slice(b, 0, 100 - |a|) == b;
    assert [] + a == a;
    assert FetchFrom(rs, 0, 100, []) == FetchFrom(rs, 2, 100, a);
  }

  /**
   * Retrying the failed page: whatever the rate limits, a resolved fetch
   * returns a prefix of the pages' items in page order, each page at most once.
   */
  lemma RetrySamePageNoDuplicates<T>(pages: seq<seq<T>>, limited: seq<bool>, limit: nat)
    requires |pages| >= 1
    ensures var outcome := FetchSpec(Served(pages, limited, 0, 0, false), limit);
      outcome.Resolved? ==> |outcome.items| <= limit && outcome.items <= Flatten(pages)
  {
    FetchBoundedPrefix(Served(pages, limited, 0, 0, false), limit);
    ServedSamePageItems(pages, limited, 0, 0);
    assert pages[0..] == pages;
  }

  lemma {:induction false} ServedSamePageItems<T>(pages: seq<seq<T>>, limited: seq<bool>, t: nat, k: nat)
    requires k < |pages| && t <= |limited|
    ensures PageItems(Served(pages, limited, t, k, false)) <= Flatten(pages[k..])
    decreases |limited| - t
  {
    if t < |limited| {
      if limited[t] {
        ServedSamePageItems(pages, limited, t + 1, k);
        ServedLimitedStep(pages, limited, t, k);
      } else if k + 1 == |pages| {
        ServedLastStep(pages, limited, t, k);
      } else {
        ServedSamePageItems(pages, limited, t + 1, k + 1);
        ServedPageStep(pages, limited, t, k);
      }
    }
  }

  lemma FlattenFrom<T>(pages: seq<seq<T>>, k: nat)
    requires k < |pages|
    ensures Flatten(pages[k..]) == pages[k] + Flatten(pages[k + 1..])
  {
    assert pages[k..][0] == pages[k] && pages[k..][1..] == pages[k + 1..];
  }

  /** A rate-limited request adds no items. */
  lemma ServedLimitedStep<T>(pages: seq<seq<T>>, limited: seq<bool>, t: nat, k: nat)
    requires k < |pages| && t < |limited| && limited[t]
    ensures PageItems(Served(pages, limited, t, k, false)) == PageItems(Served(pages, limited, t + 1, k, false))
  {
    var tail := Served(pages, limited, t + 1, k, false);
    assert Served(pages, limited, t, k, false) == [Error(RateLimitedStatus)] + tail;
    PageItemsCons(Error(RateLimitedStatus), tail);
    assert [] + PageItems(tail) == PageItems(tail);
  }

  /** The last page ends the fetch with its own items. */
  lemma ServedLastStep<T>(pages: seq<seq<T>>, limited: seq<bool>, t: nat, k: nat)
    requires k + 1 == |pages| && t < |limited| && !limited[t]
    ensures PageItems(Served(pages, limited, t, k, false)) <= Flatten(pages[k..])
  {
    FlattenFrom(pages, k);
    assert Served(pages, limited, t, k, false) == [Page(pages[k], false)] + [];
    PageItemsCons(Page(pages[k], false), []);
    PrefixAppend(pages[k], [], Flatten(pages[k + 1..]));
    assert pages[k] + [] == pages[k];
  }

  /** A page with a successor puts its items in front of what the next request gives. */
  lemma ServedPageStep<T>(pages: seq<seq<T>>, limited: seq<bool>, t: nat, k: nat)
    requires k + 1 < |pages| && t < |limited| && !limited[t]
    requires PageItems(Served(pages, limited, t + 1, k + 1, false)) <= Flatten(pages[k + 1..])
    ensures PageItems(Served(pages, limited, t, k, false)) <= Flatten(pages[k..])
  {
    FlattenFrom(pages, k);
    var tail := Served(pages, limited, t + 1, k + 1, false);
    assert Served(pages, limited, t, k, false) == [Page(pages[k], true)] + tail;
    PageItemsCons(Page(pages[k], true), tail);
    PrefixAppend(pages[k], PageItems(tail), Flatten(pages[k + 1..]));
  }

  lemma PrefixAppend<T>(a: seq<T>, x: seq<T>, y: seq<T>)
    requires x <= y
    ensures a + x <= a + y
  {
    assert (a + y)[..|a + x|] == a + y[..|x|];
  }

  lemma {:induction false} PageItemsCons<T>(r: Response<T>, rest: seq<Response<T>>)
    ensures PageItems([r] + rest) == ItemsOf(r) + PageItems(rest)
    decreases |rest|
  {
    var all := [r] + rest;
    if rest == [] {
      assert all == [r];
      assert [r][..0] == [];
    } else {
      var init := rest[..|rest| - 1];
      PageItemsCons(r, init);
      assert all[..|all| - 1] == [r] + init;
      assert all[|all| - 1] == rest[|rest| - 1];
      assert PageItems(all) == PageItems([r] + init) + ItemsOf(rest[|rest| - 1]);
      assert PageItems(rest) == PageItems(init) + ItemsOf(rest[|rest| - 1]);
    }
  }

  // ---------------------------------------------------------------------
  // Promise.all over several fetches

  /** How a join of several fetches ends (the model takes the lowest-numbered rejection as the first). */
  datatype JoinOutcome<T> = AllResolved(results: seq<seq<T>>) | AnyRejected(code: int) | NotSettled

  function JoinAll<T>(outcomes: seq<FetchOutcome<T>>): JoinOutcome<T>
  {
    if outcomes == [] then AllResolved([])
    else
      var rest := JoinAll(outcomes[1..]);
      match outcomes[0]
      case Rejected(code, _) => AnyRejected(code)
      case Resolved(items, _) => if rest.AllResolved? then AllResolved([items] + rest.results) else rest
      case Pending(_) => if rest.AnyRejected? then rest else NotSettled
  }

  /** The join resolves exactly when every fetch resolved, with their items in group order; it rejects exactly when some fetch rejected, with that fetch's code. */
  lemma {:induction false} JoinAllMeans<T>(outcomes: seq<FetchOutcome<T>>)
    ensures JoinAll(outcomes).AllResolved? <==> forall i :: 0 <= i < |outcomes| ==> outcomes[i].Resolved?
    ensures JoinAll(outcomes).AllResolved? ==>
      |JoinAll(outcomes).results| == |outcomes| &&
      forall i :: 0 <= i < |outcomes| ==> JoinAll(outcomes).results[i] == outcomes[i].items
    ensures JoinAll(outcomes).AnyRejected? <==> exists i :: 0 <= i < |outcomes| && outcomes[i].Rejected?
    ensures JoinAll(outcomes).AnyRejected? ==>
      exists i :: 0 <= i < |outcomes| && outcomes[i].Rejected? && outcomes[i].code == JoinAll(outcomes).code
  {
    if outcomes != [] {
      JoinAllMeans(outcomes[1..]);
      assert forall i :: 1 <= i < |outcomes| ==> outcomes[i] == outcomes[1..][i - 1];
      var j := JoinAll(outcomes);
      var rest := JoinAll(outcomes[1..]);
      if j.AnyRejected? && !outcomes[0].Rejected? {
        var i :| 0 <= i < |outcomes[1..]| && outcomes[1..][i].Rejected? && outcomes[1..][i].code == rest.code;
        assert outcomes[i + 1].Rejected? && outcomes[i + 1].code == j.code;
      }
    }
  }

  /** The answers meant for group `g`; a group with none never settles. */
  function ResponsesFor<T>(responses: seq<seq<Response<T>>>, g: nat): seq<Response<T>>
  {
    if g < |responses| then responses[g] else []
  }

  function GroupOutcomes<T>(responses: seq<seq<Response<T>>>, groups: nat, limit: int): (outs: seq<FetchOutcome<T>>)
    ensures |outs| == groups
  {
    seq(groups, g requires 0 <= g < groups => FetchSpec(ResponsesFor(responses, g), limit))
  }

  /** `Promise.all(groups.map(fetch))`, run one group after another. */
  method FetchAll<T>(responses: seq<seq<Response<T>>>, groups: nat, limit: int) returns (joined: JoinOutcome<T>)
    ensures joined == JoinAll(GroupOutcomes(responses, groups, limit))
  {
    var outcomes: seq<FetchOutcome<T>> := [];
    var g := 0;
    while g < groups
      invariant g <= groups
      invariant outcomes == GroupOutcomes(responses, groups, limit)[..g]
    {
      var outcome := Fetch(ResponsesFor(responses, g), limit);
      outcomes := outcomes + [outcome];
      g := g + 1;
    }
    assert outcomes == GroupOutcomes(responses, groups, limit);
    joined := JoinAll(outcomes);
  }
}
