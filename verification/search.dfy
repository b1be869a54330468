/** The bounded pagination loop of `search_dubai_listings`.

    The listing client is abstracted as the reply it gives to its k-th call.
    Every call carries the same arguments and no page cursor, so the model
    assumes nothing about how one reply relates to the next. */
module Search {

  import opened Wrappers
  import opened Hits

  /** `max_pages`: the loop runs while `current_page < max_pages`. */
  const MaxPages: nat := 3

  /** A reply of `search_all`: its `results` list and its `has_next_page`
      flag, each None when the key is absent. */
  datatype Response = Response(results: Option<seq<RawHit>>, hasNextPage: Option<bool>)

  /** The client: `client(k)` is the reply to the k-th call (counted from 0);
      None stands for a falsy reply. */
  type Client = nat -> Option<Response>

  /** How the loop ended. */
  datatype Exit =
    | Rejected    // falsy reply, or no `results` key
    | NoNextPage  // `has_next_page` false or absent, after taking the results
    | PageLimit   // `current_page` reached `max_pages`

  /** The loop's final state: `all_results`, `current_page`, how many times
      the client was called, and the exit taken. */
  datatype Run = Run(results: seq<RawHit>, currentPage: nat, calls: nat, exit: Exit)

  /** The reply passes the `not response or "results" not in response` test. */
  predicate Accepted(reply: Option<Response>) {
    reply.Some? && reply.value.results.Some?
  }

  /** The reply is accepted and `response.get("has_next_page", False)` is true. */
  predicate Continues(reply: Option<Response>) {
    Accepted(reply) && reply.value.hasNextPage == Some(true)
  }

  /** What a reply adds to `all_results`: its list if accepted, else nothing. */
  function PageResults(reply: Option<Response>): seq<RawHit> {
    if Accepted(reply) then reply.value.results.value else []
  }

  /** The in-order concatenation of what the first `n` replies add. */
  function Collected(client: Client, n: nat): seq<RawHit> {
    if n == 0 then [] else Collected(client, n - 1) + PageResults(client(n - 1))
  }

  /** The declarative description of a finished loop: between one and
      `MaxPages` calls, every call but the last asked for a next page, the
      last call explains the exit, and the results are exactly what the
      replies contributed, in call order. */
  ghost predicate ValidRun(client: Client, r: Run) {
    && 1 <= r.calls <= MaxPages
    && (forall i: nat :: i < r.calls - 1 ==> Continues(client(i)))
    && r.results == Collected(client, r.calls)
    && match r.exit
       case Rejected =>
         !Accepted(client(r.calls - 1)) && r.currentPage == r.calls - 1
       case NoNextPage =>
         Accepted(client(r.calls - 1)) && !Continues(client(r.calls - 1))
         && r.currentPage == r.calls - 1
       case PageLimit =>
         Continues(client(r.calls - 1)) && r.calls == MaxPages && r.currentPage == MaxPages
  }

  /** How many of the first `n` replies were accepted. */
  function CountAccepted(client: Client, n: nat): nat {
    if n == 0 then 0 else CountAccepted(client, n - 1) + (if Accepted(client(n - 1)) then 1 else 0)
  }

  /** How many of the first `n` replies were accepted and reported a next page. */
  function CountContinues(client: Client, n: nat): nat {
    if n == 0 then 0 else CountContinues(client, n - 1) + (if Continues(client(n - 1)) then 1 else 0)
  }

  /** When every one of the first `n` replies continued, both counts are `n`. */
  lemma {:induction false} CountsOfContinuingPrefix(client: Client, n: nat)
    requires forall i: nat :: i < n ==> Continues(client(i))
    ensures CountAccepted(client, n) == n && CountContinues(client, n) == n
  {
    if n > 0 {
      CountsOfContinuingPrefix(client, n - 1);
    }
  }

  /** The loop from the iteration with `current_page == page` and
      `all_results == acc`; the k-th call happens when `current_page == k`,
      because every iteration either breaks or increments it. */
  function RunFrom(client: Client, page: nat, acc: seq<RawHit>): (r: Run)
    requires page <= MaxPages
    requires forall i: nat :: i < page ==> Continues(client(i))
    requires acc == Collected(client, page)
    ensures ValidRun(client, r)
    ensures page <= r.calls
    decreases MaxPages - page
  {
    if !(page < MaxPages) then
      Run(acc, page, page, PageLimit)
    else
      var reply := client(page);
      if !Accepted(reply) then
        Run(acc, page, page + 1, Rejected)
      else
        var acc' := acc + reply.value.results.value;
        if reply.value.hasNextPage != Some(true) then
          Run(acc', page, page + 1, NoNextPage)
        else
          RunFrom(client, page + 1, acc')
  }

  /** The whole loop, started with `current_page = 0` and `all_results = []`. */
  function SearchRun(client: Client): (r: Run)
    ensures ValidRun(client, r)
    ensures 1 <= r.calls <= MaxPages
    ensures r.exit.PageLimit? <==> (forall i: nat :: i < MaxPages ==> Continues(client(i)))
  {
    RunFrom(client, 0, [])
  }

  /** `search_dubai_listings()`: the accumulated results. */
  function SearchListings(client: Client): (results: seq<RawHit>)
    ensures results == Collected(client, SearchRun(client).calls)
  {
    SearchRun(client).results
  }

  /** `current_page` is the number of replies that were accepted and
      reported a next page; on a `has_next_page` exit it is one less than
      the number of accepted replies, on the other exits equal to it. */
  lemma CurrentPageCountsPages(client: Client)
    ensures var r := SearchRun(client);
      && r.currentPage == CountContinues(client, r.calls)
      && (r.exit.NoNextPage? ==> r.currentPage == CountAccepted(client, r.calls) - 1)
      && (!r.exit.NoNextPage? ==> r.currentPage == CountAccepted(client, r.calls))
      && r.currentPage <= MaxPages
  {
    var r := SearchRun(client);
    CountsOfContinuingPrefix(client, r.calls - 1);
  }

  /** A finished loop is determined by the replies: two runs that both fit
      the description are the same run. */
  lemma ValidRunUnique(client: Client, a: Run, b: Run)
    requires ValidRun(client, a) && ValidRun(client, b)
    ensures a == b
  {
    CallsDetermined(client, a, b);
    CallsDetermined(client, b, a);
  }

  /** Helper of ValidRunUnique: a run cannot stop before another one does. */
  lemma CallsDetermined(client: Client, a: Run, b: Run)
    requires ValidRun(client, a) && ValidRun(client, b)
    ensures a.calls <= b.calls
  {
    if b.calls < a.calls {
      assert false;
    }
  }

  /** Only the first `n` replies matter to `Collected(client, n)`. */
  lemma {:induction false} CollectedPrefix(c1: Client, c2: Client, n: nat)
    requires forall i: nat :: i < n ==> c1(i) == c2(i)
    ensures Collected(c1, n) == Collected(c2, n)
  {
    if n > 0 {
      CollectedPrefix(c1, c2, n - 1);
    }
  }

  /** The loop never looks past its own calls: a client that gives the
      same replies to those calls yields the same run. */
  lemma RepliesAfterStopIgnored(c1: Client, c2: Client)
    requires forall i: nat :: i < SearchRun(c1).calls ==> c1(i) == c2(i)
    ensures SearchRun(c1) == SearchRun(c2)
  {
    var r := SearchRun(c1);
    CollectedPrefix(c1, c2, r.calls);
    assert ValidRun(c2, r);
    ValidRunUnique(c2, r, SearchRun(c2));
  }

  /** A falsy or malformed first reply ends the search after one call with
      no results. */
  lemma RejectedFirstReply(client: Client)
    requires !Accepted(client(0))
    ensures SearchRun(client) == Run([], 0, 1, Rejected)
  {
  }

  /** The loop reaches the call with index `k` when every earlier reply
      continued, and stops there if that reply does not continue. */
  lemma {:induction false} StopsAt(client: Client, k: nat)
    requires k < MaxPages
    requires forall i: nat :: i < k ==> Continues(client(i))
    requires !Continues(client(k))
    ensures SearchRun(client).calls == k + 1
  {
    var r := SearchRun(client);
    if r.calls - 1 < k {
      assert false;
    }
  }

  /** A falsy or malformed reply, reached after replies that all continued,
      contributes nothing and is the last call. */
  lemma RejectedReplyEndsSearch(client: Client, k: nat)
    requires k < MaxPages
    requires forall i: nat :: i < k ==> Continues(client(i))
    requires !Accepted(client(k))
    ensures SearchRun(client).calls == k + 1
    ensures SearchRun(client).exit.Rejected?
    ensures SearchRun(client).results == Collected(client, k)
  {
    StopsAt(client, k);
  }

  /** A reply without a true `has_next_page`, reached after replies that all
      continued, still has its results taken, and then the loop stops. */
  lemma LastPageTaken(client: Client, k: nat)
    requires k < MaxPages
    requires forall i: nat :: i < k ==> Continues(client(i))
    requires Accepted(client(k)) && !Continues(client(k))
    ensures SearchRun(client).calls == k + 1
    ensures SearchRun(client).exit.NoNextPage?
    ensures SearchRun(client).results == Collected(client, k) + client(k).value.results.value
  {
    StopsAt(client, k);
  }

  /** No cursor is sent, so a client that keeps answering with the same
      page that claims a next page yields that page three times over. */
  lemma SamePageRepeated(client: Client, page: seq<RawHit>)
    requires forall i: nat :: client(i) == Some(Response(Some(page), Some(true)))
    ensures SearchRun(client) == Run(page + page + page, MaxPages, MaxPages, PageLimit)
  {
    assert Collected(client, 1) == page;
    assert Collected(client, 2) == page + page;
  }

  /** The `while` loop of `search_dubai_listings`, calling the client once
      per iteration and counting the calls. */
  method SearchDubaiListings(client: Client)
    returns (allResults: seq<RawHit>, currentPage: nat, calls: nat)
    ensures 1 <= calls <= MaxPages
    ensures forall i: nat :: i < calls - 1 ==> Continues(client(i))
    ensures allResults == Collected(client, calls)
    ensures currentPage < MaxPages ==> !Continues(client(calls - 1))
    ensures allResults == SearchListings(client)
    ensures currentPage == SearchRun(client).currentPage && calls == SearchRun(client).calls
  {
    allResults := [];
    currentPage := 0;
    calls := 0;
    var exit := PageLimit;
    while currentPage < MaxPages
      invariant currentPage <= MaxPages
      invariant calls == currentPage
      invariant forall i: nat :: i < currentPage ==> Continues(client(i))
      invariant allResults == Collected(client, currentPage)
      decreases MaxPages - currentPage
    {
      var reply := client(currentPage);
      calls := calls + 1;
      if !Accepted(reply) {
        exit := Rejected;
        break;
      }
      allResults := allResults + reply.value.results.value;
      if reply.value.hasNextPage != Some(true) {
        exit := NoNextPage;
        break;
      }
      currentPage := currentPage + 1;
    }
    ValidRunUnique(client, Run(allResults, currentPage, calls, exit), SearchRun(client));
  }
}
