/**
 * The page loop of a history request: request after request, each one
 * asking for the next 100 rows, until a page ends the loop or the server
 * fails. The loop is stated for any way `read` of turning a response into a
 * step; the history request uses Pages.PageStep.
 */
module Fetcher {
  import opened MoexTypes
  import opened Pages

  /** The query of request `k`: the base query with `start` and `limit` set. */
  function PageParams(base: Params, k: nat): Params {
    base["start" := Int(k * PageSize)]["limit" := Int(PageSize)]
  }

  function PageRequest(path: string, base: Params, k: nat): Request {
    Request(path, PageParams(base, k))
  }

  /** How the loop body reacts to one response. */
  type Reader = Result<Json> -> Step

  /** What the loop does with the answer to request `k`. */
  function StepAt(server: Server, read: Reader, path: string, base: Params, k: nat): Step {
    read(server(PageRequest(path, base, k)))
  }

  /** Request `horizon` is answered with a page that ends the loop. */
  predicate EndsAt(server: Server, read: Reader, path: string, base: Params, horizon: nat) {
    !Continues(StepAt(server, read, path, base, horizon))
  }

  /** The pages the loop returns when it starts at request `k` having kept `acc`. */
  function Fetch(server: Server, read: Reader, path: string, base: Params, k: nat, acc: seq<seq<Row>>,
                 horizon: nat): Result<seq<seq<Row>>>
    requires k <= horizon && EndsAt(server, read, path, base, horizon)
    decreases horizon - k
  {
    match StepAt(server, read, path, base, k)
    case Fail(e) => Failure(e)
    case Stop => Success(acc)
    case Keep(rows, full) =>
      if full then Fetch(server, read, path, base, k + 1, acc + [rows], horizon)
      else Success(acc + [rows])
  }

  /** How many requests the loop issues from request `k` on. */
  function Calls(server: Server, read: Reader, path: string, base: Params, k: nat, horizon: nat): nat
    requires k <= horizon && EndsAt(server, read, path, base, horizon)
    decreases horizon - k
  {
    if Continues(StepAt(server, read, path, base, k)) then 1 + Calls(server, read, path, base, k + 1, horizon)
    else 1
  }

  /**
   * The pagination loop. `horizon` is a request whose answer ends the loop;
   * without one the loop never ends, so the model asks for one.
   */
  method FetchPages(server: Server, read: Reader, path: string, base: Params, ghost horizon: nat)
    returns (pages: Result<seq<seq<Row>>>, sent: seq<Request>)
    requires EndsAt(server, read, path, base, horizon)
    ensures pages == Fetch(server, read, path, base, 0, [], horizon)
    ensures |sent| == Calls(server, read, path, base, 0, horizon)
    ensures forall k :: 0 <= k < |sent| ==> sent[k] == PageRequest(path, base, k)
  {
    var allDfs: seq<seq<Row>> := [];
    var startIndex: nat := 0;
    var limit: nat := PageSize;
    var params := base;
    ghost var k: nat := 0;
    sent := [];
    while true
      invariant k <= horizon && startIndex == k * PageSize && limit == PageSize
      invariant params - {"start", "limit"} == base - {"start", "limit"}
      invariant |sent| == k && forall i :: 0 <= i < k ==> sent[i] == PageRequest(path, base, i)
      invariant Fetch(server, read, path, base, k, allDfs, horizon) == Fetch(server, read, path, base, 0, [], horizon)
      invariant k + Calls(server, read, path, base, k, horizon) == Calls(server, read, path, base, 0, horizon)
      decreases horizon - k
    {
      SamePageParams(params, base, k);
      params := params["start" := Int(startIndex)];
      params := params["limit" := Int(limit)];
      var request := Request(path, params);
      sent := sent + [request];
      var step := read(server(request));
      match step {
        case Fail(e) =>
          pages := Failure(e);
          return;
        case Stop =>
          break;
        case Keep(rows, full) =>
          allDfs := allDfs + [rows];
          if !full {
            break;
          }
          startIndex := startIndex + limit;
          k := k + 1;
      }
    }
    pages := Success(allDfs);
  }

  /** Setting `start` and `limit` in place gives the query of request `k`, whatever they held before. */
  lemma SamePageParams(params: Params, base: Params, k: nat)
    requires params - {"start", "limit"} == base - {"start", "limit"}
    ensures params["start" := Int(k * PageSize)]["limit" := Int(PageSize)] == PageParams(base, k)
  {
    var p, q := params["start" := Int(k * PageSize)]["limit" := Int(PageSize)], PageParams(base, k);
    forall key | key != "start" && key != "limit"
      ensures (key in p <==> key in q) && (key in p ==> p[key] == q[key])
    {
      assert key in p <==> key in params - {"start", "limit"};
      assert key in q <==> key in base - {"start", "limit"};
    }
    assert p.Keys == q.Keys;
  }

  /** The rows of the pages kept by requests `k` up to `n`, all of which continued the loop. */
  function KeptPages(server: Server, read: Reader, path: string, base: Params, k: nat, n: nat): seq<seq<Row>>
    requires forall i :: k <= i < n ==> Continues(StepAt(server, read, path, base, i))
    decreases n - k
  {
    if k >= n then []
    else
      assert Continues(StepAt(server, read, path, base, k));
      [StepAt(server, read, path, base, k).rows] + KeptPages(server, read, path, base, k + 1, n)
  }

  /** What the loop returns when `last` ends it after `kept` pages were accumulated. */
  function Outcome(kept: seq<seq<Row>>, last: Step): Result<seq<seq<Row>>> {
    match last
    case Fail(e) => Failure(e)
    case Stop => Success(kept)
    case Keep(rows, _) => Success(kept + [rows])
  }

  lemma {:induction false} FetchFrom(server: Server, read: Reader, path: string, base: Params, horizon: nat,
                                     n: nat, k: nat, acc: seq<seq<Row>>)
    requires EndsAt(server, read, path, base, horizon) && k <= horizon && k <= n
    requires forall i :: k <= i < n ==> Continues(StepAt(server, read, path, base, i))
    requires !Continues(StepAt(server, read, path, base, n))
    ensures n <= horizon
    ensures Calls(server, read, path, base, k, horizon) == n - k + 1
    ensures Fetch(server, read, path, base, k, acc, horizon) ==
            Outcome(acc + KeptPages(server, read, path, base, k, n), StepAt(server, read, path, base, n))
    decreases n - k
  {
    if k == n {
      assert acc + KeptPages(server, read, path, base, k, n) == acc;
    } else {
      assert Continues(StepAt(server, read, path, base, k));
      var rows := StepAt(server, read, path, base, k).rows;
      FetchFrom(server, read, path, base, horizon, n, k + 1, acc + [rows]);
      assert acc + [rows] + KeptPages(server, read, path, base, k + 1, n) ==
             acc + KeptPages(server, read, path, base, k, n);
    }
  }

  /**
   * The loop, unrolled: when requests 0 to n-1 all return full pages and
   * request n does not, exactly n+1 requests are made, the n full pages are
   * kept in request order, and request n decides the end: a failure is
   * passed on with no partial result, a page that stops adds nothing, a
   * short page is kept as the last one.
   */
  lemma FetchUnrolled(server: Server, read: Reader, path: string, base: Params, horizon: nat, n: nat)
    requires EndsAt(server, read, path, base, horizon)
    requires forall i :: 0 <= i < n ==> Continues(StepAt(server, read, path, base, i))
    requires !Continues(StepAt(server, read, path, base, n))
    ensures Calls(server, read, path, base, 0, horizon) == n + 1
    ensures Fetch(server, read, path, base, 0, [], horizon) ==
            Outcome(KeptPages(server, read, path, base, 0, n), StepAt(server, read, path, base, n))
  {
    FetchFrom(server, read, path, base, horizon, n, 0, []);
    assert [] + KeptPages(server, read, path, base, 0, n) == KeptPages(server, read, path, base, 0, n);
  }

  lemma {:induction false} KeptPagesAt(server: Server, read: Reader, path: string, base: Params, k: nat, n: nat)
    requires forall i :: k <= i < n ==> Continues(StepAt(server, read, path, base, i))
    ensures |KeptPages(server, read, path, base, k, n)| == if k <= n then n - k else 0
    ensures forall i :: k <= i < n ==>
              KeptPages(server, read, path, base, k, n)[i - k] == StepAt(server, read, path, base, i).rows
    decreases n - k
  {
    if k < n {
      KeptPagesAt(server, read, path, base, k + 1, n);
    }
  }

  /**
   * Full pages for requests 0 to n-1 and a short page at request n: exactly
   * n+1 requests, and all n+1 pages kept in order.
   */
  lemma ShortPageIsLast(server: Server, read: Reader, path: string, base: Params, horizon: nat, n: nat)
    requires EndsAt(server, read, path, base, horizon)
    requires forall i :: 0 <= i < n ==> Continues(StepAt(server, read, path, base, i))
    requires StepAt(server, read, path, base, n).Keep? && !StepAt(server, read, path, base, n).full
    ensures Calls(server, read, path, base, 0, horizon) == n + 1
    ensures var r := Fetch(server, read, path, base, 0, [], horizon);
      && r.Success? && |r.value| == n + 1
      && forall i :: 0 <= i <= n ==>
           StepAt(server, read, path, base, i).Keep? && r.value[i] == StepAt(server, read, path, base, i).rows
  {
    FetchUnrolled(server, read, path, base, horizon, n);
    KeptPagesAt(server, read, path, base, 0, n);
  }

  /**
   * A page that stops the loop (no envelope, no rows, no CLOSE column) after
   * n full pages: n+1 requests, the n earlier pages kept, nothing of the last.
   */
  lemma StopKeepsEarlierPages(server: Server, read: Reader, path: string, base: Params, horizon: nat, n: nat)
    requires EndsAt(server, read, path, base, horizon)
    requires forall i :: 0 <= i < n ==> Continues(StepAt(server, read, path, base, i))
    requires StepAt(server, read, path, base, n).Stop?
    ensures Calls(server, read, path, base, 0, horizon) == n + 1
    ensures var r := Fetch(server, read, path, base, 0, [], horizon);
      && r.Success? && |r.value| == n
      && forall i :: 0 <= i < n ==>
           StepAt(server, read, path, base, i).Keep? && r.value[i] == StepAt(server, read, path, base, i).rows
  {
    FetchUnrolled(server, read, path, base, horizon, n);
    KeptPagesAt(server, read, path, base, 0, n);
  }

  /** A failure at any request fails the whole loop: no partial result. */
  lemma FailureAbortsFetch(server: Server, read: Reader, path: string, base: Params, horizon: nat, n: nat)
    requires EndsAt(server, read, path, base, horizon)
    requires forall i :: 0 <= i < n ==> Continues(StepAt(server, read, path, base, i))
    requires StepAt(server, read, path, base, n).Fail?
    ensures Calls(server, read, path, base, 0, horizon) == n + 1
    ensures Fetch(server, read, path, base, 0, [], horizon) == Failure(StepAt(server, read, path, base, n).error)
  {
    FetchUnrolled(server, read, path, base, horizon, n);
  }
}
