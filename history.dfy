/**
 * MoexClient.get_history: resolve the interval, run the page loop against
 * the resolved endpoint, and merge what it accumulated.
 */
module History {
  import opened MoexTypes
  import opened Client
  import opened Resolver
  import opened Pages
  import opened Fetcher
  import opened Normalizer

  /** The page loop of a valid request stops by request `horizon`. */
  predicate Terminates(c: Client, start: string, end: string, interval: string,
                       server: Server, horizon: nat) {
    var t := Resolve(c, start, end, interval);
    t.Success? ==> EndsAt(server, PageStep, PathOf(t.value.endpoint), t.value.params, horizon)
  }

  /** The pages the loop of a valid request returns. */
  function Fetched(c: Client, start: string, end: string, interval: string,
                   server: Server, horizon: nat): Result<seq<seq<Row>>>
    requires interval in Intervals && Terminates(c, start, end, interval, server, horizon)
  {
    var t := Resolve(c, start, end, interval).value;
    Fetch(server, PageStep, PathOf(t.endpoint), t.params, 0, [], horizon)
  }

  /**
   * A bad interval fails before any request. Otherwise the k-th request goes
   * to the resolved endpoint with `start` = 100k and `limit` = 100; a failure
   * of the loop is the failure of the call; a loop that kept no page fails
   * with NoData; and a loop that kept pages yields their merge.
   */
  method GetHistory(c: Client, start: string, end: string, interval: string := "1d",
                    server: Server, ghost horizon: nat)
    returns (r: Result<seq<Row>>, sent: seq<Request>)
    requires Terminates(c, start, end, interval, server, horizon)
    ensures interval !in Intervals ==> r == Failure(InvalidInterval(interval)) && sent == []
    ensures interval in Intervals ==>
      var t := Resolve(c, start, end, interval).value;
      var fetched := Fetched(c, start, end, interval, server, horizon);
      && |sent| == Calls(server, PageStep, PathOf(t.endpoint), t.params, 0, horizon)
      && (forall k :: 0 <= k < |sent| ==> sent[k] == PageRequest(PathOf(t.endpoint), t.params, k))
      && (fetched.Failure? ==> r == Failure(fetched.error))
      && (fetched == Success([]) ==> r == Failure(NoData))
      && (fetched.Success? && fetched.value != [] ==> r.Success? && IsMergeOf(fetched.value, r.value))
  {
    var resolved := Resolve(c, start, end, interval);
    if resolved.Failure? {
      return Failure(resolved.error), [];
    }
    var endpoint, params := PathOf(resolved.value.endpoint), resolved.value.params;
    var allDfs;
    allDfs, sent := FetchPages(server, PageStep, endpoint, params, horizon);
    if allDfs.Failure? {
      return Failure(allDfs.error), sent;
    }
    r := Normalize(allDfs.value);
  }

  /**
   * A first response without rows (no envelope, or an empty one) means one
   * request, no page, and so a NoData failure rather than an empty series.
   */
  lemma EmptyFirstPage(c: Client, start: string, end: string, interval: string,
                       server: Server, horizon: nat)
    requires interval in Intervals && Terminates(c, start, end, interval, server, horizon)
    requires var t := Resolve(c, start, end, interval).value;
      StepAt(server, PageStep, PathOf(t.endpoint), t.params, 0) == Stop
    ensures var t := Resolve(c, start, end, interval).value;
      Calls(server, PageStep, PathOf(t.endpoint), t.params, 0, horizon) == 1
    ensures Fetched(c, start, end, interval, server, horizon) == Success([])
  {
    var t := Resolve(c, start, end, interval).value;
    StopKeepsEarlierPages(server, PageStep, PathOf(t.endpoint), t.params, horizon, 0);
  }
}
