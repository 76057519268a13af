/**
 * Interval and endpoint resolution for a history request: the requested
 * interval is checked against a fixed table, then the daily request goes to
 * the board-keyed history resource and every intraday request goes to the
 * candles resource, which has no board.
 */
module Resolver {
  import opened MoexTypes
  import opened Client

  /** The accepted intervals and the bar length in minutes each one stands for. */
  const Intervals: map<string, nat> := map["1m" := 1, "10m" := 10, "1h" := 60, "1d" := 1440]

  /** The two upstream resources a history request can be sent to. */
  datatype Endpoint =
    | HistoryPath(engine: string, market: string, board: string, ticker: string)
    | CandlesPath(engine: string, market: string, ticker: string)

  /** The path below the base URL of the ISS API. */
  function PathOf(e: Endpoint): string {
    match e
    case HistoryPath(engine, market, board, ticker) =>
      "history/engines/" + engine + "/markets/" + market + "/boards/" + board +
      "/securities/" + ticker + ".json"
    case CandlesPath(engine, market, ticker) =>
      "engines/" + engine + "/markets/" + market + "/securities/" + ticker + "/candles.json"
  }

  /** What a resolved request is sent to, with the query before pagination is added. */
  datatype Target = Target(endpoint: Endpoint, params: Params)

  function Resolve(c: Client, start: string, end: string, interval: string): (r: Result<Target>)
    ensures r.Failure? <==> interval !in Intervals
    ensures r.Failure? ==> r.error == InvalidInterval(interval)
  {
    if interval !in Intervals then Failure(InvalidInterval(interval))
    else if interval == "1d" then
      Success(Target(HistoryPath(c.engine, c.market, c.board, c.ticker),
                     map["from" := Text(start), "till" := Text(end)]))
    else
      Success(Target(CandlesPath(c.engine, c.market, c.ticker),
                     map["from" := Text(start), "till" := Text(end),
                         "interval" := Int(Intervals[interval])]))
  }

  /**
   * Exactly four interval names are accepted; their bar lengths grow with
   * the name's unit, and the daily bar is one day of minutes.
   */
  lemma AcceptedIntervals(interval: string)
    ensures interval in Intervals <==> interval in ["1m", "10m", "1h", "1d"]
    ensures Intervals["1m"] < Intervals["10m"] < Intervals["1h"] < Intervals["1d"] == 24 * 60
    ensures interval in Intervals && interval != "1d" ==> Intervals[interval] < 24 * 60
  {
  }

  /** The daily interval selects the board-keyed history resource, queried by date range only. */
  lemma DailyRequest(c: Client, start: string, end: string)
    ensures var r := Resolve(c, start, end, "1d");
      && r.Success?
      && r.value.endpoint == HistoryPath(c.engine, c.market, c.board, c.ticker)
      && r.value.params.Keys == {"from", "till"}
      && r.value.params["from"] == Text(start) && r.value.params["till"] == Text(end)
  {
  }

  /** Every other accepted interval selects the candles resource and adds the bar length in minutes. */
  lemma IntradayRequest(c: Client, start: string, end: string, interval: string)
    requires interval in Intervals && interval != "1d"
    ensures var r := Resolve(c, start, end, interval);
      && r.Success?
      && r.value.endpoint == CandlesPath(c.engine, c.market, c.ticker)
      && r.value.params.Keys == {"from", "till", "interval"}
      && r.value.params["from"] == Text(start) && r.value.params["till"] == Text(end)
      && r.value.params["interval"] == Int(Intervals[interval])
      && r.value.params["interval"] in {Int(1), Int(10), Int(60)}
  {
  }

  /** An intraday request does not depend on the board at all. */
  lemma IntradayIgnoresBoard(c: Client, board: string, start: string, end: string, interval: string)
    requires interval != "1d"
    ensures Resolve(c, start, end, interval) == Resolve(c.(board := board), start, end, interval)
  {
  }

  /** A history path and a candles path are never the same string. */
  lemma PathsDiffer(e1: Endpoint, e2: Endpoint)
    requires e1.HistoryPath? && e2.CandlesPath?
    ensures PathOf(e1) != PathOf(e2)
  {
    assert PathOf(e1)[0] == 'h';
    assert PathOf(e2)[0] == 'e';
  }
}
