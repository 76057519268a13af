/**
 * What the history loop does with one response: pick the data envelope,
 * recognise the page's shape, alias candle columns, project the rows to
 * (timestamp, close, volume) and decide whether the loop goes on.
 */
module Pages {
  import opened MoexTypes

  /** Rows asked for per request; a shorter page is the last one. */
  const PageSize: nat := 100

  /** `j.get("history") or j.get("candles")`, with a falsy result as `None`. */
  function PickEnvelope(j: Json): (r: Option<Envelope>)
    ensures "history" in j && Truthy(j["history"]) ==> r == Some(j["history"])
    ensures r.Some? ==>
              && Truthy(r.value)
              && (("history" in j && r.value == j["history"]) || ("candles" in j && r.value == j["candles"]))
    ensures r.None? <==> ("history" !in j || !Truthy(j["history"])) && ("candles" !in j || !Truthy(j["candles"]))
  {
    if "history" in j && Truthy(j["history"]) then Some(j["history"])
    else if "candles" in j && Truthy(j["candles"]) then Some(j["candles"])
    else None
  }

  /**
   * The two row layouts the API returns: daily history rows keyed by
   * TRADEDATE with a CLOSE column, and candles keyed by `end` with `close`.
   */
  datatype Shape = HistoryStyle | CandleStyle

  /** A page is a candle page exactly when it has an `end` column. */
  function ShapeOf(cols: seq<string>): Shape {
    if "end" in cols then CandleStyle else HistoryStyle
  }

  /** The column the TRADEDATE of the projected rows is read from. */
  function TimeColumn(s: Shape): string {
    match s
    case CandleStyle => "end"
    case HistoryStyle => "TRADEDATE"
  }

  /** The column that is CLOSE once a candle page's `close` is renamed, if there is one. */
  function PriceColumn(s: Shape, cols: seq<string>): Option<nat> {
    match s
    case CandleStyle => if "close" in cols then IndexOf(cols, "close") else IndexOf(cols, "CLOSE")
    case HistoryStyle => IndexOf(cols, "CLOSE")
  }

  /** The outcome of one loop iteration. */
  datatype Step =
    | Fail(error: Error)                 // an exception leaves the loop and the call
    | Stop                               // `break` without keeping this page
    | Keep(rows: seq<Row>, full: bool)   // the page is kept; `full` means the loop goes on

  predicate Continues(s: Step) {
    s.Keep? && s.full
  }

  /** df[["TRADEDATE", "CLOSE"]], with VOLUME when the page has that column. */
  function Project(data: seq<seq<Value>>, tc: nat, pc: nat, vc: Option<nat>): seq<Row>
    requires forall r | r in data :: Cell(r, tc).Stamp?
  {
    seq(|data|, i requires 0 <= i < |data| =>
      Row(Cell(data[i], tc).t, Cell(data[i], pc),
          if vc.Some? then Some(Cell(data[i], vc.value)) else None))
  }

  function DataOf(e: Envelope): seq<seq<Value>> {
    if e.data.Some? then e.data.value else []
  }

  function ColumnsOf(e: Envelope): seq<string> {
    if e.columns.Some? then e.columns.value else []
  }

  /** One page of an envelope that was found. */
  function ReadBlock(e: Envelope): (r: Step)
    ensures r.Fail? ==> r.error in {MalformedPage, MissingColumn("TRADEDATE"), BadTimestamp}
    ensures r.Keep? ==> Width(DataOf(e)) == |ColumnsOf(e)|
    ensures r.Keep? ==> |r.rows| == |DataOf(e)| > 0 && (r.full <==> |DataOf(e)| >= PageSize)
  {
    var data, cols := DataOf(e), ColumnsOf(e);
    if data == [] then Stop
    else if Width(data) != |cols| then Fail(MalformedPage)
    else
      var shape := ShapeOf(cols);
      match IndexOf(cols, TimeColumn(shape))
      case None => Fail(MissingColumn("TRADEDATE"))
      case Some(tc) =>
        if exists r | r in data :: !Cell(r, tc).Stamp? then Fail(BadTimestamp)
        else match PriceColumn(shape, cols)
          case None => Stop
          case Some(pc) => Keep(Project(data, tc, pc, IndexOf(cols, "VOLUME")), |data| >= PageSize)
  }

  /** One response, as the loop body reacts to it. */
  function PageStep(resp: Result<Json>): (r: Step)
    ensures resp.Failure? ==> r == Fail(resp.error)
    ensures resp.Success? && r.Fail? ==> r.error in {MalformedPage, MissingColumn("TRADEDATE"), BadTimestamp}
    ensures r.Keep? ==>
              && resp.Success? && PickEnvelope(resp.value).Some?
              && 0 < |r.rows| == |DataOf(PickEnvelope(resp.value).value)|
  {
    match resp
    case Failure(e) => Fail(e)
    case Success(j) =>
      match PickEnvelope(j)
      case None => Stop
      case Some(e) => ReadBlock(e)
  }

  /** A transport error is passed on unchanged. */
  lemma TransportErrorPropagates(e: Error)
    ensures PageStep(Failure(e)) == Fail(e)
  {
  }

  /** A non-empty `history` block is used, whatever `candles` holds. */
  lemma HistoryEnvelopeWins(j: Json, other: Envelope)
    requires "history" in j && Truthy(j["history"])
    ensures PageStep(Success(j)) == PageStep(Success(j["candles" := other]))
    ensures PageStep(Success(j)) == ReadBlock(j["history"])
  {
  }

  /** A missing or empty `history` block is as if it were not there: `candles` decides. */
  lemma CandlesWhenNoHistory(j: Json)
    requires "history" !in j || !Truthy(j["history"])
    ensures PageStep(Success(j)) == PageStep(Success(j - {"history"}))
  {
  }

  /** Neither block present and non-empty: end of data, without error. */
  lemma NoEnvelopeStops(j: Json)
    requires "history" !in j || !Truthy(j["history"])
    requires "candles" !in j || !Truthy(j["candles"])
    ensures PageStep(Success(j)) == Stop
  {
  }

  /** A block without rows ends the loop without error. */
  lemma EmptyDataStops(e: Envelope)
    requires e.data.None? || e.data == Some([])
    ensures ReadBlock(e) == Stop
  {
  }

  /**
   * A well-formed page with readable timestamps but no CLOSE column once
   * aliased ends the loop without error, and is not kept.
   */
  lemma NoCloseStops(e: Envelope)
    requires DataOf(e) != [] && Width(DataOf(e)) == |ColumnsOf(e)|
    requires "CLOSE" !in ColumnsOf(e)
    requires "end" in ColumnsOf(e) ==> "close" !in ColumnsOf(e)
    requires TimeColumn(ShapeOf(ColumnsOf(e))) in ColumnsOf(e)
    requires forall r | r in DataOf(e) ::
               Cell(r, IndexOf(ColumnsOf(e), TimeColumn(ShapeOf(ColumnsOf(e)))).value).Stamp?
    ensures ReadBlock(e) == Stop
  {
  }

  /** A daily page without TRADEDATE raises a KeyError before the CLOSE check. */
  lemma MissingTradeDateFails(e: Envelope)
    requires DataOf(e) != [] && Width(DataOf(e)) == |ColumnsOf(e)|
    requires "end" !in ColumnsOf(e) && "TRADEDATE" !in ColumnsOf(e)
    ensures ReadBlock(e) == Fail(MissingColumn("TRADEDATE"))
  {
  }

  /**
   * pandas pads short rows with nulls, so only the widest row is compared
   * with the column list: when the two differ the frame is refused.
   */
  lemma RaggedPageFails(e: Envelope)
    requires DataOf(e) != [] && Width(DataOf(e)) != |ColumnsOf(e)|
    ensures ReadBlock(e) == Fail(MalformedPage)
  {
  }

  /**
   * A kept page keeps every row, in order: row i's timestamp and close are
   * the cells of data row i in the page's time and price columns. It
   * continues the loop exactly when it is not shorter than a full page, and
   * each row carries a volume exactly when the page has an upper-case VOLUME
   * column.
   */
  lemma KeptPage(e: Envelope)
    requires ReadBlock(e).Keep?
    ensures var rows, data, cols := ReadBlock(e).rows, DataOf(e), ColumnsOf(e);
      && |rows| == |data| > 0
      && (ReadBlock(e).full <==> |data| >= PageSize)
      && IndexOf(cols, TimeColumn(ShapeOf(cols))).Some? && PriceColumn(ShapeOf(cols), cols).Some?
      && (forall i :: 0 <= i < |rows| ==>
            && Cell(data[i], IndexOf(cols, TimeColumn(ShapeOf(cols))).value) == Stamp(rows[i].time)
            && rows[i].close == Cell(data[i], PriceColumn(ShapeOf(cols), cols).value))
      && (forall i :: 0 <= i < |rows| ==> (rows[i].volume.Some? <==> "VOLUME" in cols))
      && ("VOLUME" in cols ==> forall i :: 0 <= i < |rows| ==>
            rows[i].volume == Some(Cell(data[i], IndexOf(cols, "VOLUME").value)))
  {
  }

  /**
   * A candle page: `end` is the timestamp and `close` the price, even when
   * the page also has TRADEDATE or CLOSE columns.
   */
  lemma CandleAliasing(e: Envelope)
    requires DataOf(e) != [] && Width(DataOf(e)) == |ColumnsOf(e)|
    requires "end" in ColumnsOf(e) && "close" in ColumnsOf(e)
    requires forall r | r in DataOf(e) :: Cell(r, IndexOf(ColumnsOf(e), "end").value).Stamp?
    ensures ReadBlock(e).Keep?
    ensures var rows, data, cols := ReadBlock(e).rows, DataOf(e), ColumnsOf(e);
      forall i :: 0 <= i < |rows| ==>
        && Cell(data[i], IndexOf(cols, "end").value) == Stamp(rows[i].time)
        && rows[i].close == Cell(data[i], IndexOf(cols, "close").value)
  {
    var data, cols := DataOf(e), ColumnsOf(e);
    var tc, pc := IndexOf(cols, "end").value, IndexOf(cols, "close").value;
    assert ShapeOf(cols) == CandleStyle && PriceColumn(CandleStyle, cols) == Some(pc);
    assert !exists r | r in data :: !Cell(r, tc).Stamp?;
    assert ReadBlock(e) == Keep(Project(data, tc, pc, IndexOf(cols, "VOLUME")), |data| >= PageSize);
  }

  /**
   * A candle page without a lower-case `close` column: the rename does
   * nothing, and an upper-case CLOSE column is the price.
   */
  lemma CandleUpperClose(e: Envelope)
    requires DataOf(e) != [] && Width(DataOf(e)) == |ColumnsOf(e)|
    requires "end" in ColumnsOf(e) && "close" !in ColumnsOf(e) && "CLOSE" in ColumnsOf(e)
    requires forall r | r in DataOf(e) :: Cell(r, IndexOf(ColumnsOf(e), "end").value).Stamp?
    ensures ReadBlock(e).Keep?
    ensures var rows, data, cols := ReadBlock(e).rows, DataOf(e), ColumnsOf(e);
      forall i :: 0 <= i < |rows| ==>
        && Cell(data[i], IndexOf(cols, "end").value) == Stamp(rows[i].time)
        && rows[i].close == Cell(data[i], IndexOf(cols, "CLOSE").value)
  {
    var data, cols := DataOf(e), ColumnsOf(e);
    var tc, pc := IndexOf(cols, "end").value, IndexOf(cols, "CLOSE").value;
    assert ShapeOf(cols) == CandleStyle && PriceColumn(CandleStyle, cols) == Some(pc);
    assert !exists r | r in data :: !Cell(r, tc).Stamp?;
    assert ReadBlock(e) == Keep(Project(data, tc, pc, IndexOf(cols, "VOLUME")), |data| >= PageSize);
  }

  /** A daily page: TRADEDATE is the timestamp and CLOSE the price. */
  lemma HistoryColumns(e: Envelope)
    requires DataOf(e) != [] && Width(DataOf(e)) == |ColumnsOf(e)|
    requires "end" !in ColumnsOf(e) && "TRADEDATE" in ColumnsOf(e) && "CLOSE" in ColumnsOf(e)
    requires forall r | r in DataOf(e) :: Cell(r, IndexOf(ColumnsOf(e), "TRADEDATE").value).Stamp?
    ensures ReadBlock(e).Keep?
    ensures var rows, data, cols := ReadBlock(e).rows, DataOf(e), ColumnsOf(e);
      forall i :: 0 <= i < |rows| ==>
        && Cell(data[i], IndexOf(cols, "TRADEDATE").value) == Stamp(rows[i].time)
        && rows[i].close == Cell(data[i], IndexOf(cols, "CLOSE").value)
  {
    var data, cols := DataOf(e), ColumnsOf(e);
    var tc, pc := IndexOf(cols, "TRADEDATE").value, IndexOf(cols, "CLOSE").value;
    assert ShapeOf(cols) == HistoryStyle && PriceColumn(HistoryStyle, cols) == Some(pc);
    assert !exists r | r in data :: !Cell(r, tc).Stamp?;
    assert ReadBlock(e) == Keep(Project(data, tc, pc, IndexOf(cols, "VOLUME")), |data| >= PageSize);
  }

  /**
   * Candles name their volume column in lower case, and the projection asks
   * for upper-case VOLUME: candle rows never carry a volume.
   */
  lemma CandleVolumeDropped(e: Envelope)
    requires ReadBlock(e).Keep?
    requires "end" in ColumnsOf(e) && "volume" in ColumnsOf(e) && "VOLUME" !in ColumnsOf(e)
    ensures forall r :: r in ReadBlock(e).rows ==> r.volume.None?
  {
  }
}
