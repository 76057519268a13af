/**
 * Values shared by every part of the MOEX ISS client model: the JSON the
 * server sends back, the requests the client issues, the rows it keeps and
 * the errors it raises.
 */
module MoexTypes {

  datatype Option<+T> = None | Some(value: T)

  /** Every exception the client raises becomes a `Failure`. */
  datatype Result<+T> = Success(value: T) | Failure(error: Error)

  datatype Error =
    | InvalidInterval(interval: string)  // ValueError: interval not in the table
    | Transport(message: string)         // RuntimeError raised by the HTTP layer
    | NoData                             // ValueError: no page was accumulated
    | MalformedPage                       // pandas: column count differs from row width
    | MissingColumn(name: string)        // KeyError on a column lookup
    | BadTimestamp                       // pd.to_datetime cannot parse a cell
    | NoMarketData                        // ValueError: empty marketdata block
    | InvalidPrice                        // ValueError: no usable positive finite price
    | InvalidVolume                       // ValueError: no usable positive volume
    | NotANumber                          // ValueError from float() on a non-numeric cell

  /** A Python float: a finite value, an infinity or NaN. */
  datatype Float = Real(x: real) | PosInf | NegInf | NaN

  /**
   * One cell of a JSON data row. `Stamp(t)` is a date or date-time string,
   * standing for the instant `t` that pd.to_datetime parses it to.
   */
  datatype Value = Null | Num(f: Float) | Stamp(t: int)

  /** pd.notna on a single cell. */
  predicate NotNa(v: Value) {
    !(v.Null? || (v.Num? && v.f.NaN?))
  }

  /**
   * A JSON block such as `history`, `candles` or `marketdata`. A key that is
   * absent is `None`; `otherKeys` records whether the object has any key
   * besides `columns` and `data` (`metadata`, say).
   */
  datatype Envelope = Envelope(
    columns: Option<seq<string>>,
    data: Option<seq<seq<Value>>>,
    otherKeys: bool)

  /** Python truthiness of a dict: it is truthy when it has at least one key. */
  predicate Truthy(e: Envelope) {
    e.columns.Some? || e.data.Some? || e.otherKeys
  }

  /** A decoded response body: its top-level keys and their blocks. */
  type Json = map<string, Envelope>

  /** A query-string parameter. */
  datatype Param = Text(s: string) | Int(n: int)

  type Params = map<string, Param>

  /** One GET issued to the server: the endpoint path below the base URL and its query. */
  datatype Request = Request(path: string, params: Params)

  /** The server as seen through the HTTP layer: a body, or the error it raised. */
  type Server = Request -> Result<Json>

  /** One projected row of a page: timestamp, close price and volume when the page has one. */
  datatype Row = Row(time: int, close: Value, volume: Option<Value>)

  /** The first position of `name` in `cols`, as pandas resolves a column label. */
  function IndexOf(cols: seq<string>, name: string): (r: Option<nat>)
    ensures r.None? <==> name !in cols
    ensures r.Some? ==> r.value < |cols| && cols[r.value] == name &&
                        forall j :: 0 <= j < r.value ==> cols[j] != name
  {
    if cols == [] then None
    else if cols[0] == name then Some(0)
    else match IndexOf(cols[1..], name)
      case None => None
      case Some(i) => Some(i + 1)
  }

  /** Cell `i` of a row; pandas pads a row shorter than the frame with nulls. */
  function Cell(row: seq<Value>, i: nat): Value {
    if i < |row| then row[i] else Null
  }

  /** The width pandas gives a frame built from `data`: its longest row. */
  function Width(data: seq<seq<Value>>): (w: nat)
    ensures forall r :: r in data ==> |r| <= w
    ensures data != [] ==> exists r :: r in data && |r| == w
  {
    if data == [] then 0
    else
      var rest := Width(data[1..]);
      assert forall r :: r in data ==> r == data[0] || r in data[1..];
      if |data[0]| >= rest then |data[0]| else rest
  }
}
