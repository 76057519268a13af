/**
 * MoexClient.get_data: one request for the current market data of the
 * security, the price taken from the first usable field of a fixed priority
 * list, then the price and the volume validated.
 */
module Snapshot {
  import opened MoexTypes
  import opened Client
  import opened Pages

  /** The candidate price columns, most preferred first. */
  const PriceFields: seq<string> := ["LCURRENTPRICE", "LAST", "MARKETPRICE", "LASTPRICE", "CLOSEPRICE"]

  /** A current quote. The volume is a float, so it may be +inf. */
  datatype Quote = Quote(price: real, volume: Float, time: int)

  function SnapshotRequest(c: Client): Request {
    Request("engines/" + c.engine + "/markets/" + c.market + "/securities/" + c.ticker + ".json", map[])
  }

  /** `j.get("marketdata", {})`. */
  function MarketData(j: Json): Envelope {
    if "marketdata" in j then j["marketdata"] else Envelope(None, None, false)
  }

  /** df[field].iloc[0], for a column the frame has. */
  function FirstValue(cols: seq<string>, row: seq<Value>, field: string): Value
    requires field in cols
  {
    Cell(row, IndexOf(cols, field).value)
  }

  /** `field in df and pd.notna(df[field].iloc[0])`. */
  predicate Usable(cols: seq<string>, row: seq<Value>, field: string) {
    field in cols && NotNa(FirstValue(cols, row, field))
  }

  /** The position in PriceFields of the field the price is read from, from position `k` on. */
  function PriceIndex(cols: seq<string>, row: seq<Value>, k: nat): (r: Option<nat>)
    requires k <= |PriceFields|
    ensures r.Some? ==> k <= r.value < |PriceFields| && Usable(cols, row, PriceFields[r.value])
    ensures forall i :: k <= i < |PriceFields| && (r.None? || i < r.value) ==>
              !Usable(cols, row, PriceFields[i])
    decreases |PriceFields| - k
  {
    if k == |PriceFields| then None
    else if Usable(cols, row, PriceFields[k]) then Some(k)
    else PriceIndex(cols, row, k + 1)
  }

  /** float(v) on a non-null cell; a date string cannot be converted. */
  function ToFloat(v: Value): Result<Float> {
    match v
    case Num(f) => Success(f)
    case Stamp(_) => Failure(NotANumber)
    case Null => Failure(NotANumber)
  }

  /**
   * The for loop over PriceFields: the first usable field gives the price
   * and no later field is looked at.
   */
  method PickPrice(cols: seq<string>, row: seq<Value>) returns (price: Result<Option<Float>>)
    ensures PriceIndex(cols, row, 0).None? ==> price == Success(None)
    ensures PriceIndex(cols, row, 0).Some? ==>
      var v := FirstValue(cols, row, PriceFields[PriceIndex(cols, row, 0).value]);
      price == match ToFloat(v) case Success(f) => Success(Some(f)) case Failure(e) => Failure(e)
  {
    price := Success(None);
    for i := 0 to |PriceFields|
      invariant PriceIndex(cols, row, 0) == PriceIndex(cols, row, i)
      invariant price == Success(None)
    {
      var field := PriceFields[i];
      if field in cols && NotNa(FirstValue(cols, row, field)) {
        match ToFloat(FirstValue(cols, row, field)) {
          case Success(f) => price := Success(Some(f));
          case Failure(e) => price := Failure(e);
        }
        return;
      }
    }
  }

  /** `price is None or not np.isfinite(price) or price <= 0` raises; anything else is the price. */
  function CheckPrice(price: Option<Float>): (r: Result<real>)
    ensures r.Success? <==> price.Some? && price.value.Real? && price.value.x > 0.0
    ensures r.Success? ==> price == Some(Real(r.value))
    ensures r.Failure? ==> r.error == InvalidPrice
  {
    match price
    case Some(Real(x)) => if x <= 0.0 then Failure(InvalidPrice) else Success(x)
    case _ => Failure(InvalidPrice)
  }

  predicate Positive(f: Float) {
    f.PosInf? || (f.Real? && f.x > 0.0)
  }

  /** A VOLUME column, a non-null first value, and a value above zero; otherwise the call fails. */
  function CheckVolume(cols: seq<string>, row: seq<Value>): (r: Result<Float>)
    ensures r.Success? ==> "VOLUME" in cols && FirstValue(cols, row, "VOLUME") == Num(r.value)
                            && Positive(r.value)
    ensures ("VOLUME" !in cols || !NotNa(FirstValue(cols, row, "VOLUME"))) ==> r == Failure(InvalidVolume)
    ensures "VOLUME" in cols && FirstValue(cols, row, "VOLUME").Num? ==>
              (r.Success? <==> Positive(FirstValue(cols, row, "VOLUME").f))
  {
    if "VOLUME" in cols && NotNa(FirstValue(cols, row, "VOLUME")) then
      match ToFloat(FirstValue(cols, row, "VOLUME"))
      case Failure(e) => Failure(e)
      case Success(v) => if Positive(v) then Success(v) else Failure(InvalidVolume)
    else Failure(InvalidVolume)
  }

  /** `"SYSTIME" in df and pd.notna(df["SYSTIME"].iloc[0])`. */
  predicate HasSysTime(cols: seq<string>, row: seq<Value>) {
    "SYSTIME" in cols && NotNa(FirstValue(cols, row, "SYSTIME"))
  }

  /** A cell that passes the price check: a finite number above zero. */
  predicate ValidPrice(v: Value) {
    v.Num? && v.f.Real? && v.f.x > 0.0
  }

  /** The server's SYSTIME when there is one, the supplied current time otherwise. */
  function QuoteTime(cols: seq<string>, row: seq<Value>, now: int): (r: Result<int>)
    ensures !HasSysTime(cols, row) ==> r == Success(now)
    ensures HasSysTime(cols, row) ==>
              (r.Success? <==> FirstValue(cols, row, "SYSTIME").Stamp?)
    ensures HasSysTime(cols, row) && r.Success? ==> Stamp(r.value) == FirstValue(cols, row, "SYSTIME")
    ensures r.Failure? ==> r.error == BadTimestamp
  {
    if HasSysTime(cols, row) then
      match FirstValue(cols, row, "SYSTIME")
      case Stamp(t) => Success(t)
      case _ => Failure(BadTimestamp)
    else Success(now)
  }

  /**
   * The current quote of a response body. On success the price is the value
   * of the first usable priority field and is positive and finite, and the
   * volume is positive.
   */
  function QuoteOf(j: Json, now: int): (r: Result<Quote>)
    ensures r.Success? ==>
      var data, cols := DataOf(MarketData(j)), ColumnsOf(MarketData(j));
      && data != [] && Width(data) == |cols|
      && PriceIndex(cols, data[0], 0).Some?
      && FirstValue(cols, data[0], PriceFields[PriceIndex(cols, data[0], 0).value]) == Num(Real(r.value.price))
      && r.value.price > 0.0
      && "VOLUME" in cols && FirstValue(cols, data[0], "VOLUME") == Num(r.value.volume)
      && Positive(r.value.volume)
    ensures var data, cols := DataOf(MarketData(j)), ColumnsOf(MarketData(j));
      (&& data != [] && Width(data) == |cols|
       && PriceIndex(cols, data[0], 0).Some?
       && ValidPrice(FirstValue(cols, data[0], PriceFields[PriceIndex(cols, data[0], 0).value]))
       && "VOLUME" in cols && FirstValue(cols, data[0], "VOLUME").Num?
       && Positive(FirstValue(cols, data[0], "VOLUME").f)
       && (HasSysTime(cols, data[0]) ==> FirstValue(cols, data[0], "SYSTIME").Stamp?))
      ==> r == Success(Quote(FirstValue(cols, data[0], PriceFields[PriceIndex(cols, data[0], 0).value]).f.x,
                             FirstValue(cols, data[0], "VOLUME").f,
                             if HasSysTime(cols, data[0]) then FirstValue(cols, data[0], "SYSTIME").t else now))
  {
    var data, cols := DataOf(MarketData(j)), ColumnsOf(MarketData(j));
    if data == [] then Failure(NoMarketData)
    else if Width(data) != |cols| then Failure(MalformedPage)
    else
      var row := data[0];
      var picked := match PriceIndex(cols, row, 0)
        case None => Success(None)
        case Some(i) =>
          match ToFloat(FirstValue(cols, row, PriceFields[i]))
          case Success(f) => Success(Some(f))
          case Failure(e) => Failure(e);
      match picked
      case Failure(e) => Failure(e)
      case Success(p) =>
        match CheckPrice(p)
        case Failure(e) => Failure(e)
        case Success(price) =>
          match CheckVolume(cols, row)
          case Failure(e) => Failure(e)
          case Success(volume) =>
            match QuoteTime(cols, row, now)
            case Failure(e) => Failure(e)
            case Success(t) => Success(Quote(price, volume, t))
  }

  /** get_data: one request, then the first row of its marketdata block. */
  method GetData(c: Client, server: Server, now: int) returns (r: Result<Quote>)
    ensures server(SnapshotRequest(c)).Failure? ==> r == Failure(server(SnapshotRequest(c)).error)
    ensures server(SnapshotRequest(c)).Success? ==> r == QuoteOf(server(SnapshotRequest(c)).value, now)
  {
    var resp := server(SnapshotRequest(c));
    if resp.Failure? {
      return Failure(resp.error);
    }
    var j := resp.value;
    var data, cols := DataOf(MarketData(j)), ColumnsOf(MarketData(j));
    if data == [] {
      return Failure(NoMarketData);
    }
    if Width(data) != |cols| {
      return Failure(MalformedPage);
    }
    var picked := PickPrice(cols, data[0]);
    if picked.Failure? {
      return Failure(picked.error);
    }
    var price := CheckPrice(picked.value);
    if price.Failure? {
      return Failure(price.error);
    }
    var volume := CheckVolume(cols, data[0]);
    if volume.Failure? {
      return Failure(volume.error);
    }
    var t := QuoteTime(cols, data[0], now);
    if t.Failure? {
      return Failure(t.error);
    }
    r := Success(Quote(price.value, volume.value, t.value));
  }

  /**
   * The first usable field decides: when it does not hold a positive finite
   * number the call fails, whatever the later fields hold.
   */
  lemma FirstUsableFieldDecides(j: Json, now: int, i: nat)
    requires var data, cols := DataOf(MarketData(j)), ColumnsOf(MarketData(j));
      && data != [] && Width(data) == |cols|
      && PriceIndex(cols, data[0], 0) == Some(i)
      && !ValidPrice(FirstValue(cols, data[0], PriceFields[i]))
    ensures QuoteOf(j, now).Failure?
  {
  }

  /** With LAST usable and LCURRENTPRICE not, the price is LAST's, even if CLOSEPRICE is there too. */
  lemma LastBeforeClosePrice(j: Json, now: int)
    requires var data, cols := DataOf(MarketData(j)), ColumnsOf(MarketData(j));
      && data != [] && !Usable(cols, data[0], "LCURRENTPRICE") && Usable(cols, data[0], "LAST")
    requires QuoteOf(j, now).Success?
    ensures var data, cols := DataOf(MarketData(j)), ColumnsOf(MarketData(j));
      FirstValue(cols, data[0], "LAST") == Num(Real(QuoteOf(j, now).value.price))
  {
    var data, cols := DataOf(MarketData(j)), ColumnsOf(MarketData(j));
    assert PriceFields[0] == "LCURRENTPRICE" && PriceFields[1] == "LAST";
    assert PriceIndex(cols, data[0], 0) == Some(1);
  }

  /** No priority field usable: the call fails with InvalidPrice. */
  lemma NoPriceFieldFails(j: Json, now: int)
    requires var data, cols := DataOf(MarketData(j)), ColumnsOf(MarketData(j));
      && data != [] && Width(data) == |cols|
      && forall f :: f in PriceFields ==> !Usable(cols, data[0], f)
    ensures QuoteOf(j, now) == Failure(InvalidPrice)
  {
    var data, cols := DataOf(MarketData(j)), ColumnsOf(MarketData(j));
    forall i | 0 <= i < |PriceFields| ensures !Usable(cols, data[0], PriceFields[i]) {
      assert PriceFields[i] in PriceFields;
    }
  }
}
