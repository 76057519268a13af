/**
 * The client object: a security code and the engine, market and board it is
 * traded on. The fields are set once by the constructor and never change, so
 * the client is a value.
 */
module Client {

  const DefaultEngine: string := "stock"
  const DefaultMarket: string := "shares"
  const DefaultBoard: string := "TQBR"

  datatype Client = Client(ticker: string, engine: string, market: string, board: string)

  /** str.upper on one character, restricted to ASCII letters. */
  function UpperChar(c: char): char {
    if 'a' <= c <= 'z' then (c as int - 'a' as int + 'A' as int) as char else c
  }

  predicate IsLowerAscii(c: char) {
    'a' <= c <= 'z'
  }

  /** str.upper: every ASCII lower-case letter becomes its capital, the rest is kept. */
  function Upper(s: string): (u: string)
    ensures |u| == |s|
    ensures forall i :: 0 <= i < |s| ==> !IsLowerAscii(u[i])
    ensures forall i :: 0 <= i < |s| && !IsLowerAscii(s[i]) ==> u[i] == s[i]
    ensures forall i :: 0 <= i < |s| && IsLowerAscii(s[i]) ==>
              u[i] as int == s[i] as int - 32
  {
    if s == [] then [] else [UpperChar(s[0])] + Upper(s[1..])
  }

  /** Upper-casing twice is upper-casing once. */
  lemma UpperIdempotent(s: string)
    ensures Upper(Upper(s)) == Upper(s)
  {
    var u := Upper(s);
    assert forall i :: 0 <= i < |u| ==> Upper(u)[i] == u[i];
  }

  /** The constructor: the ticker is upper-cased, the classification strings are kept. */
  function NewClient(ticker: string, engine: string := DefaultEngine,
                     market: string := DefaultMarket, board: string := DefaultBoard): (c: Client)
    ensures c.ticker == Upper(ticker)
    ensures |c.ticker| == |ticker| && forall i :: 0 <= i < |ticker| ==> !IsLowerAscii(c.ticker[i])
    ensures c.engine == engine && c.market == market && c.board == board
  {
    Client(Upper(ticker), engine, market, board)
  }

  /** A ticker given in any case names the same client as its upper-case spelling. */
  lemma TickerCaseInsensitive(ticker: string, engine: string, market: string, board: string)
    ensures NewClient(Upper(ticker), engine, market, board) == NewClient(ticker, engine, market, board)
  {
    UpperIdempotent(ticker);
  }
}
