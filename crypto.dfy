/**
 * The crypto collector of src/services/collector/crypto.js: KRW prices of
 * the configured coins from one CoinGecko `simple/price` response, given
 * here as the map from coin id to its quote.
 */
module Crypto {
  import opened Wrappers
  import opened JsNumber
  import opened Records
  import opened Store
  import opened Collecting

  /** One `COINS` entry: the CoinGecko id and the stored symbol. */
  datatype Coin = Coin(id: string, symbol: string)

  /** `COINS`, in the order the records are produced. */
  const Coins: seq<Coin> := [Coin("bitcoin", "BTC"), Coin("ethereum", "ETH")]

  /** `response.data[id]`: the KRW price and the 24-hour change in percent, NaN when it is missing. */
  datatype CoinQuote = CoinQuote(krw: real, change24h: JsNum)

  /**
   * `Math.round(change * 100) / 100`: the change to two decimals; a NaN
   * change stays NaN and is stored as NULL, kept as 0 here.
   */
  function CoinChange(c: JsNum): (r: real)
    ensures c.Num? ==> -0.005 <= r - c.value <= 0.005
    ensures c.NaN? ==> r == 0.0
  {
    if c.Num? then Round2Close(c.value); Round2(c.value) else 0.0
  }

  /** The record of one coin. */
  function CoinRecord(coin: Coin, q: CoinQuote): (rec: PriceRecord)
    ensures rec.category == "crypto" && rec.symbol == coin.symbol && rec.unit == "KRW"
    ensures rec.price == q.krw && rec.change == CoinChange(q.change24h)
  {
    PriceRecord("crypto", coin.symbol, q.krw, CoinChange(q.change24h), "KRW")
  }

  /** For each coin of `COINS`, its record, or `None` when the response lacks it. */
  function CoinResults(quotes: map<string, CoinQuote>): (rs: seq<Option<PriceRecord>>)
    ensures |rs| == |Coins|
    ensures forall i :: 0 <= i < |Coins| ==>
      rs[i] == if Coins[i].id in quotes then Some(CoinRecord(Coins[i], quotes[Coins[i].id])) else None
  {
    seq(|Coins|, i requires 0 <= i < |Coins| =>
      if Coins[i].id in quotes then Some(CoinRecord(Coins[i], quotes[Coins[i].id])) else None)
  }

  /** The `for (const coin of COINS)` loop: a coin missing from the response is skipped with `continue`. */
  method CoinRecords(quotes: map<string, CoinQuote>) returns (found: seq<PriceRecord>)
    ensures found == Somes(CoinResults(quotes))
  {
    ghost var results := CoinResults(quotes);
    found := [];
    var i := 0;
    while i < |Coins|
      invariant 0 <= i <= |Coins|
      invariant found == Somes(results[..i])
    {
      SomesStep(results, i);
      var coin := Coins[i];
      if coin.id in quotes {
        found := found + [CoinRecord(coin, quotes[coin.id])];
      }
      i := i + 1;
    }
    assert results[..i] == results;
  }

  /**
   * At most one record per coin, bitcoin's before ethereum's, each present
   * exactly when its id is in the response.
   */
  lemma CoinRecordsSpec(quotes: map<string, CoinQuote>)
    ensures var rs := Somes(CoinResults(quotes));
      && |rs| == (if "bitcoin" in quotes then 1 else 0) + (if "ethereum" in quotes then 1 else 0)
      && ("bitcoin" in quotes ==> rs[0] == CoinRecord(Coin("bitcoin", "BTC"), quotes["bitcoin"]))
      && ("ethereum" in quotes ==> rs[|rs| - 1] == CoinRecord(Coin("ethereum", "ETH"), quotes["ethereum"]))
  {
    var results := CoinResults(quotes);
    SomesStep(results, 0);
    SomesStep(results, 1);
    assert results[..0] == [];
    assert results[..2] == results;
  }

  /**
   * `collectCrypto()`: a failed request returns its message and stores
   * nothing; otherwise each coin in the response is inserted and returned,
   * in `COINS` order.
   */
  method CollectCrypto(db: Database, response: Fetch<map<string, CoinQuote>>, now: int) returns (out: Outcome)
    requires db.Valid()
    modifies db
    ensures db.Valid() && OnlyPricesChanged(db)
    ensures response.FetchFailed? ==> out == Fail(response.message) && db.prices == old(db.prices)
    ensures response.Fetched? ==>
      var records := Somes(CoinResults(response.value));
      && out == Saved(db.open, records)
      && db.prices == if db.open then old(db.prices) + PriceRowsOf(records, old(db.lastPriceId), now) else old(db.prices)
  {
    if response.FetchFailed? {
      return Fail(response.message);
    }
    var data := CoinRecords(response.value);
    out := InsertEach(db, data, now);
  }
}
