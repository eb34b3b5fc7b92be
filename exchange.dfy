/**
 * The exchange-rate collector of src/services/collector/exchange.js: the
 * USD-based rates of one API response turned into KRW prices of six
 * currencies, with the daily change rate of each scraped from its own page.
 * Each page is given by what its two patterns matched, already parsed with
 * `parseFloat`.
 */
module Exchange {
  import opened Wrappers
  import opened JsNumber
  import opened Records
  import opened Queries
  import opened Store
  import opened Collecting

  /** The currencies in the order their pages are visited and their records produced. */
  const Currencies: seq<string> := ["USD", "EUR", "JPY", "CNY", "RUB", "VND"]

  /**
   * A page's matches: the first `(±x%)`, and the first `x%` anywhere, each
   * through `parseFloat`; `None` when the pattern does not occur.
   */
  datatype ChangePage = ChangePage(paren: Option<JsNum>, percent: Option<JsNum>)

  /**
   * `fetchSingleChangeRate`: the parenthesised rate if it parses; else the
   * first percentage if it parses and lies strictly within ±20; else 0, as
   * on a failed request.
   */
  function SingleChangeRate(page: Fetch<ChangePage>): real
  {
    match page
    case FetchFailed(_) => 0.0
    case Fetched(p) =>
      if p.paren.Some? && p.paren.value.Num? then p.paren.value.value
      else if p.percent.Some? && p.percent.value.Num? && -20.0 < p.percent.value.value < 20.0 then p.percent.value.value
      else 0.0
  }

  /** Whether the page holds a parenthesised rate that parses. */
  predicate HasParenRate(page: Fetch<ChangePage>)
  {
    page.Fetched? && page.value.paren.Some? && page.value.paren.value.Num?
  }

  /**
   * The parenthesised rate wins whatever else the page holds; without one
   * the rate is a percentage found on the page within ±20, or 0.
   */
  lemma SingleChangeRatePrecedence(page: Fetch<ChangePage>)
    ensures HasParenRate(page) ==> SingleChangeRate(page) == page.value.paren.value.value
    ensures !HasParenRate(page) ==> -20.0 < SingleChangeRate(page) < 20.0
    ensures !HasParenRate(page) && SingleChangeRate(page) != 0.0 ==>
      page.Fetched? && page.value.percent == Some(Num(SingleChangeRate(page)))
    ensures page.FetchFailed? ==> SingleChangeRate(page) == 0.0
  {
  }

  /** The `changeRates` object after the first `n` currencies were visited. */
  function ChangeTable(pages: seq<Fetch<ChangePage>>, n: nat): map<string, real>
    requires n <= |Currencies| && |pages| == |Currencies|
  {
    if n == 0 then map[] else ChangeTable(pages, n - 1)[Currencies[n - 1] := SingleChangeRate(pages[n - 1])]
  }

  /** Each visited currency maps to its own page's rate, and no other key is present. */
  lemma {:induction false} ChangeTableSpec(pages: seq<Fetch<ChangePage>>, n: nat)
    requires n <= |Currencies| && |pages| == |Currencies|
    ensures forall c :: c in ChangeTable(pages, n) <==> c in Currencies[..n]
    ensures forall i :: 0 <= i < n ==> ChangeTable(pages, n)[Currencies[i]] == SingleChangeRate(pages[i])
  {
    if n > 0 {
      ChangeTableSpec(pages, n - 1);
      assert Currencies[..n] == Currencies[..n - 1] + [Currencies[n - 1]];
      forall i | 0 <= i < n - 1 ensures Currencies[i] != Currencies[n - 1] {
        CurrenciesDistinct(i, n - 1);
      }
    }
  }

  lemma CurrenciesDistinct(i: nat, j: nat)
    requires i < j < |Currencies|
    ensures Currencies[i] != Currencies[j]
  {
  }

  /**
   * `fetchInvestingChangeRates()`: visit the six pages in order, recording
   * each currency's rate. Every request catches its own error, so all six
   * keys are always set.
   */
  method FetchInvestingChangeRates(pages: seq<Fetch<ChangePage>>) returns (rates: map<string, real>)
    requires |pages| == |Currencies|
    ensures rates == ChangeTable(pages, |Currencies|)
    ensures forall c :: c in rates <==> c in Currencies
    ensures forall i :: 0 <= i < |Currencies| ==> rates[Currencies[i]] == SingleChangeRate(pages[i])
  {
    rates := map[];
    var i := 0;
    while i < |Currencies|
      invariant 0 <= i <= |Currencies|
      invariant rates == ChangeTable(pages, i)
    {
      rates := rates[Currencies[i] := SingleChangeRate(pages[i])];
      i := i + 1;
    }
    ChangeTableSpec(pages, |Currencies|);
    assert Currencies[..|Currencies|] == Currencies;
  }

  type PositiveReal = r: real | r > 0.0 witness 1.0

  /** `response.data.rates`: KRW and each other currency per one US dollar. */
  datatype UsdRates = UsdRates(krw: real, eur: PositiveReal, jpy: PositiveReal, cny: PositiveReal,
                               rub: PositiveReal, vnd: PositiveReal)

  /** Units of the currency per US dollar. */
  function PerUsd(r: UsdRates, c: string): PositiveReal
  {
    if c == "EUR" then r.eur else if c == "JPY" then r.jpy else if c == "CNY" then r.cny
    else if c == "RUB" then r.rub else if c == "VND" then r.vnd else 1.0
  }

  /** Yen and dong are quoted per 100 units, the others per unit. */
  function QuoteUnits(c: string): real
  {
    if c == "JPY" || c == "VND" then 100.0 else 1.0
  }

  /** `changeRates[c] || 0`. */
  function ChangeOf(changes: map<string, real>, c: string): real
  {
    if c in changes then changes[c] else 0.0
  }

  /** The record of one currency: its quote in KRW rounded to two decimals. */
  function CurrencyRecord(r: UsdRates, changes: map<string, real>, c: string): (rec: PriceRecord)
    ensures rec.category == "exchange" && rec.symbol == c && rec.unit == "KRW"
    ensures rec.change == ChangeOf(changes, c)
    ensures -0.005 <= rec.price - QuoteUnits(c) * (r.krw / PerUsd(r, c)) <= 0.005
  {
    var quote := if c == "JPY" || c == "VND" then (r.krw / PerUsd(r, c)) * 100.0 else r.krw / PerUsd(r, c);
    Round2Close(quote);
    PriceRecord("exchange", c, Round2(quote), ChangeOf(changes, c), "KRW")
  }

  /** The six records of `collectExchange` in order USD, EUR, JPY, CNY, RUB, VND. */
  function ExchangeRecords(r: UsdRates, changes: map<string, real>): (rs: seq<PriceRecord>)
    ensures |rs| == |Currencies|
    ensures forall i :: 0 <= i < |Currencies| ==> rs[i] == CurrencyRecord(r, changes, Currencies[i])
  {
    [CurrencyRecord(r, changes, "USD"), CurrencyRecord(r, changes, "EUR"), CurrencyRecord(r, changes, "JPY"),
     CurrencyRecord(r, changes, "CNY"), CurrencyRecord(r, changes, "RUB"), CurrencyRecord(r, changes, "VND")]
  }

  /**
   * The quotes are cross rates through the dollar: the dollar itself at the
   * API's KRW rate, and a yen or dong quote 100 times the one-unit rate; a
   * nonnegative KRW rate gives nonnegative prices.
   */
  lemma CrossRates(r: UsdRates, changes: map<string, real>, c: string)
    ensures c == "USD" ==> CurrencyRecord(r, changes, c).price == Round2(r.krw)
    ensures c == "JPY" || c == "VND" ==> CurrencyRecord(r, changes, c).price == Round2(100.0 * (r.krw / PerUsd(r, c)))
    ensures r.krw >= 0.0 ==> CurrencyRecord(r, changes, c).price >= 0.0
  {
    var quote := if c == "JPY" || c == "VND" then (r.krw / PerUsd(r, c)) * 100.0 else r.krw / PerUsd(r, c);
    assert r.krw / PerUsd(r, c) >= 0.0 <== r.krw >= 0.0;
    Round2Sign(quote);
  }

  /**
   * `collectExchange()`: a failed rate request returns its message and
   * stores nothing; otherwise the change rates are fetched and the six
   * records are inserted and returned in order.
   */
  method CollectExchange(db: Database, response: Fetch<UsdRates>, pages: seq<Fetch<ChangePage>>, now: int)
    returns (out: Outcome)
    requires db.Valid() && |pages| == |Currencies|
    modifies db
    ensures db.Valid() && OnlyPricesChanged(db)
    ensures response.FetchFailed? ==> out == Fail(response.message) && db.prices == old(db.prices)
    ensures response.Fetched? ==>
      var records := ExchangeRecords(response.value, ChangeTable(pages, |Currencies|));
      out == Saved(db.open, records)
      && db.prices == if db.open then old(db.prices) + PriceRowsOf(records, old(db.lastPriceId), now) else old(db.prices)
  {
    if response.FetchFailed? {
      return Fail(response.message);
    }
    var changeRates := FetchInvestingChangeRates(pages);
    var records := ExchangeRecords(response.value, changeRates);
    out := InsertEach(db, records, now);
  }
}
