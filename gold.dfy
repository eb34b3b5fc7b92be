/**
 * The gold and silver collectors of src/services/collector/gold.js: a USD
 * price per troy ounce taken from a TradingEconomics page, converted to KRW
 * per don (3.75 g) at the best USD/KRW rate available. Each page is given by
 * what its patterns matched, already parsed with `parseFloat`.
 */
module Gold {
  import opened Wrappers
  import opened JsNumber
  import opened Records
  import opened Queries
  import opened Store
  import opened Collecting

  /** `DEFAULT_EXCHANGE_RATE`: the USD/KRW rate used when no other is found. */
  const DefaultExchangeRate: real := 1450.0

  /** A scraped USD/KRW rate is believed only above this. */
  const MinScrapedRate: real := 100.0

  /**
   * `getExchangeRate()`: the latest stored USD price if it is truthy (a
   * closed database throws, which is caught); else the scraped `#p` rate if
   * it parses and exceeds 100; else 1450. `scraped` is `None` when the
   * request failed or the text was empty.
   */
  function ExchangeRate(open: bool, prices: seq<PriceRow>, scraped: Option<JsNum>): real
  {
    var stored := if open then GetPrice(prices, "USD") else None;
    if stored.Some? && stored.value.price != 0.0 then stored.value.price
    else if scraped.Some? && scraped.value.Num? && scraped.value.value > MinScrapedRate then scraped.value.value
    else DefaultExchangeRate
  }

  /** The three sources are tried in order, and the rate is never 0. */
  lemma ExchangeRateChain(open: bool, prices: seq<PriceRow>, scraped: Option<JsNum>)
    ensures var stored := if open then GetPrice(prices, "USD") else None;
      var r := ExchangeRate(open, prices, scraped);
      && (stored.Some? && stored.value.price != 0.0 ==> r == stored.value.price)
      && (!(stored.Some? && stored.value.price != 0.0) && scraped.Some? && scraped.value.Num? && scraped.value.value > 100.0
          ==> r == scraped.value.value)
      && (!(stored.Some? && stored.value.price != 0.0) && !(scraped.Some? && scraped.value.Num? && scraped.value.value > 100.0)
          ==> r == 1450.0)
      && r != 0.0
    ensures !open ==> ExchangeRate(open, prices, scraped) > 100.0
  {
  }

  /** The meta description's match: the USD price, the `up|down x%` figure if any, and whether `down` occurs. */
  datatype MetaMatch = MetaMatch(price: JsNum, change: Option<JsNum>, down: bool)

  /**
   * What the page offers: the meta match if its pattern matched, and the
   * parsed `#p` and `#pch` texts (`None` when the element text is empty).
   */
  datatype PricePage = PricePage(meta: Option<MetaMatch>, p: Option<JsNum>, pch: Option<JsNum>)

  datatype Extracted = Extracted(price: real, change: JsNum)

  function Negate(n: JsNum): JsNum
  {
    if n.Num? then Num(-n.value) else NaN
  }

  /** `price` and `change` after the meta-description step; `None` is `null`. */
  function MetaStep(meta: Option<MetaMatch>): (Option<JsNum>, JsNum)
  {
    if meta.None? then (None, Num(0.0))
    else if meta.value.change.None? then (Some(meta.value.price), Num(0.0))
    else (Some(meta.value.price), if meta.value.down then Negate(meta.value.change.value) else meta.value.change.value)
  }

  /**
   * `extractPrice($)`: the meta price unless it is missing, 0 or NaN, in
   * which case `#p` replaces it (when not empty) and a parsing `#pch`
   * replaces the change; `null` unless the final price is truthy.
   */
  function ExtractPrice(page: PricePage): Option<Extracted>
  {
    var (price0, change0) := MetaStep(page.meta);
    var price := if !TruthyOpt(price0) && page.p.Some? then page.p else price0;
    var change := if !TruthyOpt(price0) && page.pch.Some? && page.pch.value.Num? then page.pch.value else change0;
    if TruthyOpt(price) then Some(Extracted(price.value.value, change)) else None
  }

  /** A truthy meta price wins: `#p` and `#pch` are then ignored. */
  lemma MetaFirst(page: PricePage)
    requires page.meta.Some? && Truthy(page.meta.value.price)
    ensures var m := page.meta.value;
      ExtractPrice(page) == Some(Extracted(m.price.value,
        if m.change.None? then Num(0.0) else if m.down then Negate(m.change.value) else m.change.value))
    ensures forall p, pch :: ExtractPrice(page.(p := p, pch := pch)) == ExtractPrice(page)
  {
  }

  /**
   * Without a truthy meta price a result is found exactly when `#p` parses
   * to a truthy number; its change is `#pch` when that parses, else the
   * meta-derived change.
   */
  lemma PageFallback(page: PricePage)
    requires !(page.meta.Some? && Truthy(page.meta.value.price))
    ensures ExtractPrice(page).Some? <==> page.p.Some? && Truthy(page.p.value)
    ensures ExtractPrice(page).Some? ==> ExtractPrice(page).value.price == page.p.value.value
    ensures ExtractPrice(page).Some? && page.pch.Some? && page.pch.value.Num? ==>
      ExtractPrice(page).value.change == page.pch.value
    ensures ExtractPrice(page).Some? && !(page.pch.Some? && page.pch.value.Num?) ==>
      ExtractPrice(page).value.change == MetaStep(page.meta).1
  {
  }

  /** A found price is never 0; a `down` description turns a parsed change negative. */
  lemma ExtractedSign(page: PricePage)
    ensures ExtractPrice(page).Some? ==> ExtractPrice(page).value.price != 0.0
    ensures page.meta.Some? && Truthy(page.meta.value.price) && page.meta.value.down
      && page.meta.value.change.Some? && page.meta.value.change.value.Num? && page.meta.value.change.value.value > 0.0
      ==> ExtractPrice(page).value.change.Num? && ExtractPrice(page).value.change.value < 0.0
  {
  }

  /** `TROY_OZ_TO_DON`: dons per troy ounce, 31.1035 g over 3.75 g. */
  const TroyOzToDon: real := 31.1035 / 3.75

  /** `Math.round(usd * rate / TROY_OZ_TO_DON)`: KRW per don, to the won. */
  function PricePerDon(usd: real, rate: real): (won: int)
    ensures -0.5 < won as real - usd * rate * 3.75 / 31.1035 <= 0.5
  {
    assert usd * rate / TroyOzToDon == usd * rate * 3.75 / 31.1035;
    Round(usd * rate / TroyOzToDon)
  }

  /** At a positive rate a dearer ounce is never a cheaper don. */
  lemma PricePerDonMono(a: real, b: real, rate: real)
    requires a <= b && rate > 0.0
    ensures PricePerDon(a, rate) <= PricePerDon(b, rate)
  {
    assert a * rate <= b * rate;
    assert a * rate / TroyOzToDon <= b * rate / TroyOzToDon;
    RoundMono(a * rate / TroyOzToDon, b * rate / TroyOzToDon);
  }

  datatype Metal = GoldMetal | SilverMetal

  function MetalCategory(m: Metal): string { if m.GoldMetal? then "gold" else "silver" }

  function MetalSymbol(m: Metal): string { if m.GoldMetal? then "XAU" else "XAG" }

  /** The message thrown when the page yields no price. */
  function NotFoundMessage(m: Metal): string
  {
    if m.GoldMetal? then "금 시세를 찾을 수 없습니다" else "은 시세를 찾을 수 없습니다"
  }

  /** The single record of `collectGold`/`collectSilver`. */
  function MetalRecord(m: Metal, e: Extracted, rate: real): (rec: PriceRecord)
    ensures rec.category == MetalCategory(m) && rec.symbol == MetalSymbol(m) && rec.unit == "KRW"
    ensures rec.price == PricePerDon(e.price, rate) as real
    ensures rec.change == ChangeValue(e.change)
  {
    PriceRecord(MetalCategory(m), MetalSymbol(m), PricePerDon(e.price, rate) as real, ChangeValue(e.change), "KRW")
  }

  /**
   * `collectGold()`/`collectSilver()`: a failed page request or a page
   * without a price returns `success: false` and stores nothing; otherwise
   * the rate is looked up before the insert, and the one inserted record is
   * returned.
   */
  method CollectMetal(db: Database, m: Metal, page: Fetch<PricePage>, scraped: Option<JsNum>, now: int)
    returns (out: Outcome)
    requires db.Valid()
    modifies db
    ensures db.Valid() && OnlyPricesChanged(db)
    ensures page.FetchFailed? ==> out == Fail(page.message) && db.prices == old(db.prices)
    ensures page.Fetched? && ExtractPrice(page.value).None? ==> out == Fail(NotFoundMessage(m)) && db.prices == old(db.prices)
    ensures page.Fetched? && ExtractPrice(page.value).Some? ==>
      var rec := MetalRecord(m, ExtractPrice(page.value).value, ExchangeRate(old(db.open), old(db.prices), scraped));
      out == Saved(db.open, [rec])
      && db.prices == if db.open then old(db.prices) + [RowOf(old(db.lastPriceId) + 1, rec, now)] else old(db.prices)
  {
    if page.FetchFailed? {
      return Fail(page.message);
    }
    var result := ExtractPrice(page.value);
    if result.None? {
      return Fail(NotFoundMessage(m));
    }
    var rate := ExchangeRate(db.open, db.prices, scraped);
    var rec := MetalRecord(m, result.value, rate);
    out := InsertEach(db, [rec], now);
  }
}
