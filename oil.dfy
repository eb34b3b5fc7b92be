/**
 * The oil collector of src/services/collector/oil.js: Korean gasoline and
 * diesel prices scraped from GlobalPetrolPrices. Each page is given by what
 * its patterns matched, already parsed with `parseFloat` after the commas
 * were removed.
 */
module Oil {
  import opened Wrappers
  import opened JsNumber
  import opened Records
  import opened Store
  import opened Collecting

  /** One `OIL_TYPES` entry: the stored symbol and the name used in messages. */
  datatype OilConfig = OilConfig(symbol: string, name: string)

  /** `Object.keys(OIL_TYPES)`, in declaration order. */
  const OilTypes: seq<string> := ["gasoline", "diesel"]

  /** `OIL_TYPES[type]`: `None` for a type that is not configured. */
  function ConfigOf(oilType: string): (c: Option<OilConfig>)
    ensures c.Some? <==> oilType in OilTypes
  {
    if oilType == "gasoline" then Some(OilConfig("GASOLINE", "휘발유"))
    else if oilType == "diesel" then Some(OilConfig("DIESEL", "경유"))
    else None
  }

  /**
   * One table's matches: the `Current price` figure and the `One month ago
   * … %` figure, `None` when the pattern does not occur in its text.
   */
  datatype OilTable = OilTable(price: Option<JsNum>, change: Option<JsNum>)

  /** A page: its tables in document order, and the `KRW x` figure of its title. */
  datatype OilPage = OilPage(tables: seq<OilTable>, title: Option<JsNum>)

  function PriceMatches(tables: seq<OilTable>): (ms: seq<Option<JsNum>>)
    ensures |ms| == |tables| && forall i :: 0 <= i < |tables| ==> ms[i] == tables[i].price
  {
    seq(|tables|, i requires 0 <= i < |tables| => tables[i].price)
  }

  function ChangeMatches(tables: seq<OilTable>): (ms: seq<Option<JsNum>>)
    ensures |ms| == |tables| && forall i :: 0 <= i < |tables| ==> ms[i] == tables[i].change
  {
    seq(|tables|, i requires 0 <= i < |tables| => tables[i].change)
  }

  /** `change` starts at 0 and is overwritten by every table that matches. */
  function ChangeOrZero(c: Option<JsNum>): JsNum
  {
    if c.Some? then c.value else Num(0.0)
  }

  /**
   * The `$('table').each` loop: each table that matches overwrites `price`
   * or `change`, so the last match of each pattern wins.
   */
  method ScanTables(tables: seq<OilTable>) returns (price: Option<JsNum>, change: JsNum)
    ensures price == LastSome(PriceMatches(tables))
    ensures change == ChangeOrZero(LastSome(ChangeMatches(tables)))
  {
    price := None;
    change := Num(0.0);
    var i := 0;
    while i < |tables|
      invariant 0 <= i <= |tables|
      invariant price == LastSome(PriceMatches(tables[..i]))
      invariant change == ChangeOrZero(LastSome(ChangeMatches(tables[..i])))
    {
      assert PriceMatches(tables[..i + 1]) == PriceMatches(tables)[..i + 1];
      assert PriceMatches(tables[..i]) == PriceMatches(tables)[..i];
      assert ChangeMatches(tables[..i + 1]) == ChangeMatches(tables)[..i + 1];
      assert ChangeMatches(tables[..i]) == ChangeMatches(tables)[..i];
      LastSomeStep(PriceMatches(tables), i);
      LastSomeStep(ChangeMatches(tables), i);
      if tables[i].price.Some? {
        price := tables[i].price;
      }
      if tables[i].change.Some? {
        change := tables[i].change.value;
      }
      i := i + 1;
    }
    assert tables[..i] == tables;
  }

  datatype OilPrice = OilPrice(price: real, change: JsNum)

  /**
   * `extractOilPrice($)`: the tables' price, or the title's when the tables
   * gave none that is truthy; `null` unless the final price is truthy.
   */
  function ExtractOilPrice(page: OilPage): Option<OilPrice>
  {
    var scanned := LastSome(PriceMatches(page.tables));
    var change := ChangeOrZero(LastSome(ChangeMatches(page.tables)));
    var price := if !TruthyOpt(scanned) && page.title.Some? then page.title else scanned;
    if TruthyOpt(price) then Some(OilPrice(price.value.value, change)) else None
  }

  /**
   * A truthy price in the tables wins over the title; otherwise a price is
   * found exactly when the title's figure is truthy. The change is the last
   * table's `One month ago` figure, or 0 when no table has one.
   */
  lemma OilPricePrecedence(page: OilPage)
    ensures var scanned := LastSome(PriceMatches(page.tables));
      && (TruthyOpt(scanned) ==> ExtractOilPrice(page).Some? && ExtractOilPrice(page).value.price == scanned.value.value)
      && (!TruthyOpt(scanned) ==> (ExtractOilPrice(page).Some? <==> TruthyOpt(page.title)))
      && (!TruthyOpt(scanned) && TruthyOpt(page.title) ==> ExtractOilPrice(page).value.price == page.title.value.value)
    ensures ExtractOilPrice(page).Some? ==> ExtractOilPrice(page).value.price != 0.0
    ensures ExtractOilPrice(page).Some? && (forall i :: 0 <= i < |page.tables| ==> page.tables[i].change.None?) ==>
      ExtractOilPrice(page).value.change == Num(0.0)
  {
    LastSomeSpec(ChangeMatches(page.tables));
  }

  /**
   * The last table with a `Current price` match sets the price: a truthy
   * match in the last such table is the result whatever came before it.
   */
  lemma LastTableWins(page: OilPage, k: nat)
    requires k < |page.tables| && page.tables[k].price.Some? && Truthy(page.tables[k].price.value)
    requires forall j :: k < j < |page.tables| ==> page.tables[j].price.None?
    ensures ExtractOilPrice(page) == Some(OilPrice(page.tables[k].price.value.value,
                                                   ChangeOrZero(LastSome(ChangeMatches(page.tables)))))
  {
    var ms := PriceMatches(page.tables);
    LastSomeSpec(ms);
    var i :| 0 <= i < |ms| && ms[i] == LastSome(ms) && forall j :: i < j < |ms| ==> ms[j].None?;
    assert i == k;
  }

  /** The record `fetchOilPrice` returns for a found price. */
  function OilRecord(config: OilConfig, p: OilPrice): (rec: PriceRecord)
    ensures rec.category == "oil" && rec.symbol == config.symbol && rec.unit == "KRW"
    ensures rec.price == p.price && rec.change == ChangeValue(p.change)
  {
    PriceRecord("oil", config.symbol, p.price, ChangeValue(p.change), "KRW")
  }

  /**
   * `fetchOilPrice(type)`: `null` for an unknown type, a failed request or a
   * page without a price; otherwise the record of the configured symbol.
   */
  function FetchOilPrice(oilType: string, page: Fetch<OilPage>): (r: Option<PriceRecord>)
  {
    var config := ConfigOf(oilType);
    if config.None? || page.FetchFailed? then None
    else
      var result := ExtractOilPrice(page.value);
      if result.None? then None else Some(OilRecord(config.value, result.value))
  }

  /** A record is produced exactly for a configured type whose page yields a price, and it carries that price. */
  lemma FetchOilPriceSpec(oilType: string, page: Fetch<OilPage>)
    ensures FetchOilPrice(oilType, page).Some? <==>
      oilType in OilTypes && page.Fetched? && ExtractOilPrice(page.value).Some?
    ensures FetchOilPrice(oilType, page).Some? ==>
      var rec := FetchOilPrice(oilType, page).value;
      && rec.category == "oil" && rec.unit == "KRW"
      && rec.symbol == (if oilType == "gasoline" then "GASOLINE" else "DIESEL")
      && rec.price == ExtractOilPrice(page.value).value.price && rec.price != 0.0
  {
    if page.Fetched? {
      OilPricePrecedence(page.value);
    }
  }

  /** The result of `fetchOilPrice` for each type, `pages[i]` being the page of `OilTypes[i]`. */
  function OilResults(pages: seq<Fetch<OilPage>>): (rs: seq<Option<PriceRecord>>)
    requires |pages| == |OilTypes|
    ensures |rs| == |OilTypes| && forall i :: 0 <= i < |OilTypes| ==> rs[i] == FetchOilPrice(OilTypes[i], pages[i])
  {
    [FetchOilPrice(OilTypes[0], pages[0]), FetchOilPrice(OilTypes[1], pages[1])]
  }

  /** The `for` loop over the types, keeping each non-null `fetchOilPrice` result in order. */
  method FetchOilPrices(pages: seq<Fetch<OilPage>>) returns (found: seq<PriceRecord>)
    requires |pages| == |OilTypes|
    ensures found == Somes(OilResults(pages))
  {
    ghost var results := OilResults(pages);
    found := [];
    var i := 0;
    while i < |OilTypes|
      invariant 0 <= i <= |OilTypes|
      invariant found == Somes(results[..i])
    {
      SomesStep(results, i);
      var priceData := FetchOilPrice(OilTypes[i], pages[i]);
      if priceData.Some? {
        found := found + [priceData.value];
      }
      i := i + 1;
    }
    assert results[..i] == results;
  }

  /**
   * `collectOil()`: gasoline then diesel; each price found is inserted and
   * returned, a missing one is skipped, so the call succeeds even when none
   * is found. With the database closed the first insert fails the call.
   */
  method CollectOil(db: Database, pages: seq<Fetch<OilPage>>, now: int) returns (out: Outcome)
    requires db.Valid() && |pages| == |OilTypes|
    modifies db
    ensures db.Valid() && OnlyPricesChanged(db)
    ensures var records := Somes(OilResults(pages));
      && out == Saved(db.open, records)
      && db.prices == if db.open then old(db.prices) + PriceRowsOf(records, old(db.lastPriceId), now) else old(db.prices)
  {
    var found := FetchOilPrices(pages);
    out := InsertEach(db, found, now);
  }
}
