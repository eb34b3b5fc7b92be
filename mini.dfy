/**
 * The widget window of src/renderer/js/mini.js: the short symbol names, the
 * compact price text, the price list order, the top-15 trend list with its
 * source tabs, the four-currency calculator and the widget's `currentPrices`
 * map. `formatNumber` is `RendererUtils.FormatNumber` and `formatChange` is
 * `Format.FormatChange`; the category order is the main window's
 * `App.CategoryIndex`, which lists the same six categories.
 */
module Mini {
  import opened Wrappers
  import opened Text
  import opened JsNumber
  import opened Sorting
  import opened RendererUtils
  import OM = OrderedMap
  import App
  import Calculator
  import Format
  import Records

  // ---------------------------------------------------------------- names

  /** The `names` table of `getMiniSymbolName`. */
  const MiniSymbolNames: map<string, string> := map[
    "XAU" := "금", "XAG" := "은",
    "GASOLINE" := "휘발유", "DIESEL" := "경유",
    "USD" := "달러", "CNY" := "위안", "JPY" := "엔(100)", "EUR" := "유로",
    "RUB" := "루블", "VND" := "동(100)",
    "BTC" := "비트코인", "ETH" := "이더리움",
    "RATE_US" := "미국금리", "RATE_KR" := "한국금리",
    "CPI_US" := "미국CPI", "CPI_KR" := "한국CPI"]

  /** `names[symbol] || symbol`. */
  function MiniSymbolName(symbol: string): string { NameOr(MiniSymbolNames, symbol) }

  /** The short name is the symbol itself exactly for a symbol the table lacks. */
  lemma MiniNamesFallBack(symbol: string)
    ensures MiniSymbolName(symbol) == symbol <==> symbol !in MiniSymbolNames
    ensures symbol in MiniSymbolNames ==> MiniSymbolName(symbol) == MiniSymbolNames[symbol]
  {
    assert ProperNames(MiniSymbolNames);
    NameOrSpec(MiniSymbolNames, symbol);
  }

  // ---------------------------------------------------------- price text

  /** A present price as the number `formatNumber` receives; a missing one stays missing. */
  function PriceNum(price: Option<real>): Option<JsNum>
  {
    if price.Some? then Some(Num(price.value)) else None
  }

  /** What `formatMiniPrice` prints around `formatNumber(amount, decimals)`. */
  datatype MiniPrice = MiniPrice(prefix: string, amount: Option<JsNum>, decimals: nat, suffix: string)

  /**
   * `formatMiniPrice(price)`: a USD unit first, then crypto (in units of
   * 10000 won once the price reaches 10000; a missing price is below it, as
   * `null >= 10000` is false), then oil, then economic figures as percent,
   * and otherwise no fraction digits except for JPY.
   */
  function MiniPriceOf(q: Quote): MiniPrice
  {
    var value := PriceNum(q.price);
    if q.unit == "USD" then MiniPrice("$", value, 2, "")
    else if q.category == "crypto" then
      if q.price.Some? && q.price.value >= 10000.0 then MiniPrice("", Some(Num(Round(q.price.value / 10000.0) as real)), 0, "만")
      else MiniPrice("", value, 0, "")
    else if q.category == "oil" then MiniPrice("", value, 0, "")
    else if q.category == "economic" then MiniPrice("", value, 2, "%")
    else MiniPrice("", value, if q.symbol == "JPY" then 2 else 0, "")
  }

  /** The text of the price, with `locale` standing for `toLocaleString('ko-KR')`. */
  function MiniPriceText(q: Quote, locale: (real, nat) -> string): string
  {
    var p := MiniPriceOf(q);
    p.prefix + FormatNumber(p.amount, p.decimals, locale) + p.suffix
  }

  /**
   * The branches in the order they are checked: a `$` exactly for the USD
   * unit (whatever the category), `만` exactly for a crypto price of at
   * least 10000 that is not in USD, and `%` exactly for an economic figure
   * that is not in USD. The figure is the price itself, except in `만` units
   * where it is the price over 10000 rounded to the nearest whole number,
   * so it is at least 1 and never off by more than 5000 won; a missing price
   * prints as `-`.
   */
  lemma MiniPriceSpec(q: Quote)
    ensures var p := MiniPriceOf(q);
      && (p.prefix == "$" <==> q.unit == "USD")
      && (p.prefix != "$" ==> p.prefix == "")
      && (p.suffix == "만" <==> q.unit != "USD" && q.category == "crypto" && q.price.Some? && q.price.value >= 10000.0)
      && (p.suffix == "%" <==> q.unit != "USD" && q.category == "economic")
      && (p.suffix == "" <==> p.suffix != "만" && p.suffix != "%")
      && (p.suffix != "만" ==> p.amount == PriceNum(q.price))
      && (p.suffix == "만" ==>
            && p.amount.Some? && p.amount.value.Num?
            && p.amount.value.value >= 1.0
            && -5000.0 <= p.amount.value.value * 10000.0 - q.price.value <= 5000.0)
      && (q.price.None? ==> p.amount.None?)
      && (p.decimals == 2 <==> q.unit == "USD" || (q.category != "crypto" && q.category != "oil"
                                                 && (q.category == "economic" || q.symbol == "JPY")))
  {
    var p := MiniPriceOf(q);
    if p.suffix == "만" {
      var v := q.price.value;
      var r := Round(v / 10000.0) as real;
      assert v / 10000.0 - 0.5 < r <= v / 10000.0 + 0.5;
      assert v / 10000.0 * 10000.0 == v;
    }
  }

  /** A missing price prints as a bare `-` between the branch's prefix and suffix. */
  lemma MiniPriceMissing(q: Quote, locale: (real, nat) -> string)
    requires q.price.None?
    ensures MiniPriceText(q, locale) == MiniPriceOf(q).prefix + "-" + MiniPriceOf(q).suffix
  {
    MiniPriceSpec(q);
  }

  // ----------------------------------------------------------- price list

  /** `symbolOrder[symbol] ?? 99`: the US and Korean rates and price indices first. */
  function SymbolRank(symbol: string): (r: nat)
    ensures r <= 99
  {
    if symbol == "RATE_US" then 0
    else if symbol == "CPI_US" then 1
    else if symbol == "RATE_KR" then 2
    else if symbol == "CPI_KR" then 3
    else 99
  }

  /** The comparator's result is not positive: by category index, then by symbol rank. */
  predicate MiniLe(a: Quote, b: Quote)
  {
    var ca, cb := App.CategoryIndex(a.category), App.CategoryIndex(b.category);
    ca < cb || (ca == cb && SymbolRank(a.symbol) <= SymbolRank(b.symbol))
  }

  lemma MiniOrder()
    ensures TotalPreorder(MiniLe)
  {
  }

  /** What `miniPriceList` shows: the loading spinner, or one row per quote in this order. */
  datatype PriceList = Loading | Rows(quotes: seq<Quote>)

  /** `renderPrices(prices)`: a copy sorted (stably) by the comparator; nothing is dropped. */
  function RenderPrices(prices: seq<Quote>): PriceList
  {
    if prices == [] then Loading else Rows(SortBy(prices, MiniLe))
  }

  /**
   * The spinner shows exactly for no quotes; otherwise the rows are the
   * quotes themselves, each as often as it came, sorted by the comparator,
   * and quotes that compare equal keep the order in which they came.
   */
  lemma RenderPricesSpec(prices: seq<Quote>, k: Quote)
    ensures RenderPrices(prices).Loading? <==> prices == []
    ensures RenderPrices(prices).Rows? ==>
      && multiset(RenderPrices(prices).quotes) == multiset(prices)
      && SortedBy(RenderPrices(prices).quotes, MiniLe)
      && Filter(RenderPrices(prices).quotes, EquivClass(MiniLe, k)) == Filter(prices, EquivClass(MiniLe, k))
  {
    MiniOrder();
    SortBySorted(prices, MiniLe);
    SortByStable(prices, MiniLe, k);
  }

  /**
   * Read off the rows: categories never go backwards, and within a category
   * the ranked indicators come before the rest, RATE_US, CPI_US, RATE_KR,
   * CPI_KR in that order.
   */
  lemma RenderPricesKeys(prices: seq<Quote>, i: int, j: int)
    requires RenderPrices(prices).Rows? && 0 <= i < j < |RenderPrices(prices).quotes|
    ensures var rows := RenderPrices(prices).quotes;
      && App.CategoryIndex(rows[i].category) <= App.CategoryIndex(rows[j].category)
      && (rows[i].category == rows[j].category ==> SymbolRank(rows[i].symbol) <= SymbolRank(rows[j].symbol))
  {
    RenderPricesSpec(prices, prices[0]);
    var rows := RenderPrices(prices).quotes;
    assert MiniLe(rows[i], rows[j]);
  }

  /** The change line of a row: the arrow and the signed percentage. */
  datatype ChangeLine = ChangeLine(up: bool, text: string)

  /** One row of the price list. */
  datatype MiniRow = MiniRow(name: string, price: MiniPrice, change: Option<ChangeLine>)

  function RowOf(q: Quote): MiniRow
  {
    var changeValue := App.ChangeValue(q);
    MiniRow(MiniSymbolName(q.symbol), MiniPriceOf(q),
            if q.category == "economic" then None
            else Some(ChangeLine(changeValue >= 0.0, Format.FormatChange(Num(changeValue)))))
  }

  /**
   * Economic figures have no change line; every other row has one whose
   * arrow points up exactly when its text starts with `+`, showing the rate
   * when there is one and 0 when there is neither rate nor amount.
   */
  lemma RowChange(q: Quote)
    ensures RowOf(q).change.None? <==> q.category == "economic"
    ensures RowOf(q).change.Some? ==>
      && (RowOf(q).change.value.up <==> RowOf(q).change.value.text[0] == '+')
      && (q.changeRate.Some? ==> RowOf(q).change.value.text == Format.FormatChange(Num(q.changeRate.value)))
      && (q.changeRate.None? && q.change.None? ==> RowOf(q).change.value.up)
  {
    Format.FormatChangeSign(Num(App.ChangeValue(q)));
  }

  // --------------------------------------------------------------- trends

  /** At most this many trends are listed. */
  const TrendLimit: nat := 15

  /** The short label of a trend's source; every source other than the two Google ones is Zum. */
  function SourceLabel(source: string): string
  {
    if source == "google_kr" then "KR" else if source == "google_us" then "US" else "줌"
  }

  function FromSource(source: string): Records.TrendEntry -> bool
  {
    (t: Records.TrendEntry) => t.source == source
  }

  /** The trends the selected tab covers: all of them, or those of one source in their order. */
  function ForTab(trends: seq<Records.TrendEntry>, tab: string): seq<Records.TrendEntry>
  {
    if tab == "all" then trends else Filter(trends, FromSource(tab))
  }

  /** One listed trend: its position from 1, its keyword, and the source label on the `all` tab only. */
  datatype TrendRow = TrendRow(rank: nat, keyword: string, tag: Option<string>)

  /** What `miniTrendList` shows: no trends at all, none for this tab, or the rows. */
  datatype TrendView = NoTrends | NoneForTab | TrendRows(rows: seq<TrendRow>)

  /** `renderTrends(trends)` with `currentTrendSource == tab`. */
  function RenderTrends(trends: seq<Records.TrendEntry>, tab: string): TrendView
  {
    if trends == [] then NoTrends
    else
      var top := Take(ForTab(trends, tab), TrendLimit);
      if top == [] then NoneForTab
      else TrendRows(seq(|top|, i requires 0 <= i < |top| =>
                           TrendRow(i + 1, top[i].keyword, if tab == "all" then Some(SourceLabel(top[i].source)) else None)))
  }

  /**
   * The three views: nothing stored; a source tab none of the stored
   * trends belong to; or the first 15 trends of the tab (fewer only when
   * there are fewer), numbered from 1 by position, each from the tab's
   * source unless the tab is `all`, and labelled by source exactly on `all`.
   */
  lemma RenderTrendsSpec(trends: seq<Records.TrendEntry>, tab: string)
    ensures RenderTrends(trends, tab).NoTrends? <==> trends == []
    ensures RenderTrends(trends, tab).NoneForTab? <==>
      trends != [] && tab != "all" && forall i :: 0 <= i < |trends| ==> trends[i].source != tab
    ensures RenderTrends(trends, tab).TrendRows? ==>
      var rows, shown := RenderTrends(trends, tab).rows, ForTab(trends, tab);
      && |rows| == (if |shown| < TrendLimit then |shown| else TrendLimit)
      && forall i :: 0 <= i < |rows| ==>
           && rows[i].rank == i + 1
           && rows[i].keyword == shown[i].keyword
           && (tab != "all" ==> shown[i].source == tab)
           && (rows[i].tag.Some? <==> tab == "all")
           && (tab == "all" ==> rows[i].tag == Some(SourceLabel(trends[i].source)))
  {
    var shown := ForTab(trends, tab);
    if trends != [] && tab != "all" {
      FilterMembers(trends, FromSource(tab));
      if shown == [] {
        forall i | 0 <= i < |trends| ensures trends[i].source != tab {
          assert trends[i] !in shown;
        }
      } else {
        assert shown[0] in trends && shown[0].source == tab;
        forall i | 0 <= i < |shown| ensures shown[i].source == tab {
          assert shown[i] in shown;
        }
      }
    }
  }

  /** On a source tab the rows are that source's trends in stored order, whatever the other sources hold. */
  lemma TrendsOtherSources(trends: seq<Records.TrendEntry>, more: seq<Records.TrendEntry>, tab: string)
    requires tab != "all" && trends != [] && more != []
    requires forall i :: 0 <= i < |more| ==> more[i].source != tab
    ensures RenderTrends(trends + more, tab) == RenderTrends(trends, tab)
  {
    FilterAppend(trends, more, FromSource(tab));
    FilterNone(more, FromSource(tab));
  }

  // ----------------------------------------------------------- calculator

  /** `rates[code]`: won per unit for the four widget currencies, nothing for any other code. */
  function MiniRate(prices: map<string, JsNum>, code: string): Option<real>
  {
    if code == "KRW" then Some(1.0)
    else if code == "USD" then Some(Calculator.PriceOr(prices, "USD", 1445.0))
    else if code == "EUR" then Some(Calculator.PriceOr(prices, "EUR", 1700.0))
    else if code == "JPY" then Some(Calculator.PriceOr(prices, "JPY", 927.0) / 100.0)
    else None
  }

  /** `symbols[code]`, which prints as `undefined` for a code outside the table. */
  function MiniSymbol(code: string): string
  {
    if code == "KRW" then "₩" else if code == "USD" then "$" else if code == "EUR" then "€"
    else if code == "JPY" then "¥" else "undefined"
  }

  /** What `miniCalcResult` shows: the target's symbol and `formatNumber(result, decimals)`. */
  datatype CalcView = CalcView(symbol: string, result: JsNum, decimals: nat)

  /**
   * `updateCalc()` for the parsed amount and the two selected codes: a code
   * without a rate makes the product or the quotient NaN.
   */
  function MiniCalc(prices: map<string, JsNum>, parsed: JsNum, from: string, to: string): CalcView
  {
    var amount := Calculator.AmountOf(parsed);
    var fromRate, toRate := MiniRate(prices, from), MiniRate(prices, to);
    CalcView(MiniSymbol(to),
             if fromRate.Some? && toRate.Some? then Num(amount * fromRate.value / toRate.value) else NaN,
             if to == "KRW" then 0 else 2)
  }

  /** The widget currencies, among the main calculator's. */
  predicate WidgetCurrency(c: Calculator.Currency)
  {
    c == Calculator.KRW || c == Calculator.USD || c == Calculator.EUR || c == Calculator.JPY
  }

  /** The widget's rate for one of its currencies is the main calculator's rate, defaults included. */
  lemma MiniRateAgrees(prices: map<string, JsNum>, c: Calculator.Currency)
    requires WidgetCurrency(c)
    ensures MiniRate(prices, Calculator.CurrencyCode(c)) == Some(Calculator.Rate(prices, c))
    ensures MiniSymbol(Calculator.CurrencyCode(c)) == Calculator.CurrencySymbol(c)
  {
  }

  /**
   * For the four widget currencies the widget shows what the main
   * calculator shows, with the same fallback rates.
   */
  lemma MiniCalcAgrees(prices: map<string, JsNum>, parsed: JsNum, from: Calculator.Currency, to: Calculator.Currency)
    requires WidgetCurrency(from) && WidgetCurrency(to)
    ensures var v := MiniCalc(prices, parsed, Calculator.CurrencyCode(from), Calculator.CurrencyCode(to));
      var main := Calculator.ResultOf(prices, Calculator.AmountOf(parsed), from, to);
      v == CalcView(main.symbol, Num(main.value), main.decimals)
  {
    var amount := Calculator.AmountOf(parsed);
    var f, t := Calculator.CurrencyCode(from), Calculator.CurrencyCode(to);
    var main := Calculator.ResultOf(prices, amount, from, to);
    var fr, tr := Calculator.Rate(prices, from), Calculator.Rate(prices, to);
    assert MiniRate(prices, f) == Some(fr) by { MiniRateAgrees(prices, from); }
    assert MiniRate(prices, t) == Some(tr) && MiniSymbol(t) == main.symbol by { MiniRateAgrees(prices, to); }
    assert main.value == amount * fr / tr;
    assert (t == "KRW") == (to == Calculator.KRW) by { CodeIsKRW(to); }
    MiniCalcOf(prices, parsed, f, t, fr, tr, main);
  }

  lemma MiniCalcOf(prices: map<string, JsNum>, parsed: JsNum, f: string, t: string, fr: real, tr: real,
                   main: Calculator.ResultView)
    requires MiniRate(prices, f) == Some(fr) && MiniRate(prices, t) == Some(tr)
    requires MiniSymbol(t) == main.symbol && main.value == Calculator.AmountOf(parsed) * fr / tr
    requires main.decimals == (if t == "KRW" then 0 else 2)
    ensures MiniCalc(prices, parsed, f, t) == CalcView(main.symbol, Num(main.value), main.decimals)
  {
  }

  lemma CodeIsKRW(c: Calculator.Currency)
    ensures (Calculator.CurrencyCode(c) == "KRW") == (c == Calculator.KRW)
  {
  }

  /** A code outside the four has no rate, so the result is NaN and shows as `-`, on either side. */
  lemma MiniCalcUnknown(prices: map<string, JsNum>, parsed: JsNum, code: string, other: string, locale: (real, nat) -> string)
    requires other != "KRW" && other != "USD" && other != "EUR" && other != "JPY"
    ensures MiniCalc(prices, parsed, other, code).result == NaN
    ensures MiniCalc(prices, parsed, code, other).result == NaN
    ensures FormatNumber(Some(MiniCalc(prices, parsed, code, other).result), 2, locale) == "-"
    ensures MiniCalc(prices, parsed, code, other).symbol == "undefined"
  {
  }

  /** `currentPrices.get(symbol)?.price` for every filed symbol; a missing price reads as falsy. */
  function PriceMap(current: OM.Entries<string, Quote>): (m: map<string, JsNum>)
    ensures forall s :: s in m <==> OM.Has(current, s)
  {
    map s | s in OM.Keys(current) :: if OM.Get(current, s).value.price.Some? then Num(OM.Get(current, s).value.price.value) else NaN
  }

  /** A rate comes from the map exactly when the filed quote has a non-zero price. */
  lemma PriceMapTruthy(current: OM.Entries<string, Quote>, s: string)
    ensures var m := PriceMap(current);
      (s in m && Truthy(m[s])) <==> OM.Get(current, s).Some? && OM.Get(current, s).value.price.Some? && OM.Get(current, s).value.price.value != 0.0
    ensures s in PriceMap(current) && Truthy(PriceMap(current)[s]) ==> PriceMap(current)[s].value == OM.Get(current, s).value.price.value
  {
  }

  // ---------------------------------------------------------------- state

  /**
   * The widget's module state: `currentPrices` (symbol to latest quote, in
   * first-arrival order), `allTrends`, `currentTrendSource`, and what the
   * price list, the trend list and the calculator result show.
   */
  class Widget {
    var currentPrices: OM.Entries<string, Quote>
    var allTrends: seq<Records.TrendEntry>
    var trendSource: string
    var priceList: PriceList
    var trendView: TrendView
    var calcResult: CalcView

    ghost predicate Valid()
      reads this
    {
      OM.UniqueKeys(currentPrices)
    }

    constructor ()
      ensures Valid() && currentPrices == [] && allTrends == [] && trendSource == "all"
      ensures priceList == Loading && trendView == NoTrends
    {
      currentPrices := [];
      allTrends := [];
      trendSource := "all";
      priceList := Loading;
      trendView := NoTrends;
      calcResult := CalcView("₩", Num(0.0), 0);
    }

    /** The `for` loop both loaders share: `currentPrices.set(price.symbol, price)` for each quote. */
    method SetEach(newPrices: seq<Quote>)
      requires Valid()
      modifies this
      ensures Valid()
      ensures currentPrices == OM.PutAll(old(currentPrices), newPrices, QuoteSymbol)
      ensures allTrends == old(allTrends) && trendSource == old(trendSource)
      ensures priceList == old(priceList) && trendView == old(trendView) && calcResult == old(calcResult)
    {
      var i := 0;
      while i < |newPrices|
        invariant 0 <= i <= |newPrices|
        invariant currentPrices == OM.PutAll(old(currentPrices), newPrices[..i], QuoteSymbol)
        invariant allTrends == old(allTrends) && trendSource == old(trendSource)
        invariant priceList == old(priceList) && trendView == old(trendView) && calcResult == old(calcResult)
      {
        var price := newPrices[i];
        assert newPrices[..i + 1][..i] == newPrices[..i];
        currentPrices := OM.Put(currentPrices, price.symbol, price);
        i := i + 1;
      }
      assert newPrices[..i] == newPrices;
      OM.PutAllUnique(old(currentPrices), newPrices, QuoteSymbol);
    }

    /** `mergeAndRenderPrices(newPrices)`: merge, then list every current quote. */
    method MergeAndRender(newPrices: seq<Quote>)
      requires Valid()
      modifies this
      ensures Valid()
      ensures currentPrices == OM.PutAll(old(currentPrices), newPrices, QuoteSymbol)
      ensures priceList == RenderPrices(OM.Values(currentPrices))
      ensures allTrends == old(allTrends) && trendSource == old(trendSource)
      ensures trendView == old(trendView) && calcResult == old(calcResult)
    {
      SetEach(newPrices);
      priceList := RenderPrices(OM.Values(currentPrices));
    }

    /**
     * `loadPrices()` for the answer of `getAllPrices`: with a successful,
     * non-empty answer the quotes are merged but only the answer is listed;
     * otherwise nothing changes.
     */
    method LoadPrices(success: bool, data: seq<Quote>)
      requires Valid()
      modifies this
      ensures Valid()
      ensures success && data != [] ==>
        currentPrices == OM.PutAll(old(currentPrices), data, QuoteSymbol) && priceList == RenderPrices(data)
      ensures !(success && data != []) ==> currentPrices == old(currentPrices) && priceList == old(priceList)
      ensures allTrends == old(allTrends) && trendSource == old(trendSource)
      ensures trendView == old(trendView) && calcResult == old(calcResult)
    {
      if success && data != [] {
        SetEach(data);
        priceList := RenderPrices(data);
      }
    }

    /** `loadTrends()`: a successful answer replaces the stored trends and redraws them. */
    method LoadTrends(success: bool, data: Option<seq<Records.TrendEntry>>)
      modifies this
      ensures success && data.Some? ==> allTrends == data.value && trendView == RenderTrends(data.value, trendSource)
      ensures !(success && data.Some?) ==> allTrends == old(allTrends) && trendView == old(trendView)
      ensures currentPrices == old(currentPrices) && trendSource == old(trendSource)
      ensures priceList == old(priceList) && calcResult == old(calcResult)
    {
      if success && data.Some? {
        allTrends := data.value;
        trendView := RenderTrends(allTrends, trendSource);
      }
    }

    /** A click on a source tab: the tab becomes current and the stored trends are redrawn, not refetched. */
    method SelectTrendSource(source: string)
      modifies this
      ensures trendSource == source && trendView == RenderTrends(allTrends, source)
      ensures currentPrices == old(currentPrices) && allTrends == old(allTrends)
      ensures priceList == old(priceList) && calcResult == old(calcResult)
    {
      trendSource := source;
      trendView := RenderTrends(allTrends, trendSource);
    }

    /** `updateCalc()` for the parsed amount and the selected codes, at the current prices. */
    method UpdateCalc(parsed: JsNum, from: string, to: string)
      modifies this
      ensures calcResult == MiniCalc(PriceMap(currentPrices), parsed, from, to)
      ensures currentPrices == old(currentPrices) && allTrends == old(allTrends) && trendSource == old(trendSource)
      ensures priceList == old(priceList) && trendView == old(trendView)
    {
      calcResult := MiniCalc(PriceMap(currentPrices), parsed, from, to);
    }
  }

  /**
   * A merge overwrites the entry of every incoming symbol with its last
   * incoming quote and leaves every other symbol's entry as it was; the
   * entries already filed keep their places at the front.
   */
  lemma MergeKeeps(current: OM.Entries<string, Quote>, newPrices: seq<Quote>, symbol: string)
    ensures var merged := OM.PutAll(current, newPrices, QuoteSymbol);
      && ((forall i :: 0 <= i < |newPrices| ==> newPrices[i].symbol != symbol) ==> OM.Get(merged, symbol) == OM.Get(current, symbol))
      && ((exists i :: 0 <= i < |newPrices| && newPrices[i].symbol == symbol) ==> OM.Get(merged, symbol) == OM.LastKeyed(newPrices, QuoteSymbol, symbol))
      && |OM.Keys(current)| <= |OM.Keys(merged)| && OM.Keys(merged)[..|current|] == OM.Keys(current)
  {
    OM.PutAllGet(current, newPrices, QuoteSymbol, symbol);
    OM.PutAllKeysPrefix(current, newPrices, QuoteSymbol);
  }
}
