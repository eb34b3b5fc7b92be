/**
 * The local SQLite store and its queries: price rows, daily summaries,
 * trend keywords, settings, schedules and todos. Tables are sequences of
 * rows in insertion order (AUTOINCREMENT ids grow with it); timestamps are
 * whole seconds, the granularity of SQLite's CURRENT_TIMESTAMP. Each query
 * is a function of the tables; `ORDER BY x` is a stable ascending sort,
 * `ORDER BY x DESC` its reverse.
 */
module Queries {
  import opened Wrappers
  import opened Text
  import opened JsNumber
  import opened Sorting
  import OM = OrderedMap
  import opened Json
  import opened Records

  // ---------------------------------------------------------------- prices

  datatype PriceRow = PriceRow(
    id: nat, category: string, symbol: string, price: real,
    changeRate: Option<real>, changeAmount: Option<real>, unit: string, collectedAt: int)

  /**
   * The row `insertPrice` writes: a zero change and the missing change
   * amount become NULL, a missing unit becomes 'KRW'.
   */
  function RowOf(id: nat, data: PriceRecord, now: int): PriceRow
  {
    PriceRow(id, data.category, data.symbol, data.price,
             if data.change == 0.0 then None else Some(data.change), None,
             if data.unit == "" then "KRW" else data.unit, now)
  }

  predicate PriceIdBefore(a: PriceRow, b: PriceRow) { a.id < b.id }

  predicate TimeLe(a: PriceRow, b: PriceRow) { a.collectedAt <= b.collectedAt }

  lemma TimeLePreorder()
    ensures TotalPreorder(TimeLe)
  {
  }

  function RowsOf(rows: seq<PriceRow>, symbol: string): (r: seq<PriceRow>)
  {
    Filter(rows, (p: PriceRow) => p.symbol == symbol)
  }

  lemma RowsOfMember(rows: seq<PriceRow>, symbol: string, p: PriceRow)
    ensures p in RowsOf(rows, symbol) <==> p in rows && p.symbol == symbol
  {
    FilterMembers(rows, (p: PriceRow) => p.symbol == symbol);
  }

  /** `getPrice(symbol)`: `ORDER BY collected_at DESC LIMIT 1`. */
  function GetPrice(rows: seq<PriceRow>, symbol: string): Option<PriceRow>
  {
    var s := SortBy(RowsOf(rows, symbol), TimeLe);
    if s == [] then None else Some(s[|s| - 1])
  }

  /** The latest price of a symbol is one of its rows, and none of its rows is newer. */
  lemma GetPriceSpec(rows: seq<PriceRow>, symbol: string)
    ensures GetPrice(rows, symbol).None? <==> forall p :: p in rows ==> p.symbol != symbol
    ensures GetPrice(rows, symbol).Some? ==>
      var r := GetPrice(rows, symbol).value;
      r in rows && r.symbol == symbol
      && forall p :: p in rows && p.symbol == symbol ==> p.collectedAt <= r.collectedAt
  {
    var f := RowsOf(rows, symbol);
    var s := SortBy(f, TimeLe);
    TimeLePreorder();
    SortBySorted(f, TimeLe);
    assert forall p :: p in s <==> p in f by {
      forall p ensures p in s <==> p in f {
        assert p in s <==> p in multiset(s);
      }
    }
    if s != [] {
      assert s[|s| - 1] in f;
      RowsOfMember(rows, symbol, s[|s| - 1]);
      forall p | p in rows && p.symbol == symbol ensures p.collectedAt <= s[|s| - 1].collectedAt {
        RowsOfMember(rows, symbol, p);
        var i :| 0 <= i < |s| && s[i] == p;
        assert i == |s| - 1 || TimeLe(s[i], s[|s| - 1]);
      }
    } else {
      forall p | p in rows ensures p.symbol != symbol {
        RowsOfMember(rows, symbol, p);
      }
    }
  }

  /** `ORDER BY p.category, p.symbol` on text compared code point by code point. */
  predicate CatSymLe(a: PriceRow, b: PriceRow)
  {
    if a.category == b.category then LexLe(a.symbol, b.symbol) else LexLe(a.category, b.category)
  }

  lemma CatSymLePreorder()
    ensures TotalPreorder(CatSymLe)
  {
    forall a: PriceRow, b: PriceRow ensures CatSymLe(a, b) || CatSymLe(b, a) {
      LexLeTotal(a.symbol, b.symbol);
      LexLeTotal(a.category, b.category);
    }
    forall a: PriceRow, b: PriceRow, c: PriceRow | CatSymLe(a, b) && CatSymLe(b, c) ensures CatSymLe(a, c) {
      if a.category == b.category && b.category == c.category {
        LexLeTrans(a.symbol, b.symbol, c.symbol);
      } else if a.category == b.category || b.category == c.category {
      } else {
        LexLeTrans(a.category, b.category, c.category);
        if a.category == c.category {
          LexLeAntisym(a.category, b.category);
        }
      }
    }
  }

  predicate HasSymbol(rows: seq<PriceRow>, symbol: string)
  {
    exists i :: 0 <= i < |rows| && rows[i].symbol == symbol
  }

  /** The distinct symbols of `rows`, in order of first appearance (`GROUP BY symbol`). */
  function Symbols(rows: seq<PriceRow>): (syms: seq<string>)
    ensures Distinct(syms)
    ensures forall x :: x in syms <==> HasSymbol(rows, x)
  {
    if rows == [] then []
    else
      var init := rows[..|rows| - 1];
      var prev := Symbols(init);
      var last := rows[|rows| - 1];
      assert forall x :: HasSymbol(rows, x) <==> HasSymbol(init, x) || x == last.symbol by {
        forall x ensures HasSymbol(rows, x) <==> HasSymbol(init, x) || x == last.symbol {
          if HasSymbol(init, x) {
            var i :| 0 <= i < |init| && init[i].symbol == x;
            assert rows[i].symbol == x;
          }
          if HasSymbol(rows, x) && x != last.symbol {
            var i :| 0 <= i < |rows| && rows[i].symbol == x;
            assert init[i].symbol == x;
          }
        }
      }
      if last.symbol in prev then prev else prev + [last.symbol]
  }

  /** `MAX(id)` among the rows of one symbol, joined back to its row. */
  function MaxIdRow(rows: seq<PriceRow>, symbol: string): (r: PriceRow)
    requires HasSymbol(rows, symbol)
    ensures r in rows && r.symbol == symbol
    ensures forall p :: p in rows && p.symbol == symbol ==> p.id <= r.id
  {
    var head := rows[0];
    if head.symbol != symbol then
      assert HasSymbol(rows[1..], symbol) by {
        var i :| 0 <= i < |rows| && rows[i].symbol == symbol;
        assert rows[1..][i - 1].symbol == symbol;
      }
      MaxIdRow(rows[1..], symbol)
    else if HasSymbol(rows[1..], symbol) then
      var m := MaxIdRow(rows[1..], symbol);
      if m.id > head.id then m else head
    else
      assert forall p :: p in rows[1..] ==> p.symbol != symbol by {
        forall p | p in rows[1..] ensures p.symbol != symbol {
          var i :| 0 <= i < |rows[1..]| && rows[1..][i] == p;
        }
      }
      head
  }

  function MaxIdRows(rows: seq<PriceRow>, syms: seq<string>): (out: seq<PriceRow>)
    requires forall x :: x in syms ==> HasSymbol(rows, x)
    ensures |out| == |syms|
    ensures forall i :: 0 <= i < |syms| ==> out[i] == MaxIdRow(rows, syms[i])
  {
    if syms == [] then [] else [MaxIdRow(rows, syms[0])] + MaxIdRows(rows, syms[1..])
  }

  /** `getLatestPrices()`: the row with the largest id of each symbol, by category then symbol. */
  function LatestPrices(rows: seq<PriceRow>): seq<PriceRow>
  {
    SortBy(MaxIdRows(rows, Symbols(rows)), CatSymLe)
  }

  lemma LatestMembers(rows: seq<PriceRow>)
    ensures var vs := MaxIdRows(rows, Symbols(rows));
      forall r :: r in LatestPrices(rows) <==> r in vs
  {
    var vs := MaxIdRows(rows, Symbols(rows));
    var out := LatestPrices(rows);
    forall r ensures r in out <==> r in vs {
      assert r in out <==> r in multiset(out);
    }
  }

  function SymbolOf(p: PriceRow): string { p.symbol }

  lemma LatestDistinct(rows: seq<PriceRow>)
    ensures var out := LatestPrices(rows);
      forall i, j :: 0 <= i < j < |out| ==> out[i].symbol != out[j].symbol
  {
    var syms := Symbols(rows);
    var vs := MaxIdRows(rows, syms);
    var out := LatestPrices(rows);
    assert forall i, j :: 0 <= i < j < |vs| ==> SymbolOf(vs[i]) != SymbolOf(vs[j]);
    PermutationDistinctKeys(out, vs, SymbolOf);
    assert forall i, j :: 0 <= i < j < |out| ==> SymbolOf(out[i]) != SymbolOf(out[j]);
  }

  /**
   * `getLatestPrices()` returns exactly one row per symbol present, the one
   * with the largest id, ordered by category and then symbol.
   */
  lemma LatestPricesSpec(rows: seq<PriceRow>)
    ensures var out := LatestPrices(rows);
      SortedBy(out, CatSymLe)
      && (forall i, j :: 0 <= i < j < |out| ==> out[i].symbol != out[j].symbol)
      && (forall r :: r in out ==> r in rows && forall p :: p in rows && p.symbol == r.symbol ==> p.id <= r.id)
      && (forall p :: p in rows ==> exists r :: r in out && r.symbol == p.symbol)
  {
    var vs := MaxIdRows(rows, Symbols(rows));
    CatSymLePreorder();
    SortBySorted(vs, CatSymLe);
    LatestDistinct(rows);
    LatestCovers(rows);
    LatestMaximal(rows);
  }

  lemma LatestCovers(rows: seq<PriceRow>)
    ensures var out := LatestPrices(rows);
      forall p :: p in rows ==> exists r :: r in out && r.symbol == p.symbol
  {
    var syms := Symbols(rows);
    var vs := MaxIdRows(rows, syms);
    var out := LatestPrices(rows);
    LatestMembers(rows);
    forall p | p in rows ensures exists r :: r in out && r.symbol == p.symbol {
      var k :| 0 <= k < |rows| && rows[k] == p;
      assert HasSymbol(rows, p.symbol);
      var i :| 0 <= i < |syms| && syms[i] == p.symbol;
      assert vs[i] in out;
    }
  }

  lemma LatestMaximal(rows: seq<PriceRow>)
    ensures var out := LatestPrices(rows);
      forall r :: r in out ==> r in rows && forall p :: p in rows && p.symbol == r.symbol ==> p.id <= r.id
  {
    var vs := MaxIdRows(rows, Symbols(rows));
    var out := LatestPrices(rows);
    LatestMembers(rows);
    forall r | r in out ensures r in rows && forall p :: p in rows && p.symbol == r.symbol ==> p.id <= r.id {
      var i :| 0 <= i < |vs| && vs[i] == r;
    }
  }

  // --------------------------------------------------------------- history

  /** SQLite `LIMIT n`: a negative limit means no limit. */
  function SqlLimit<T>(s: seq<T>, n: int): (r: seq<T>)
    ensures |r| == if n < 0 || n >= |s| then |s| else n
    ensures r == s[..|r|]
  {
    if n < 0 then s else Take(s, n)
  }

  /** `ORDER BY key DESC LIMIT n`, then `.reverse()`. */
  function NewestReversed<T>(s: seq<T>, le: (T, T) -> bool, n: int): seq<T>
  {
    Reverse(SqlLimit(Reverse(SortBy(s, le)), n))
  }

  lemma ReverseTakeReverse<T>(s: seq<T>, r: seq<T>)
    requires |r| <= |s| && r == Reverse(s)[..|r|]
    ensures Reverse(r) == s[|s| - |r|..]
  {
    var rr, rs, tail := Reverse(r), Reverse(s), s[|s| - |r|..];
    forall i | 0 <= i < |r| ensures rr[i] == tail[i] {
      var j := |r| - 1 - i;
      assert rr[i] == r[j];
      assert r[j] == rs[j];
    }
    assert rr == tail;
  }

  lemma NewestIsSuffix<T>(s: seq<T>, le: (T, T) -> bool, n: int)
    ensures var sorted := SortBy(s, le);
      var r := NewestReversed(s, le, n);
      |r| == (if n < 0 || n >= |s| then |s| else n) && r == sorted[|sorted| - |r|..]
  {
    var sorted := SortBy(s, le);
    assert |sorted| == |s| by {
      assert |multiset(sorted)| == |multiset(s)|;
    }
    var lim := SqlLimit(Reverse(sorted), n);
    ReverseTakeReverse(sorted, lim);
  }

  lemma SuffixNewest<T(!new)>(sorted: seq<T>, k: nat, le: (T, T) -> bool, x: T, y: T)
    requires SortedBy(sorted, le) && k <= |sorted|
    requires x in sorted && x !in sorted[k..] && y in sorted[k..]
    ensures le(x, y)
  {
    var i :| 0 <= i < |sorted| && sorted[i] == x;
    var j :| k <= j < |sorted| && sorted[j] == y;
    assert forall m :: k <= m < |sorted| ==> sorted[m] == sorted[k..][m - k];
  }

  /**
   * The last `n` rows in key order, oldest first: the result is sorted, has
   * min(n, |s|) rows (all of them when `n` is negative), and no row left out
   * is newer than a row kept.
   */
  lemma NewestReversedSpec<T(!new)>(s: seq<T>, le: (T, T) -> bool, n: int)
    requires TotalPreorder(le)
    ensures var r := NewestReversed(s, le, n);
      SortedBy(r, le)
      && |r| == (if n < 0 || n >= |s| then |s| else n)
      && multiset(r) <= multiset(s)
      && forall x, y :: x in s && x !in r && y in r ==> le(x, y)
  {
    var sorted := SortBy(s, le);
    SortBySorted(s, le);
    NewestIsSuffix(s, le, n);
    var r := NewestReversed(s, le, n);
    var k := |sorted| - |r|;
    assert sorted == sorted[..k] + r;
    assert multiset(r) <= multiset(s);
    forall x, y | x in s && x !in r && y in r ensures le(x, y) {
      assert x in multiset(sorted);
      SuffixNewest(sorted, k, le, x, y);
    }
  }

  datatype Summary = Summary(
    symbol: string, date: string, open: real, high: real, low: real, close: real, avg: real, count: nat)

  /** One chart point of `getPriceHistory`: a daily summary, or a raw price row. */
  datatype HistoryPoint =
    | Daily(date: string, open: real, high: real, low: real, close: real, avg: real)
    | Hourly(at: int, close: real, avg: real)

  predicate DateLe(a: Summary, b: Summary) { LexLe(a.date, b.date) }

  lemma DateLePreorder()
    ensures TotalPreorder(DateLe)
  {
    forall a: Summary, b: Summary ensures DateLe(a, b) || DateLe(b, a) {
      LexLeTotal(a.date, b.date);
    }
    forall a: Summary, b: Summary, c: Summary | DateLe(a, b) && DateLe(b, c) ensures DateLe(a, c) {
      LexLeTrans(a.date, b.date, c.date);
    }
  }

  function SummariesOf(table: OM.Entries<(string, string), Summary>, symbol: string): seq<Summary>
  {
    Filter(OM.Values(table), (r: Summary) => r.symbol == symbol)
  }

  function DailyPoints(rows: seq<Summary>): (ps: seq<HistoryPoint>)
    ensures |ps| == |rows|
    ensures forall i :: 0 <= i < |rows| ==> ps[i] == Daily(rows[i].date, rows[i].open, rows[i].high, rows[i].low, rows[i].close, rows[i].avg)
  {
    if rows == [] then [] else [Daily(rows[0].date, rows[0].open, rows[0].high, rows[0].low, rows[0].close, rows[0].avg)] + DailyPoints(rows[1..])
  }

  function HourlyPoints(rows: seq<PriceRow>): (ps: seq<HistoryPoint>)
    ensures |ps| == |rows|
    ensures forall i :: 0 <= i < |rows| ==> ps[i] == Hourly(rows[i].collectedAt, rows[i].price, rows[i].price)
  {
    if rows == [] then [] else [Hourly(rows[0].collectedAt, rows[0].price, rows[0].price)] + HourlyPoints(rows[1..])
  }

  /**
   * `getPriceHistory(symbol, days)`: the newest `days` daily summaries of the
   * symbol, oldest first; when there are none, its newest `days * 24` price rows.
   */
  function GetPriceHistory(summaries: OM.Entries<(string, string), Summary>, prices: seq<PriceRow>,
                           symbol: string, days: int): seq<HistoryPoint>
  {
    var daily := NewestReversed(SummariesOf(summaries, symbol), DateLe, days);
    if |daily| > 0 then DailyPoints(daily)
    else DailyPoints([]) + HourlyPoints(NewestReversed(RowsOf(prices, symbol), TimeLe, days * 24))
  }

  /** Daily points only, in ascending date order. */
  ghost predicate DailyAscending(h: seq<HistoryPoint>)
  {
    (forall i :: 0 <= i < |h| ==> h[i].Daily?)
    && forall i, j :: 0 <= i < j < |h| && h[i].Daily? && h[j].Daily? ==> LexLe(h[i].date, h[j].date)
  }

  /** Hourly points only, in ascending time order. */
  ghost predicate HourlyAscending(h: seq<HistoryPoint>)
  {
    (forall i :: 0 <= i < |h| ==> h[i].Hourly?)
    && forall i, j :: 0 <= i < j < |h| && h[i].Hourly? && h[j].Hourly? ==> h[i].at <= h[j].at
  }

  /**
   * With daily summaries for the symbol (and `days` not 0) the history is
   * the newest `days` of them, oldest date first.
   */
  lemma PriceHistoryDaily(summaries: OM.Entries<(string, string), Summary>, prices: seq<PriceRow>,
                          symbol: string, days: int)
    requires |SummariesOf(summaries, symbol)| > 0 && days != 0
    ensures var h := GetPriceHistory(summaries, prices, symbol, days);
      var n := |SummariesOf(summaries, symbol)|;
      |h| == (if days < 0 || days >= n then n else days) && DailyAscending(h)
  {
    var ds := SummariesOf(summaries, symbol);
    var r := NewestReversed(ds, DateLe, days);
    assert |r| == (if days < 0 || days >= |ds| then |ds| else days) && SortedBy(r, DateLe) by {
      DateLePreorder();
      NewestReversedSpec(ds, DateLe, days);
    }
    assert GetPriceHistory(summaries, prices, symbol, days) == DailyPoints(r);
    DailyOrder(r);
  }

  lemma DailyOrder(r: seq<Summary>)
    requires SortedBy(r, DateLe)
    ensures DailyAscending(DailyPoints(r))
  {
    var h := DailyPoints(r);
    forall i, j | 0 <= i < j < |h| ensures LexLe(h[i].date, h[j].date) {
      assert DateLe(r[i], r[j]);
    }
  }

  /**
   * Otherwise the history is the newest `days * 24` price rows of the
   * symbol, oldest first.
   */
  lemma PriceHistoryHourly(summaries: OM.Entries<(string, string), Summary>, prices: seq<PriceRow>,
                           symbol: string, days: int)
    requires |SummariesOf(summaries, symbol)| == 0 || days == 0
    ensures var h := GetPriceHistory(summaries, prices, symbol, days);
      var n := |RowsOf(prices, symbol)|;
      |h| == (if days < 0 || days * 24 >= n then n else days * 24) && HourlyAscending(h)
  {
    var ps := RowsOf(prices, symbol);
    NewestNone(SummariesOf(summaries, symbol), days);
    HistoryFallsBack(summaries, prices, symbol, days);
    NewestRows(ps, days * 24);
  }

  lemma NewestNone(ds: seq<Summary>, days: int)
    requires |ds| == 0 || days == 0
    ensures |NewestReversed(ds, DateLe, days)| == 0
  {
    DateLePreorder();
    NewestReversedSpec(ds, DateLe, days);
  }

  /** The newest `n` rows as hourly points: how many there are, and their order. */
  lemma NewestRows(ps: seq<PriceRow>, n: int)
    ensures var h := HourlyPoints(NewestReversed(ps, TimeLe, n));
      |h| == (if n < 0 || n >= |ps| then |ps| else n) && HourlyAscending(h)
  {
    var r := NewestReversed(ps, TimeLe, n);
    assert |r| == (if n < 0 || n >= |ps| then |ps| else n) && SortedBy(r, TimeLe) by {
      TimeLePreorder();
      NewestReversedSpec(ps, TimeLe, n);
    }
    HourlyOrder(r);
  }

  lemma HistoryFallsBack(summaries: OM.Entries<(string, string), Summary>, prices: seq<PriceRow>,
                         symbol: string, days: int)
    requires |NewestReversed(SummariesOf(summaries, symbol), DateLe, days)| == 0
    ensures GetPriceHistory(summaries, prices, symbol, days)
         == HourlyPoints(NewestReversed(RowsOf(prices, symbol), TimeLe, days * 24))
  {
    var h := HourlyPoints(NewestReversed(RowsOf(prices, symbol), TimeLe, days * 24));
    assert DailyPoints([]) + h == h;
  }

  lemma HourlyOrder(r: seq<PriceRow>)
    requires SortedBy(r, TimeLe)
    ensures HourlyAscending(HourlyPoints(r))
  {
    var h := HourlyPoints(r);
    forall i, j | 0 <= i < j < |h| ensures h[i].at <= h[j].at {
      assert TimeLe(r[i], r[j]);
    }
  }

  // -------------------------------------------------------- daily summary

  datatype SummaryInput = SummaryInput(
    symbol: string, date: string, openPrice: real, highPrice: real, lowPrice: real, closePrice: real, avgPrice: real)

  function Max(a: real, b: real): real { if a >= b then a else b }
  function Min(a: real, b: real): real { if a <= b then a else b }

  /** The `ON CONFLICT(symbol, date) DO UPDATE` row; the open price is kept. */
  function MergeSummary(s: Summary, d: SummaryInput): Summary
  {
    s.(high := Max(s.high, d.highPrice), low := Min(s.low, d.lowPrice), close := d.closePrice,
       avg := (s.avg * s.count as real + d.avgPrice) / (s.count + 1) as real, count := s.count + 1)
  }

  /** `upsertDailySummary(data)`: insert with count 1, or merge into the row of the same symbol and date. */
  function UpsertSummary(table: OM.Entries<(string, string), Summary>, d: SummaryInput): OM.Entries<(string, string), Summary>
  {
    var key := (d.symbol, d.date);
    match OM.Get(table, key)
    case None => OM.Put(table, key, Summary(d.symbol, d.date, d.openPrice, d.highPrice, d.lowPrice, d.closePrice, d.avgPrice, 1))
    case Some(s) => OM.Put(table, key, MergeSummary(s, d))
  }

  function UpsertAll(table: OM.Entries<(string, string), Summary>, ds: seq<SummaryInput>): OM.Entries<(string, string), Summary>
  {
    if ds == [] then table else UpsertSummary(UpsertAll(table, ds[..|ds| - 1]), ds[|ds| - 1])
  }

  function SumAvg(ds: seq<SummaryInput>): real
  {
    if ds == [] then 0.0 else SumAvg(ds[..|ds| - 1]) + ds[|ds| - 1].avgPrice
  }

  function MaxHigh(ds: seq<SummaryInput>): real
    requires ds != []
  {
    if |ds| == 1 then ds[0].highPrice else Max(MaxHigh(ds[..|ds| - 1]), ds[|ds| - 1].highPrice)
  }

  function MinLow(ds: seq<SummaryInput>): real
    requires ds != []
  {
    if |ds| == 1 then ds[0].lowPrice else Min(MinLow(ds[..|ds| - 1]), ds[|ds| - 1].lowPrice)
  }

  /**
   * A day's summary after upserting the inputs `ds` for one symbol and date
   * into a table without that row: the first open, the highest high, the
   * lowest low, the last close, the mean of the averages, and the count.
   */
  lemma {:induction false} UpsertAllSummary(table: OM.Entries<(string, string), Summary>, ds: seq<SummaryInput>,
                                            symbol: string, date: string)
    requires ds != [] && forall i :: 0 <= i < |ds| ==> ds[i].symbol == symbol && ds[i].date == date
    requires OM.Get(table, (symbol, date)).None?
    ensures OM.Get(UpsertAll(table, ds), (symbol, date))
         == Some(Summary(symbol, date, ds[0].openPrice, MaxHigh(ds), MinLow(ds), ds[|ds| - 1].closePrice,
                         SumAvg(ds) / |ds| as real, |ds|))
    decreases |ds|
  {
    var key := (symbol, date);
    var d := ds[|ds| - 1];
    var init := ds[..|ds| - 1];
    if |ds| == 1 {
      assert init == [];
      assert UpsertAll(table, ds) == UpsertSummary(table, d);
      var row := Summary(d.symbol, d.date, d.openPrice, d.highPrice, d.lowPrice, d.closePrice, d.avgPrice, 1);
      assert UpsertSummary(table, d) == OM.Put(table, key, row);
      OM.PutGet(table, key, row, key);
      assert SumAvg(ds) / |ds| as real == d.avgPrice by {
        assert SumAvg(ds) == SumAvg(init) + d.avgPrice;
      }
      assert MaxHigh(ds) == d.highPrice && MinLow(ds) == d.lowPrice && ds[0] == d;
    } else {
      assert ds == init + [d];
      assert UpsertAll(table, ds) == UpsertSummary(UpsertAll(table, init), d);
      UpsertAllSummary(table, init, symbol, date);
      UpsertStep(UpsertAll(table, init), init, d, symbol, date);
    }
  }

  lemma UpsertStep(prev: OM.Entries<(string, string), Summary>, init: seq<SummaryInput>, d: SummaryInput,
                   symbol: string, date: string)
    requires init != [] && d.symbol == symbol && d.date == date
    requires OM.Get(prev, (symbol, date))
          == Some(Summary(symbol, date, init[0].openPrice, MaxHigh(init), MinLow(init), init[|init| - 1].closePrice,
                          SumAvg(init) / |init| as real, |init|))
    ensures var ds := init + [d];
      OM.Get(UpsertSummary(prev, d), (symbol, date))
      == Some(Summary(symbol, date, ds[0].openPrice, MaxHigh(ds), MinLow(ds), d.closePrice,
                      SumAvg(ds) / |ds| as real, |ds|))
  {
    var key := (symbol, date);
    var ds := init + [d];
    var s := OM.Get(prev, key).value;
    assert UpsertSummary(prev, d) == OM.Put(prev, key, MergeSummary(s, d));
    OM.PutGet(prev, key, MergeSummary(s, d), key);
    assert s.count == |init|;
    assert (s.count + 1) as real == |ds| as real;
    assert ds[0] == init[0];
    var m := MergeSummary(s, d);
    assert m.avg == (SumAvg(init) + d.avgPrice) / |ds| as real by {
      AvgStep(SumAvg(init), |init| as real, d.avgPrice);
    }
    assert ds[..|ds| - 1] == init;
    assert SumAvg(ds) == SumAvg(init) + d.avgPrice;
    assert MaxHigh(ds) == Max(MaxHigh(init), d.highPrice);
    assert MinLow(ds) == Min(MinLow(init), d.lowPrice);
  }

  /** Folding one more value into a running average of `n` values gives the average of the `n + 1`. */
  lemma AvgStep(total: real, n: real, x: real)
    requires n > 0.0
    ensures (total / n * n + x) / (n + 1.0) == (total + x) / (n + 1.0)
  {
    assert total / n * n == total;
  }

  /** An upsert changes only the row of its own symbol and date. */
  lemma UpsertOthers(table: OM.Entries<(string, string), Summary>, d: SummaryInput, key: (string, string))
    requires key != (d.symbol, d.date)
    ensures OM.Get(UpsertSummary(table, d), key) == OM.Get(table, key)
  {
    var k := (d.symbol, d.date);
    match OM.Get(table, k) {
      case None => OM.PutGet(table, k, Summary(d.symbol, d.date, d.openPrice, d.highPrice, d.lowPrice, d.closePrice, d.avgPrice, 1), key);
      case Some(s) => OM.PutGet(table, k, MergeSummary(s, d), key);
    }
  }

  /** Every summary row has its low at most its high. */
  ghost predicate LowBelowHigh(table: OM.Entries<(string, string), Summary>)
  {
    forall key :: OM.Get(table, key).Some? ==> OM.Get(table, key).value.low <= OM.Get(table, key).value.high
  }

  /** An upsert whose input has its low at most its high keeps every row's low at most its high. */
  lemma UpsertKeepsLowBelowHigh(table: OM.Entries<(string, string), Summary>, d: SummaryInput)
    requires LowBelowHigh(table) && d.lowPrice <= d.highPrice
    ensures LowBelowHigh(UpsertSummary(table, d))
  {
    var k := (d.symbol, d.date);
    var after := UpsertSummary(table, d);
    forall key | OM.Get(after, key).Some? ensures OM.Get(after, key).value.low <= OM.Get(after, key).value.high {
      if key == k {
        match OM.Get(table, k) {
          case None =>
            OM.PutGet(table, k, Summary(d.symbol, d.date, d.openPrice, d.highPrice, d.lowPrice, d.closePrice, d.avgPrice, 1), key);
          case Some(s) =>
            OM.PutGet(table, k, MergeSummary(s, d), key);
        }
      } else {
        UpsertOthers(table, d, key);
      }
    }
  }

  /** The same over any run of upserts. */
  lemma {:induction false} UpsertAllLowBelowHigh(table: OM.Entries<(string, string), Summary>, ds: seq<SummaryInput>)
    requires LowBelowHigh(table) && forall i :: 0 <= i < |ds| ==> ds[i].lowPrice <= ds[i].highPrice
    ensures LowBelowHigh(UpsertAll(table, ds))
    decreases |ds|
  {
    if ds != [] {
      UpsertAllLowBelowHigh(table, ds[..|ds| - 1]);
      UpsertKeepsLowBelowHigh(UpsertAll(table, ds[..|ds| - 1]), ds[|ds| - 1]);
    }
  }

  // ---------------------------------------------------------------- trends

  datatype TrendRow = TrendRow(id: nat, source: string, keyword: string, rank: int, collectedAt: int)

  /** One row of `getTrends`: a keyword with the best (smallest) rank it had. */
  datatype TrendResult = TrendResult(source: string, keyword: string, rank: int)

  function PairOf(t: TrendResult): (string, string) { (t.source, t.keyword) }

  function IndexOfPair(groups: seq<TrendResult>, source: string, keyword: string): (k: int)
    ensures -1 <= k < |groups|
    ensures k >= 0 ==> PairOf(groups[k]) == (source, keyword)
    ensures k < 0 ==> forall i :: 0 <= i < |groups| ==> PairOf(groups[i]) != (source, keyword)
  {
    if groups == [] then -1
    else if PairOf(groups[|groups| - 1]) == (source, keyword) then |groups| - 1
    else IndexOfPair(groups[..|groups| - 1], source, keyword)
  }

  /** `GROUP BY source, keyword` with `MIN(rank)`, groups in order of first appearance. */
  function GroupMinRank(rows: seq<TrendRow>): seq<TrendResult>
  {
    if rows == [] then [] else AddRow(GroupMinRank(rows[..|rows| - 1]), rows[|rows| - 1])
  }

  /** One row folded into the groups: a new group for a new pair, else the smaller rank. */
  function AddRow(prev: seq<TrendResult>, r: TrendRow): seq<TrendResult>
  {
    var k := IndexOfPair(prev, r.source, r.keyword);
    if k < 0 then prev + [TrendResult(r.source, r.keyword, r.rank)]
    else prev[k := prev[k].(rank := if r.rank < prev[k].rank then r.rank else prev[k].rank)]
  }

  function RowPair(r: TrendRow): (string, string) { (r.source, r.keyword) }

  /** `groups` is the grouping of `rows`: one group per pair, holding the minimum rank. */
  ghost predicate GroupsOf(groups: seq<TrendResult>, rows: seq<TrendRow>)
  {
    (forall i, j :: 0 <= i < j < |groups| ==> PairOf(groups[i]) != PairOf(groups[j]))
    && (forall i :: 0 <= i < |rows| ==> Covered(groups, rows[i]))
    && (forall j :: 0 <= j < |groups| ==> Witnessed(rows, groups[j]))
  }

  ghost predicate Covered(groups: seq<TrendResult>, r: TrendRow)
  {
    exists j :: 0 <= j < |groups| && PairOf(groups[j]) == RowPair(r) && groups[j].rank <= r.rank
  }

  ghost predicate Witnessed(rows: seq<TrendRow>, g: TrendResult)
  {
    exists i :: 0 <= i < |rows| && RowPair(rows[i]) == PairOf(g) && rows[i].rank == g.rank
  }

  lemma WitnessedExtend(rows: seq<TrendRow>, r: TrendRow, g: TrendResult)
    requires Witnessed(rows, g)
    ensures Witnessed(rows + [r], g)
  {
    var i :| 0 <= i < |rows| && RowPair(rows[i]) == PairOf(g) && rows[i].rank == g.rank;
    assert (rows + [r])[i] == rows[i];
  }

  /** Appending a group for a pair never seen before keeps the grouping. */
  lemma GroupStepNew(prev: seq<TrendResult>, init: seq<TrendRow>, r: TrendRow)
    requires GroupsOf(prev, init)
    requires forall i :: 0 <= i < |prev| ==> PairOf(prev[i]) != RowPair(r)
    ensures GroupsOf(prev + [TrendResult(r.source, r.keyword, r.rank)], init + [r])
  {
    var rows := init + [r];
    var g := TrendResult(r.source, r.keyword, r.rank);
    var out := prev + [g];
    forall i | 0 <= i < |rows| ensures Covered(out, rows[i]) {
      if i < |init| {
        assert rows[i] == init[i];
        assert Covered(prev, init[i]);
        var j :| 0 <= j < |prev| && PairOf(prev[j]) == RowPair(init[i]) && prev[j].rank <= init[i].rank;
        assert out[j] == prev[j];
      } else {
        assert out[|prev|] == g;
      }
    }
    forall j | 0 <= j < |out| ensures Witnessed(rows, out[j]) {
      if j < |prev| {
        assert out[j] == prev[j];
        WitnessedExtend(init, r, prev[j]);
      } else {
        assert rows[|init|] == r;
      }
    }
  }

  /** Lowering the rank of the group of `r`'s pair to the minimum keeps the grouping. */
  lemma GroupStepMerge(prev: seq<TrendResult>, init: seq<TrendRow>, r: TrendRow, k: nat)
    requires GroupsOf(prev, init)
    requires k < |prev| && PairOf(prev[k]) == RowPair(r)
    ensures GroupsOf(prev[k := prev[k].(rank := if r.rank < prev[k].rank then r.rank else prev[k].rank)], init + [r])
  {
    var m := if r.rank < prev[k].rank then r.rank else prev[k].rank;
    var out := prev[k := prev[k].(rank := m)];
    forall i, j | 0 <= i < j < |out| ensures PairOf(out[i]) != PairOf(out[j]) {
      assert PairOf(out[i]) == PairOf(prev[i]) && PairOf(out[j]) == PairOf(prev[j]);
    }
    MergeCovered(prev, init, r, k, m);
    MergeWitnessed(prev, init, r, k, m, out);
  }

  lemma MergeCovered(prev: seq<TrendResult>, init: seq<TrendRow>, r: TrendRow, k: nat, m: int)
    requires forall i :: 0 <= i < |init| ==> Covered(prev, init[i])
    requires k < |prev| && PairOf(prev[k]) == RowPair(r)
    requires m <= prev[k].rank && m <= r.rank
    ensures forall i :: 0 <= i < |init + [r]| ==> Covered(prev[k := prev[k].(rank := m)], (init + [r])[i])
  {
    var rows := init + [r];
    var out := prev[k := prev[k].(rank := m)];
    forall i | 0 <= i < |rows| ensures Covered(out, rows[i]) {
      if i < |init| {
        assert rows[i] == init[i];
        assert Covered(prev, init[i]);
        var j :| 0 <= j < |prev| && PairOf(prev[j]) == RowPair(init[i]) && prev[j].rank <= init[i].rank;
        assert PairOf(out[j]) == PairOf(prev[j]) && out[j].rank <= prev[j].rank;
      } else {
        assert rows[i] == r;
        assert PairOf(out[k]) == RowPair(r) && out[k].rank <= r.rank;
      }
    }
  }

  lemma MergeWitnessed(prev: seq<TrendResult>, init: seq<TrendRow>, r: TrendRow, k: nat, m: int, out: seq<TrendResult>)
    requires forall j :: 0 <= j < |prev| ==> Witnessed(init, prev[j])
    requires k < |prev| && PairOf(prev[k]) == RowPair(r)
    requires m == r.rank || m == prev[k].rank
    requires out == prev[k := prev[k].(rank := m)]
    ensures forall j :: 0 <= j < |out| ==> Witnessed(init + [r], out[j])
  {
    var rows := init + [r];
    forall j | 0 <= j < |out| ensures Witnessed(rows, out[j]) {
      if j != k {
        assert out[j] == prev[j];
        WitnessedExtend(init, r, prev[j]);
      } else if m == r.rank {
        assert rows[|init|] == r;
        assert RowPair(rows[|init|]) == PairOf(out[j]) && rows[|init|].rank == out[j].rank;
      } else {
        assert out[k] == prev[k];
        WitnessedExtend(init, r, prev[k]);
      }
    }
  }

  lemma {:induction false} GroupMinRankSpec(rows: seq<TrendRow>)
    ensures GroupsOf(GroupMinRank(rows), rows)
    decreases |rows|
  {
    if rows != [] {
      var init := rows[..|rows| - 1];
      var r := rows[|rows| - 1];
      GroupMinRankSpec(init);
      GroupStep(GroupMinRank(init), init, r);
      assert init + [r] == rows;
    }
  }

  lemma GroupStep(prev: seq<TrendResult>, init: seq<TrendRow>, r: TrendRow)
    requires GroupsOf(prev, init)
    ensures GroupsOf(AddRow(prev, r), init + [r])
  {
    var k := IndexOfPair(prev, r.source, r.keyword);
    if k < 0 {
      GroupStepNew(prev, init, r);
    } else {
      GroupStepMerge(prev, init, r, k);
    }
  }

  /** `collected_at >= datetime('now', '-1 hour')`, plus `source = ?` unless the source is 'all'. */
  function Selects(source: string, now: int): TrendRow -> bool
  {
    (r: TrendRow) => r.collectedAt >= now - 3600 && (source == "all" || r.source == source)
  }

  predicate RankLe(a: TrendResult, b: TrendResult) { a.rank <= b.rank }

  /** The order of the query: by source and then rank for `all`, by rank for one source. */
  function TrendOrder(source: string): (TrendResult, TrendResult) -> bool
  {
    if source == "all" then SourceRankLe else RankLe
  }

  /** `ORDER BY source, rank`. */
  predicate SourceRankLe(a: TrendResult, b: TrendResult)
  {
    if a.source == b.source then a.rank <= b.rank else LexLe(a.source, b.source)
  }

  lemma SourceRankLePreorder()
    ensures TotalPreorder(SourceRankLe)
  {
    forall a: TrendResult, b: TrendResult ensures SourceRankLe(a, b) || SourceRankLe(b, a) {
      LexLeTotal(a.source, b.source);
    }
    forall a: TrendResult, b: TrendResult, c: TrendResult | SourceRankLe(a, b) && SourceRankLe(b, c)
      ensures SourceRankLe(a, c)
    {
      if a.source != b.source && b.source != c.source {
        LexLeTrans(a.source, b.source, c.source);
        if a.source == c.source {
          LexLeAntisym(a.source, b.source);
        }
      }
    }
  }

  /**
   * `getTrends(source)`: the rows of the last hour (of one source unless it
   * is 'all') grouped by source and keyword with their minimum rank; 'all'
   * is ordered by source then rank, a single source by rank.
   */
  function GetTrends(rows: seq<TrendRow>, source: string, now: int): seq<TrendResult>
  {
    var groups := GroupMinRank(Filter(rows, Selects(source, now)));
    SortBy(groups, TrendOrder(source))
  }

  /** Reordering the groups keeps them a grouping of the same rows. */
  lemma PermutedGroups(g: seq<TrendResult>, out: seq<TrendResult>, sel: seq<TrendRow>)
    requires GroupsOf(g, sel) && multiset(out) == multiset(g)
    ensures GroupsOf(out, sel)
  {
    PermutationDistinctKeys(out, g, PairOf);
    forall i | 0 <= i < |sel| ensures Covered(out, sel[i]) {
      assert Covered(g, sel[i]);
      var j :| 0 <= j < |g| && PairOf(g[j]) == RowPair(sel[i]) && g[j].rank <= sel[i].rank;
      assert g[j] in multiset(out);
      var j' :| 0 <= j' < |out| && out[j'] == g[j];
    }
    forall j | 0 <= j < |out| ensures Witnessed(sel, out[j]) {
      assert out[j] in multiset(g);
      var j' :| 0 <= j' < |g| && g[j'] == out[j];
    }
  }

  /**
   * Each (source, keyword) pair of the selected rows appears exactly once,
   * with the least rank among its rows, in the order the query asks for; a
   * single-source query returns only that source.
   */
  lemma GetTrendsSpec(rows: seq<TrendRow>, source: string, now: int)
    ensures GroupsOf(GetTrends(rows, source, now), Filter(rows, Selects(source, now)))
    ensures SortedBy(GetTrends(rows, source, now), TrendOrder(source))
    ensures source != "all" ==> forall g :: g in GetTrends(rows, source, now) ==> g.source == source
  {
    TrendsGrouped(rows, source, now);
    TrendsOrder(rows, source, now);
    if source != "all" {
      var sel := Filter(rows, Selects(source, now));
      FilterHolds(rows, Selects(source, now));
      TrendsOfSource(GetTrends(rows, source, now), sel, source, now);
    }
  }

  lemma FilterHolds(rows: seq<TrendRow>, p: TrendRow -> bool)
    ensures forall i :: 0 <= i < |Filter(rows, p)| ==> p(Filter(rows, p)[i])
  {
    var sel := Filter(rows, p);
    FilterMembers(rows, p);
    forall i | 0 <= i < |sel| ensures p(sel[i]) {
      assert sel[i] in sel;
    }
  }

  lemma TrendsGrouped(rows: seq<TrendRow>, source: string, now: int)
    ensures GroupsOf(GetTrends(rows, source, now), Filter(rows, Selects(source, now)))
  {
    var sel := Filter(rows, Selects(source, now));
    var groups := GroupMinRank(sel);
    GroupMinRankSpec(sel);
    var out := GetTrends(rows, source, now);
    assert multiset(out) == multiset(groups);
    PermutedGroups(groups, out, sel);
  }

  lemma TrendsOrder(rows: seq<TrendRow>, source: string, now: int)
    ensures SortedBy(GetTrends(rows, source, now), TrendOrder(source))
  {
    var groups := GroupMinRank(Filter(rows, Selects(source, now)));
    if source == "all" {
      SourceRankLePreorder();
      SortBySorted(groups, SourceRankLe);
    } else {
      assert TotalPreorder(RankLe);
      SortBySorted(groups, RankLe);
    }
  }

  lemma TrendsOfSource(out: seq<TrendResult>, sel: seq<TrendRow>, source: string, now: int)
    requires source != "all"
    requires forall i :: 0 <= i < |sel| ==> Selects(source, now)(sel[i])
    requires forall j :: 0 <= j < |out| ==> Witnessed(sel, out[j])
    ensures forall g :: g in out ==> g.source == source
  {
    forall g | g in out ensures g.source == source {
      var j :| 0 <= j < |out| && out[j] == g;
      assert Witnessed(sel, out[j]);
      var i :| 0 <= i < |sel| && RowPair(sel[i]) == PairOf(out[j]) && sel[i].rank == out[j].rank;
      assert Selects(source, now)(sel[i]);
    }
  }

  // -------------------------------------------------------------- settings

  /**
   * `getSetting(key)`: null for a missing key, the parsed JSON value when the
   * stored text parses, and the stored text itself otherwise.
   */
  function GetSetting(settings: map<string, string>, key: string): Json
  {
    if key !in settings then JNull
    else match Parse(settings[key])
      case Some(v) => v
      case None => JStr(settings[key])
  }

  /** `setSetting(key, value)`: insert or replace the JSON text of the value. */
  function SetSetting(settings: map<string, string>, key: string, value: Json): (r: map<string, string>)
    ensures key in r && r[key] == Stringify(value)
  {
    settings[key := Stringify(value)]
  }

  /**
   * Reading a key after writing it gives back the written value; every other
   * key reads as before, so of two writes to one key the later one wins.
   */
  lemma SettingRoundTrip(settings: map<string, string>, key: string, value: Json, other: string)
    ensures GetSetting(SetSetting(settings, key, value), key) == value
    ensures other != key ==> GetSetting(SetSetting(settings, key, value), other) == GetSetting(settings, other)
  {
    ParseStringify(value);
  }

  lemma SettingLastWriteWins(settings: map<string, string>, key: string, v1: Json, v2: Json)
    ensures SetSetting(SetSetting(settings, key, v1), key, v2) == SetSetting(settings, key, v2)
  {
  }

  // ----------------------------------------------------------------- stats

  /** Korea Standard Time is UTC+9 all year. */
  const KstOffset: int := 9 * 3600
  const SecondsPerDay: int := 86400

  /** `date(t, '+9 hours')` as a day number. */
  function KstDay(t: int): int { (t + KstOffset) / SecondsPerDay }

  function PricesOf(rows: seq<PriceRow>): (ps: seq<real>)
    ensures |ps| == |rows| && forall i :: 0 <= i < |rows| ==> ps[i] == rows[i].price
  {
    if rows == [] then [] else PricesOf(rows[..|rows| - 1]) + [rows[|rows| - 1].price]
  }

  function MaxOf(xs: seq<real>): (m: real)
    requires xs != []
    ensures m in xs && forall i :: 0 <= i < |xs| ==> xs[i] <= m
  {
    if |xs| == 1 then xs[0] else Max(MaxOf(xs[..|xs| - 1]), xs[|xs| - 1])
  }

  function MinOf(xs: seq<real>): (m: real)
    requires xs != []
    ensures m in xs && forall i :: 0 <= i < |xs| ==> m <= xs[i]
  {
    if |xs| == 1 then xs[0] else Min(MinOf(xs[..|xs| - 1]), xs[|xs| - 1])
  }

  function SumOf(xs: seq<real>): real
  {
    if xs == [] then 0.0 else SumOf(xs[..|xs| - 1]) + xs[|xs| - 1]
  }

  /** `x` added `n` times; keeps the bounds below linear. */
  function Scale(x: real, n: nat): real
  {
    if n == 0 then 0.0 else Scale(x, n - 1) + x
  }

  lemma {:induction false} ScaleMono(a: real, b: real, n: nat)
    requires a <= b
    ensures Scale(a, n) <= Scale(b, n)
  {
    if n > 0 {
      ScaleMono(a, b, n - 1);
    }
  }

  lemma {:induction false} ScaleMul(x: real, n: nat)
    ensures Scale(x, n) == x * n as real
  {
    if n > 0 {
      ScaleMul(x, n - 1);
    }
  }

  /** The sum of the values lies between |xs| times the minimum and |xs| times the maximum. */
  lemma {:induction false} SumBetween(xs: seq<real>)
    requires xs != []
    ensures Scale(MinOf(xs), |xs|) <= SumOf(xs) <= Scale(MaxOf(xs), |xs|)
    decreases |xs|
  {
    if |xs| > 1 {
      var init := xs[..|xs| - 1];
      SumBetween(init);
      ScaleMono(MinOf(xs), MinOf(init), |init|);
      ScaleMono(MaxOf(init), MaxOf(xs), |init|);
    }
  }

  lemma MulCancel(a: real, b: real, n: real)
    requires n > 0.0 && a * n <= b * n
    ensures a <= b
  {
  }

  lemma ScaleDiv(lo: real, hi: real, n: nat, sum: real)
    requires n > 0 && Scale(lo, n) <= sum <= Scale(hi, n)
    ensures lo <= sum / n as real <= hi
  {
    var k := n as real;
    var m := sum / k;
    assert m * k == sum by {
      DivCancel(sum, k);
    }
    assert lo * k <= m * k by {
      ScaleMul(lo, n);
    }
    assert m * k <= hi * k by {
      ScaleMul(hi, n);
    }
    MulCancel(lo, m, k);
    MulCancel(m, hi, k);
  }

  lemma DivCancel(x: real, k: real)
    requires k != 0.0
    ensures (x / k) * k == x
  {
  }

  /** The mean lies between the minimum and the maximum. */
  lemma MeanBetween(xs: seq<real>)
    requires xs != []
    ensures MinOf(xs) <= SumOf(xs) / |xs| as real <= MaxOf(xs)
  {
    SumBetween(xs);
    ScaleDiv(MinOf(xs), MaxOf(xs), |xs|, SumOf(xs));
  }

  datatype DayStats = DayStats(high: int, low: int, avg: int, count: nat)

  /** Rows of one symbol collected on the current day in Korean time. */
  function TodayRows(rows: seq<PriceRow>, symbol: string, now: int): seq<PriceRow>
  {
    Filter(rows, (p: PriceRow) => p.symbol == symbol && KstDay(p.collectedAt) == KstDay(now))
  }

  /** `getTodayStats(symbol)`: null without rows today, else the rounded high, low and average. */
  function GetTodayStats(rows: seq<PriceRow>, symbol: string, now: int): Option<DayStats>
  {
    var today := TodayRows(rows, symbol, now);
    if today == [] then None
    else
      var ps := PricesOf(today);
      Some(DayStats(Round(MaxOf(ps)), Round(MinOf(ps)), Round(SumOf(ps) / |ps| as real), |today|))
  }

  /**
   * No statistics exactly when no row of the symbol falls on today's Korean
   * date; otherwise the count is the number of such rows, the high and low
   * are the rounded extreme prices, and low <= avg <= high.
   */
  lemma TodayStatsSpec(rows: seq<PriceRow>, symbol: string, now: int)
    ensures GetTodayStats(rows, symbol, now).None?
        <==> forall p :: p in rows && p.symbol == symbol ==> KstDay(p.collectedAt) != KstDay(now)
    ensures GetTodayStats(rows, symbol, now).Some? ==>
      var st := GetTodayStats(rows, symbol, now).value;
      var today := TodayRows(rows, symbol, now);
      st.count == |today| > 0
      && st.low <= st.avg <= st.high
      && (exists p :: p in today && st.high == Round(p.price))
      && (forall p :: p in today ==> Round(p.price) <= st.high)
      && (exists p :: p in today && st.low == Round(p.price))
      && (forall p :: p in today ==> st.low <= Round(p.price))
  {
    FilterMembers(rows, (p: PriceRow) => p.symbol == symbol && KstDay(p.collectedAt) == KstDay(now));
    var today := TodayRows(rows, symbol, now);
    if today != [] {
      assert today[0] in today;
      var ps := PricesOf(today);
      assert GetTodayStats(rows, symbol, now).value
          == DayStats(Round(MaxOf(ps)), Round(MinOf(ps)), Round(SumOf(ps) / |ps| as real), |today|);
      RoundedStats(today, ps);
      RoundedLow(today, ps);
    } else {
      forall p | p in rows && p.symbol == symbol ensures KstDay(p.collectedAt) != KstDay(now) {
        assert p !in today;
      }
    }
  }

  lemma RoundedStats(rs: seq<PriceRow>, ps: seq<real>)
    requires rs != [] && ps == PricesOf(rs)
    ensures Round(MinOf(ps)) <= Round(SumOf(ps) / |ps| as real) <= Round(MaxOf(ps))
    ensures exists p :: p in rs && Round(MaxOf(ps)) == Round(p.price)
    ensures forall p :: p in rs ==> Round(p.price) <= Round(MaxOf(ps))
  {
    var mean := SumOf(ps) / |ps| as real;
    MeanBetween(ps);
    RoundMono(MinOf(ps), mean);
    RoundMono(mean, MaxOf(ps));
    var k :| 0 <= k < |ps| && ps[k] == MaxOf(ps);
    assert rs[k] in rs && rs[k].price == MaxOf(ps);
    forall p | p in rs ensures Round(p.price) <= Round(MaxOf(ps)) {
      var i :| 0 <= i < |rs| && rs[i] == p;
      RoundMono(ps[i], MaxOf(ps));
    }
  }

  /** The rounded minimum is some row's rounded price and at most every other. */
  lemma RoundedLow(rs: seq<PriceRow>, ps: seq<real>)
    requires rs != [] && ps == PricesOf(rs)
    ensures exists p :: p in rs && Round(MinOf(ps)) == Round(p.price)
    ensures forall p :: p in rs ==> Round(MinOf(ps)) <= Round(p.price)
  {
    var k :| 0 <= k < |ps| && ps[k] == MinOf(ps);
    assert rs[k] in rs && rs[k].price == MinOf(ps);
    forall p | p in rs ensures Round(MinOf(ps)) <= Round(p.price) {
      var i :| 0 <= i < |rs| && rs[i] == p;
      RoundMono(MinOf(ps), ps[i]);
    }
  }

  datatype WeekStats = WeekStats(high: int, low: int, change: real, count: nat)

  /** `collected_at >= datetime('now', '-7 days')` for one symbol. */
  function WeekRows(rows: seq<PriceRow>, symbol: string, now: int): seq<PriceRow>
  {
    Filter(rows, (p: PriceRow) => p.symbol == symbol && p.collectedAt >= now - 7 * SecondsPerDay)
  }

  /** The change from `from` to `to` in percent of `from`. */
  function Percent(from: real, to: real): real
    requires from != 0.0
  {
    (to - from) / from * 100.0
  }

  /** The percentage change from `oldest` to `current`, or 0 unless both exist and `oldest` is positive. */
  function ChangePercent(oldest: Option<PriceRow>, current: Option<PriceRow>): real
  {
    if oldest.Some? && current.Some? && oldest.value.price > 0.0
    then Percent(oldest.value.price, current.value.price)
    else 0.0
  }

  /**
   * `getWeekStats(symbol)`: null without rows in the last seven days; else
   * the rounded high and low of the week, and the change from the oldest row
   * of the week to the latest row of the symbol, rounded to two decimals.
   */
  function GetWeekStats(rows: seq<PriceRow>, symbol: string, now: int): Option<WeekStats>
  {
    var week := WeekRows(rows, symbol, now);
    if week == [] then None
    else
      var ps := PricesOf(week);
      var ordered := SortBy(week, TimeLe);
      var oldest := if ordered == [] then None else Some(ordered[0]);
      Some(WeekStats(Round(MaxOf(ps)), Round(MinOf(ps)), Round2(ChangePercent(oldest, GetPrice(rows, symbol))), |week|))
  }

  /**
   * No statistics exactly when no row of the symbol is at most seven days
   * old; otherwise the count is the number of such rows, the high and low
   * are the rounded extreme prices of the week, and the change is the
   * percentage from the oldest row of the week to the symbol's latest row,
   * rounded to two decimals, with that difference's sign (a non-positive
   * oldest price gives 0).
   */
  lemma WeekStatsSpec(rows: seq<PriceRow>, symbol: string, now: int)
    ensures GetWeekStats(rows, symbol, now).None?
        <==> forall p :: p in rows && p.symbol == symbol ==> p.collectedAt < now - 7 * SecondsPerDay
    ensures GetWeekStats(rows, symbol, now).Some? ==>
      var st := GetWeekStats(rows, symbol, now).value;
      var week := WeekRows(rows, symbol, now);
      var ordered := SortBy(week, TimeLe);
      st.count == |week| > 0 && st.low <= st.high
      && (exists p :: p in week && st.high == Round(p.price))
      && (forall p :: p in week ==> Round(p.price) <= st.high)
      && (exists p :: p in week && st.low == Round(p.price))
      && (forall p :: p in week ==> st.low <= Round(p.price))
      && ordered != [] && ordered[0] in week && GetPrice(rows, symbol).Some?
      && (forall p :: p in week ==> ordered[0].collectedAt <= p.collectedAt)
      && (ordered[0].price > 0.0 ==> st.change == Round2(Percent(ordered[0].price, GetPrice(rows, symbol).value.price)))
      && (ordered[0].price <= 0.0 ==> st.change == 0.0)
      && (ordered[0].price > 0.0 && GetPrice(rows, symbol).value.price >= ordered[0].price ==> st.change >= 0.0)
      && (ordered[0].price > 0.0 && GetPrice(rows, symbol).value.price <= ordered[0].price ==> st.change <= 0.0)
  {
    FilterMembers(rows, (p: PriceRow) => p.symbol == symbol && p.collectedAt >= now - 7 * SecondsPerDay);
    var week := WeekRows(rows, symbol, now);
    if week != [] {
      var ps := PricesOf(week);
      var ordered := SortBy(week, TimeLe);
      OldestFirst(week);
      assert week[0] in rows;
      assert GetPrice(rows, symbol).Some? by {
        GetPriceSpec(rows, symbol);
      }
      var cur := GetPrice(rows, symbol);
      var st := GetWeekStats(rows, symbol, now).value;
      assert st == WeekStats(Round(MaxOf(ps)), Round(MinOf(ps)), Round2(ChangePercent(Some(ordered[0]), cur)), |week|);
      WeekExtremes(week, st);
      WeekChange(ordered[0], cur.value, st.change);
    } else {
      forall p | p in rows && p.symbol == symbol ensures p.collectedAt < now - 7 * SecondsPerDay {
        assert p !in week;
      }
    }
  }

  /**
   * The rounded weekly change is the rounded percentage difference when the
   * oldest price is positive, 0 otherwise, and has the difference's sign.
   */
  lemma WeekChange(oldest: PriceRow, current: PriceRow, change: real)
    requires change == Round2(ChangePercent(Some(oldest), Some(current)))
    ensures oldest.price > 0.0 ==> change == Round2(Percent(oldest.price, current.price))
    ensures oldest.price <= 0.0 ==> change == 0.0
    ensures oldest.price > 0.0 && current.price >= oldest.price ==> change >= 0.0
    ensures oldest.price > 0.0 && current.price <= oldest.price ==> change <= 0.0
  {
    ChangeSign(oldest, current);
  }

  /** Rounded weekly extremes are attained by a row of the week and bound every other. */
  lemma WeekExtremes(week: seq<PriceRow>, st: WeekStats)
    requires week != []
    requires st.high == Round(MaxOf(PricesOf(week))) && st.low == Round(MinOf(PricesOf(week)))
    ensures st.low <= st.high
    ensures exists p :: p in week && st.high == Round(p.price)
    ensures forall p :: p in week ==> Round(p.price) <= st.high
    ensures exists p :: p in week && st.low == Round(p.price)
    ensures forall p :: p in week ==> st.low <= Round(p.price)
  {
    var ps := PricesOf(week);
    RoundMono(MinOf(ps), MaxOf(ps));
    RoundedStats(week, ps);
    RoundedLow(week, ps);
  }

  /** `ORDER BY collected_at ASC LIMIT 1` picks a row no later than any other. */
  lemma OldestFirst(rs: seq<PriceRow>)
    requires rs != []
    ensures var ordered := SortBy(rs, TimeLe);
      ordered != [] && ordered[0] in rs && forall p :: p in rs ==> ordered[0].collectedAt <= p.collectedAt
  {
    var ordered := SortBy(rs, TimeLe);
    assert rs[0] in multiset(ordered);
    assert ordered[0] in multiset(rs);
    TimeLePreorder();
    SortBySorted(rs, TimeLe);
    forall p | p in rs ensures ordered[0].collectedAt <= p.collectedAt {
      assert p in multiset(ordered);
      var i :| 0 <= i < |ordered| && ordered[i] == p;
      assert i == 0 || TimeLe(ordered[0], ordered[i]);
    }
  }

  /** The rounded weekly change is 0 for a non-positive oldest price and otherwise has the sign of the price difference. */
  lemma ChangeSign(oldest: PriceRow, current: PriceRow)
    ensures oldest.price <= 0.0 ==> Round2(ChangePercent(Some(oldest), Some(current))) == 0.0
    ensures oldest.price > 0.0 && current.price >= oldest.price ==> Round2(ChangePercent(Some(oldest), Some(current))) >= 0.0
    ensures oldest.price > 0.0 && current.price <= oldest.price ==> Round2(ChangePercent(Some(oldest), Some(current))) <= 0.0
  {
    var c := ChangePercent(Some(oldest), Some(current));
    Round2Sign(c);
    if oldest.price > 0.0 {
      var d := current.price - oldest.price;
      assert c == d / oldest.price * 100.0;
      assert d >= 0.0 ==> c >= 0.0;
      assert d <= 0.0 ==> c <= 0.0;
    } else {
      RoundInt(0);
      assert c == 0.0;
    }
  }

  // ------------------------------------------------------------- schedules

  datatype ScheduleRow = ScheduleRow(id: nat, date: string, text: string, createdAt: int)

  predicate ScheduleCreatedLe(a: ScheduleRow, b: ScheduleRow) { a.createdAt <= b.createdAt }

  /** `getSchedulesByDate(date)`: that date's entries, `ORDER BY created_at`. */
  function SchedulesByDate(rows: seq<ScheduleRow>, date: string): seq<ScheduleRow>
  {
    SortBy(Filter(rows, (r: ScheduleRow) => r.date == date), ScheduleCreatedLe)
  }

  /** The entries of the date, each once, oldest first. */
  lemma SchedulesByDateSpec(rows: seq<ScheduleRow>, date: string)
    ensures multiset(SchedulesByDate(rows, date)) == multiset(Filter(rows, (r: ScheduleRow) => r.date == date))
    ensures forall r :: r in SchedulesByDate(rows, date) <==> r in rows && r.date == date
    ensures SortedBy(SchedulesByDate(rows, date), ScheduleCreatedLe)
  {
    var f := Filter(rows, (r: ScheduleRow) => r.date == date);
    FilterMembers(rows, (r: ScheduleRow) => r.date == date);
    assert TotalPreorder(ScheduleCreatedLe);
    SortBySorted(f, ScheduleCreatedLe);
    forall r ensures r in SchedulesByDate(rows, date) <==> r in f {
      assert r in SchedulesByDate(rows, date) <==> r in multiset(SchedulesByDate(rows, date));
    }
  }

  /** `SELECT DISTINCT`: the first occurrence of each value, in order. */
  function Dedupe(s: seq<string>): (r: seq<string>)
    ensures forall x :: x in r <==> x in s
    ensures forall i, j :: 0 <= i < j < |r| ==> r[i] != r[j]
  {
    if s == [] then []
    else
      var r := Dedupe(s[..|s| - 1]);
      if s[|s| - 1] in r then r else r + [s[|s| - 1]]
  }

  function DatesOf(rows: seq<ScheduleRow>): (ds: seq<string>)
    ensures |ds| == |rows| && forall i :: 0 <= i < |rows| ==> ds[i] == rows[i].date
  {
    if rows == [] then [] else DatesOf(rows[..|rows| - 1]) + [rows[|rows| - 1].date]
  }

  /** `getScheduleDates(yearMonth)`: the distinct dates beginning with the month. */
  function ScheduleDates(rows: seq<ScheduleRow>, yearMonth: string): seq<string>
  {
    Dedupe(DatesOf(Filter(rows, (r: ScheduleRow) => StartsWith(r.date, yearMonth))))
  }

  /** Each date with an entry and the month as prefix appears exactly once, and no other. */
  lemma ScheduleDatesSpec(rows: seq<ScheduleRow>, yearMonth: string, d: string)
    ensures d in ScheduleDates(rows, yearMonth) <==> StartsWith(d, yearMonth) && exists r :: r in rows && r.date == d
    ensures var ds := ScheduleDates(rows, yearMonth);
      forall i, j :: 0 <= i < j < |ds| ==> ds[i] != ds[j]
  {
    var f := Filter(rows, (r: ScheduleRow) => StartsWith(r.date, yearMonth));
    FilterMembers(rows, (r: ScheduleRow) => StartsWith(r.date, yearMonth));
    var dates := DatesOf(f);
    if d in dates {
      var i :| 0 <= i < |dates| && dates[i] == d;
      assert f[i] in f;
    }
    if StartsWith(d, yearMonth) && exists r :: r in rows && r.date == d {
      var r :| r in rows && r.date == d;
      assert r in f;
      var i :| 0 <= i < |f| && f[i] == r;
      assert dates[i] == d;
    }
  }

  // ----------------------------------------------------------------- todos

  datatype TodoRow = TodoRow(id: nat, text: string, done: int, createdAt: int)

  predicate TodoCreatedGe(a: TodoRow, b: TodoRow) { a.createdAt >= b.createdAt }

  /** `getTodos()`: `ORDER BY created_at DESC`. */
  function GetTodos(rows: seq<TodoRow>): seq<TodoRow>
  {
    SortBy(rows, TodoCreatedGe)
  }

  /** Every todo once, newest first. */
  lemma GetTodosSpec(rows: seq<TodoRow>)
    ensures multiset(GetTodos(rows)) == multiset(rows)
    ensures forall i, j :: 0 <= i < j < |GetTodos(rows)| ==> GetTodos(rows)[i].createdAt >= GetTodos(rows)[j].createdAt
  {
    assert TotalPreorder(TodoCreatedGe);
    SortBySorted(rows, TodoCreatedGe);
    var t := GetTodos(rows);
    forall i, j | 0 <= i < j < |t| ensures t[i].createdAt >= t[j].createdAt {
      assert TodoCreatedGe(t[i], t[j]);
    }
  }

  /** `UPDATE todos SET done = ? WHERE id = ?` with `done ? 1 : 0`. */
  function ToggleTodo(rows: seq<TodoRow>, id: nat, done: bool): (r: seq<TodoRow>)
    ensures |r| == |rows|
  {
    if rows == [] then []
    else
      var t := rows[|rows| - 1];
      ToggleTodo(rows[..|rows| - 1], id, done) + [if t.id == id then t.(done := if done then 1 else 0) else t]
  }

  /** Only `done` changes, only on the rows with the given id, and it becomes 1 or 0. */
  lemma {:induction false} ToggleTodoSpec(rows: seq<TodoRow>, id: nat, done: bool)
    ensures forall i :: 0 <= i < |rows| ==>
      ToggleTodo(rows, id, done)[i] == if rows[i].id == id then rows[i].(done := if done then 1 else 0) else rows[i]
    decreases |rows|
  {
    if rows != [] {
      ToggleTodoSpec(rows[..|rows| - 1], id, done);
    }
  }

  predicate TodoNot(id: nat, t: TodoRow) { t.id != id }
  predicate ScheduleNot(id: nat, s: ScheduleRow) { s.id != id }

  /** `DELETE FROM todos WHERE id = ?`. */
  function DeleteTodo(rows: seq<TodoRow>, id: nat): seq<TodoRow>
  {
    Filter(rows, (t: TodoRow) => TodoNot(id, t))
  }

  /** `DELETE FROM schedules WHERE id = ?`. */
  function DeleteSchedule(rows: seq<ScheduleRow>, id: nat): seq<ScheduleRow>
  {
    Filter(rows, (s: ScheduleRow) => ScheduleNot(id, s))
  }

  /** A delete removes exactly the rows with that id and keeps the others in order. */
  lemma DeleteSpec(todos: seq<TodoRow>, schedules: seq<ScheduleRow>, id: nat)
    ensures forall t :: t in DeleteTodo(todos, id) <==> t in todos && t.id != id
    ensures forall s :: s in DeleteSchedule(schedules, id) <==> s in schedules && s.id != id
    ensures (forall t :: t in todos ==> t.id != id) ==> DeleteTodo(todos, id) == todos
    ensures (forall s :: s in schedules ==> s.id != id) ==> DeleteSchedule(schedules, id) == schedules
  {
    FilterMembers(todos, (t: TodoRow) => TodoNot(id, t));
    FilterMembers(schedules, (s: ScheduleRow) => ScheduleNot(id, s));
    if forall t :: t in todos ==> t.id != id {
      FilterAll(todos, (t: TodoRow) => TodoNot(id, t));
    }
    if forall s :: s in schedules ==> s.id != id {
      FilterAll(schedules, (s: ScheduleRow) => ScheduleNot(id, s));
    }
  }
}
