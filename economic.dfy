/**
 * The economic-indicator collector of src/services/collector/economic.js:
 * the Korean and US policy rates scraped from two pages, the two CPI
 * figures as constants, and a default for every indicator the scrapers did
 * not produce. The records are returned, not stored. Each page is given
 * by the element texts its selectors found, already parsed where the
 * source calls `parseFloat` on a text it did not filter itself.
 */
module Economic {
  import opened Wrappers
  import opened Text
  import opened JsNumber
  import opened Records
  import opened Collecting

  const RateKr: string := "RATE_KR"
  const RateUs: string := "RATE_US"
  const CpiKr: string := "CPI_KR"
  const CpiUs: string := "CPI_US"

  /** The four indicators, in the order their defaults are checked. */
  const Indicators: seq<string> := [RateKr, RateUs, CpiKr, CpiUs]

  /** `fetchKoreaCPI`/`fetchUSCPI` return these year-on-year figures without a request. */
  const CpiKrValue: real := 1.9
  const CpiUsValue: real := 2.7

  /** The figure pushed for an indicator that is missing. */
  function DefaultValue(symbol: string): real
  {
    if symbol == RateKr then 3.0 else if symbol == RateUs then 4.5 else if symbol == CpiKr then 1.9 else 2.7
  }

  /** Every indicator record: category `economic`, unit `%`, change 0. */
  function IndicatorRecord(symbol: string, value: real): (rec: PriceRecord)
    ensures rec.category == "economic" && rec.unit == "%" && rec.change == 0.0
    ensures rec.symbol == symbol && rec.price == value
  {
    PriceRecord("economic", symbol, value, 0.0, "%")
  }

  // ----- fetchKoreaInterestRate -----

  /** One `tbody tr` of the `tbl_exchange` table: its trimmed first cell and its parsed second cell. */
  datatype RateRow = RateRow(name: string, value: JsNum)

  /** The rows of the table, and the parsed text of the first `.tb_td1` (`None` when it is empty). */
  datatype RatePage = RatePage(rows: seq<RateRow>, tbTd1: Option<JsNum>)

  predicate IsBaseRateRow(r: RateRow)
  {
    Contains(r.name, "한국") && Contains(r.name, "기준금리")
  }

  /** The value of the last row naming the Korean base rate, if any row does. */
  function LastBaseRate(rows: seq<RateRow>): Option<JsNum>
  {
    if rows == [] then None
    else if IsBaseRateRow(rows[|rows| - 1]) then Some(rows[|rows| - 1].value)
    else LastBaseRate(rows[..|rows| - 1])
  }

  /** The last matching row wins: a later row overrides every earlier one. */
  lemma {:induction false} LastBaseRateSpec(rows: seq<RateRow>)
    ensures LastBaseRate(rows).None? <==> forall i :: 0 <= i < |rows| ==> !IsBaseRateRow(rows[i])
    ensures LastBaseRate(rows).Some? ==>
      exists i :: (0 <= i < |rows| && IsBaseRateRow(rows[i]) && LastBaseRate(rows) == Some(rows[i].value)
                   && forall j :: i < j < |rows| ==> !IsBaseRateRow(rows[j]))
  {
    if rows != [] {
      var init := rows[..|rows| - 1];
      LastBaseRateSpec(init);
      assert forall i :: 0 <= i < |init| ==> init[i] == rows[i];
      if IsBaseRateRow(rows[|rows| - 1]) {
        assert LastBaseRate(rows) == Some(rows[|rows| - 1].value);
      } else if LastBaseRate(init).Some? {
        var i :| 0 <= i < |init| && IsBaseRateRow(init[i]) && LastBaseRate(init) == Some(init[i].value)
          && forall j :: i < j < |init| ==> !IsBaseRateRow(init[j]);
        assert IsBaseRateRow(rows[i]);
      }
    }
  }

  /** The `.each` over the table rows, keeping the last match. */
  method ScanRateRows(rows: seq<RateRow>) returns (rate: Option<JsNum>)
    ensures rate == LastBaseRate(rows)
  {
    rate := None;
    var i := 0;
    while i < |rows|
      invariant 0 <= i <= |rows|
      invariant rate == LastBaseRate(rows[..i])
    {
      assert rows[..i + 1][..i] == rows[..i];
      if IsBaseRateRow(rows[i]) {
        rate := Some(rows[i].value);
      }
      i := i + 1;
    }
    assert rows[..i] == rows;
  }

  /** The Korean rate: the table's, else `.tb_td1`'s when the table gave no truthy value; null unless truthy. */
  function KoreaRateOf(page: Fetch<RatePage>): Option<real>
  {
    if page.FetchFailed? then None
    else
      var table := LastBaseRate(page.value.rows);
      var rate := if !TruthyOpt(table) && page.value.tbTd1.Some? then page.value.tbTd1 else table;
      if TruthyOpt(rate) then Some(rate.value.value) else None
  }

  /** `fetchKoreaInterestRate()`: the rate, or null on a failed request or a missing, 0 or NaN value. */
  method FetchKoreaInterestRate(page: Fetch<RatePage>) returns (rate: Option<real>)
    ensures rate == KoreaRateOf(page)
  {
    if page.FetchFailed? {
      return None;
    }
    var r := ScanRateRows(page.value.rows);
    if !TruthyOpt(r) && page.value.tbTd1.Some? {
      r := page.value.tbTd1;
    }
    rate := if TruthyOpt(r) then Some(r.value.value) else None;
  }

  /** A truthy table value beats `.tb_td1`; without one, `.tb_td1` decides; 0 and NaN never come out. */
  lemma KoreaRatePrecedence(page: Fetch<RatePage>)
    requires page.Fetched?
    ensures TruthyOpt(LastBaseRate(page.value.rows)) ==>
      KoreaRateOf(page) == Some(LastBaseRate(page.value.rows).value.value)
    ensures !TruthyOpt(LastBaseRate(page.value.rows)) ==>
      KoreaRateOf(page) == if TruthyOpt(page.value.tbTd1) then Some(page.value.tbTd1.value.value) else None
    ensures KoreaRateOf(page).Some? ==> KoreaRateOf(page).value != 0.0
  {
  }

  // ----- fetchUSInterestRate -----

  predicate IsRateChar(c: char) { IsDigit(c) || c == '.' }

  /** `text.replace(/[^0-9.]/g, '')`. */
  function KeepRateChars(s: string): (r: string)
    ensures |r| <= |s|
    ensures forall i :: 0 <= i < |r| ==> IsRateChar(r[i])
    ensures forall c :: c in r <==> c in s && IsRateChar(c)
  {
    if s == [] then []
    else KeepRateChars(s[..|s| - 1]) + (if IsRateChar(s[|s| - 1]) then [s[|s| - 1]] else [])
  }

  /** Text made only of digits and points comes through unchanged. */
  lemma {:induction false} KeepRateCharsKeeps(s: string)
    requires forall i :: 0 <= i < |s| ==> IsRateChar(s[i])
    ensures KeepRateChars(s) == s
  {
    if s != [] {
      KeepRateCharsKeeps(s[..|s| - 1]);
    }
  }

  /**
   * `fetchUSInterestRate()`: the trimmed text of the first rate element with
   * everything but digits and points removed, through `parseFloat`; null on
   * a failed request or a 0 or NaN value.
   */
  function UsRateOf(text: Fetch<string>): (rate: Option<real>)
  {
    if text.FetchFailed? then None
    else
      var r := ParseDecimalPrefix(KeepRateChars(text.value));
      if Truthy(r) then Some(r.value) else None
  }

  /** Without a sign character to keep, a US rate that comes out is positive. */
  lemma UsRatePositive(text: Fetch<string>)
    ensures UsRateOf(text).Some? ==> UsRateOf(text).value > 0.0
  {
    if text.Fetched? {
      ParseDecimalPrefixNonNegative(KeepRateChars(text.value));
    }
  }

  lemma ParseDecimalPrefixNonNegative(s: string)
    ensures ParseDecimalPrefix(s).Num? ==> ParseDecimalPrefix(s).value >= 0.0
  {
    var k := DigitRun(s);
    var rest := s[k..];
    var frac := if rest != [] && rest[0] == '.' then rest[1..][..DigitRun(rest[1..])] else [];
    var p := Pow10(|frac|) as real;
    assert DigitsValue(frac) as real / p >= 0.0;
  }

  /** A wholly numeric rate text such as `4` or `4%` gives that rate. */
  lemma UsRateWholeNumber(n: nat, tail: string)
    requires n > 0
    requires forall i :: 0 <= i < |tail| ==> !IsRateChar(tail[i])
    ensures UsRateOf(Fetched(NatToString(n) + tail)) == Some(n as real)
  {
    var s := NatToString(n) + tail;
    KeepRateCharsAppend(NatToString(n), tail);
    KeepRateCharsDrops(tail);
    KeepRateCharsKeeps(NatToString(n));
    assert KeepRateChars(s) == NatToString(n) + [];
    ParseDecimalPrefixNat(n, []);
  }

  lemma {:induction false} KeepRateCharsAppend(a: string, b: string)
    ensures KeepRateChars(a + b) == KeepRateChars(a) + KeepRateChars(b)
    decreases |b|
  {
    if b == [] {
      assert a + b == a;
    } else {
      assert (a + b)[..|a + b| - 1] == a + b[..|b| - 1];
      KeepRateCharsAppend(a, b[..|b| - 1]);
    }
  }

  lemma {:induction false} KeepRateCharsDrops(s: string)
    requires forall i :: 0 <= i < |s| ==> !IsRateChar(s[i])
    ensures KeepRateChars(s) == []
  {
    if s != [] {
      KeepRateCharsDrops(s[..|s| - 1]);
    }
  }

  // ----- collectEconomicIndicators -----

  /** `results.find(r => r.symbol === symbol)` as a test. */
  predicate HasSymbol(rs: seq<PriceRecord>, symbol: string)
  {
    exists i :: 0 <= i < |rs| && rs[i].symbol == symbol
  }

  /** One default fill: push the default record of `symbol` unless one for it is present. */
  function Filled(rs: seq<PriceRecord>, symbol: string): seq<PriceRecord>
  {
    if HasSymbol(rs, symbol) then rs else rs + [IndicatorRecord(symbol, DefaultValue(symbol))]
  }

  /** The results before the default fills: the scraped rates that came out, then the CPI constants. */
  function ScrapedOf(kr: Option<real>, us: Option<real>): seq<PriceRecord>
  {
    (if kr.Some? then [IndicatorRecord(RateKr, kr.value)] else [])
    + (if us.Some? then [IndicatorRecord(RateUs, us.value)] else [])
    + [IndicatorRecord(CpiKr, CpiKrValue), IndicatorRecord(CpiUs, CpiUsValue)]
  }

  /** The results after the four fills, made in order RATE_KR, RATE_US, CPI_KR, CPI_US. */
  function IndicatorsOf(kr: Option<real>, us: Option<real>): seq<PriceRecord>
  {
    Filled(Filled(Filled(Filled(ScrapedOf(kr, us), RateKr), RateUs), CpiKr), CpiUs)
  }

  lemma IndicatorsDistinct()
    ensures RateKr != RateUs && RateKr != CpiKr && RateKr != CpiUs
    ensures RateUs != CpiKr && RateUs != CpiUs && CpiKr != CpiUs
  {
    assert RateKr[5] != RateUs[5];
    assert CpiKr[4] != CpiUs[4];
    assert |RateKr| != |CpiKr| && |RateUs| != |CpiUs|;
    assert |RateKr| != |CpiUs| && |RateUs| != |CpiKr|;
  }

  /**
   * The results in closed form: the scraped rates, the CPI constants, then
   * the defaults of the rates that did not come out. The CPI fills never
   * fire, since their fetchers always return a record.
   */
  lemma {:induction false} IndicatorsClosedForm(kr: Option<real>, us: Option<real>)
    ensures IndicatorsOf(kr, us) == ClosedForm(kr, us)
  {
    IndicatorsDistinct();
    var s0 := ScrapedOf(kr, us);
    var n := (if kr.Some? then 1 else 0) + (if us.Some? then 1 else 0);
    assert s0[n].symbol == CpiKr && s0[n + 1].symbol == CpiUs;
    assert HasSymbol(s0, RateKr) <==> kr.Some? by {
      if kr.Some? { assert s0[0].symbol == RateKr; }
    }
    var s1 := Filled(s0, RateKr);
    assert s1[n].symbol == CpiKr && s1[n + 1].symbol == CpiUs;
    assert HasSymbol(s1, RateUs) <==> us.Some? by {
      if us.Some? { assert s1[n - 1].symbol == RateUs; }
    }
    var s2 := Filled(s1, RateUs);
    assert s2[n].symbol == CpiKr && s2[n + 1].symbol == CpiUs;
    assert Filled(s2, CpiKr) == s2;
  }

  /** The scraped records, then the rate defaults that are needed. */
  function ClosedForm(kr: Option<real>, us: Option<real>): seq<PriceRecord>
  {
    ScrapedOf(kr, us)
    + (if kr.None? then [IndicatorRecord(RateKr, 3.0)] else [])
    + (if us.None? then [IndicatorRecord(RateUs, 4.5)] else [])
  }

  /** The price of the first record for `symbol`. */
  function PriceOf(rs: seq<PriceRecord>, symbol: string): Option<real>
  {
    if rs == [] then None else if rs[0].symbol == symbol then Some(rs[0].price) else PriceOf(rs[1..], symbol)
  }

  /** The first record for `symbol` decides its price. */
  lemma {:induction false} PriceOfAt(rs: seq<PriceRecord>, symbol: string, i: nat)
    requires i < |rs| && rs[i].symbol == symbol
    requires forall j :: 0 <= j < i ==> rs[j].symbol != symbol
    ensures PriceOf(rs, symbol) == Some(rs[i].price)
  {
    if i > 0 {
      PriceOfAt(rs[1..], symbol, i - 1);
    }
  }

  /**
   * Every indicator is present exactly once and nothing else is: four
   * records with distinct symbols, each an indicator, each found. A scraped
   * rate takes precedence over its default; the CPI figures are the constants.
   */
  lemma IndicatorsSpec(kr: Option<real>, us: Option<real>)
    ensures var rs := IndicatorsOf(kr, us);
      && |rs| == 4
      && (forall i, j :: 0 <= i < j < |rs| ==> rs[i].symbol != rs[j].symbol)
      && (forall i :: 0 <= i < |rs| ==>
            (rs[i].symbol in Indicators && rs[i].category == "economic" && rs[i].unit == "%" && rs[i].change == 0.0))
      && PriceOf(rs, RateKr) == Some(if kr.Some? then kr.value else 3.0)
      && PriceOf(rs, RateUs) == Some(if us.Some? then us.value else 4.5)
      && PriceOf(rs, CpiKr) == Some(1.9) && PriceOf(rs, CpiUs) == Some(2.7)
  {
    IndicatorsClosedForm(kr, us);
    ClosedFormSymbols(kr, us);
    ClosedFormPrices(kr, us);
  }

  lemma ClosedFormSymbols(kr: Option<real>, us: Option<real>)
    ensures var rs := ClosedForm(kr, us);
      && |rs| == 4
      && (forall i, j :: 0 <= i < j < |rs| ==> rs[i].symbol != rs[j].symbol)
      && (forall i :: 0 <= i < |rs| ==>
            (rs[i].symbol in Indicators && rs[i].category == "economic" && rs[i].unit == "%" && rs[i].change == 0.0))
  {
    IndicatorsDistinct();
    var rs := ClosedForm(kr, us);
    var n := (if kr.Some? then 1 else 0) + (if us.Some? then 1 else 0);
    assert rs[n].symbol == CpiKr && rs[n + 1].symbol == CpiUs;
    if kr.Some? {
      assert rs[0].symbol == RateKr;
    } else {
      assert rs[n + 2].symbol == RateKr;
    }
    if us.Some? {
      assert rs[n - 1].symbol == RateUs;
    } else {
      assert rs[3].symbol == RateUs;
    }
  }

  lemma ClosedFormPrices(kr: Option<real>, us: Option<real>)
    ensures var rs := ClosedForm(kr, us);
      && PriceOf(rs, RateKr) == Some(if kr.Some? then kr.value else 3.0)
      && PriceOf(rs, RateUs) == Some(if us.Some? then us.value else 4.5)
      && PriceOf(rs, CpiKr) == Some(1.9) && PriceOf(rs, CpiUs) == Some(2.7)
  {
    IndicatorsDistinct();
    var rs := ClosedForm(kr, us);
    var n := (if kr.Some? then 1 else 0) + (if us.Some? then 1 else 0);
    PriceOfAt(rs, CpiKr, n);
    PriceOfAt(rs, CpiUs, n + 1);
    PriceOfAt(rs, RateKr, if kr.Some? then 0 else n + 2);
    PriceOfAt(rs, RateUs, if us.Some? then n - 1 else if kr.Some? then n + 2 else n + 3);
  }

  /**
   * `collectEconomicIndicators()`: the scraped rates and the CPI constants
   * in fetch order, then the four default fills; always `success: true`.
   */
  method CollectEconomicIndicators(korea: Fetch<RatePage>, us: Fetch<string>) returns (out: Outcome)
    ensures out == Ok(PriceItems(IndicatorsOf(KoreaRateOf(korea), UsRateOf(us))))
  {
    var koreaRate := FetchKoreaInterestRate(korea);
    var usRate := UsRateOf(us);
    var results: seq<PriceRecord> := [];
    if koreaRate.Some? {
      results := results + [IndicatorRecord(RateKr, koreaRate.value)];
    }
    if usRate.Some? {
      results := results + [IndicatorRecord(RateUs, usRate.value)];
    }
    results := results + [IndicatorRecord(CpiKr, CpiKrValue)];
    results := results + [IndicatorRecord(CpiUs, CpiUsValue)];
    assert results == ScrapedOf(koreaRate, usRate);
    ghost var r0 := results;
    if !HasSymbol(results, RateKr) {
      results := results + [IndicatorRecord(RateKr, 3.0)];
    }
    assert results == Filled(r0, RateKr);
    ghost var r1 := results;
    if !HasSymbol(results, RateUs) {
      results := results + [IndicatorRecord(RateUs, 4.5)];
    }
    assert results == Filled(r1, RateUs);
    ghost var r2 := results;
    if !HasSymbol(results, CpiKr) {
      results := results + [IndicatorRecord(CpiKr, 1.9)];
    }
    assert results == Filled(r2, CpiKr);
    ghost var r3 := results;
    if !HasSymbol(results, CpiUs) {
      results := results + [IndicatorRecord(CpiUs, 2.7)];
    }
    assert results == Filled(r3, CpiUs);
    out := Ok(PriceItems(results));
  }
}
