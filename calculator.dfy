/**
 * The two calculators of src/renderer/js/calculator.js: currency exchange
 * through KRW at the latest collected rates, and gold or silver weight and
 * value in dons, grams, ounces and won. The latest prices are the symbol to
 * price lookups of the renderer's price map; a symbol that is missing, or
 * whose price is 0, NULL or NaN, falls back to the built-in default.
 */
module Calculator {
  import opened JsNumber

  /** The options of the two currency selects. */
  datatype Currency = KRW | USD | EUR | JPY | CNY | RUB | VND

  function CurrencyCode(c: Currency): string
  {
    match c
    case KRW => "KRW" case USD => "USD" case EUR => "EUR" case JPY => "JPY"
    case CNY => "CNY" case RUB => "RUB" case VND => "VND"
  }

  /** `prices?.get(symbol)?.price || fallback`: the stored price when it is truthy. */
  function PriceOr(prices: map<string, JsNum>, symbol: string, fallback: real): (p: real)
    ensures symbol in prices && Truthy(prices[symbol]) ==> p == prices[symbol].value
    ensures !(symbol in prices && Truthy(prices[symbol])) ==> p == fallback
  {
    if symbol in prices && Truthy(prices[symbol]) then prices[symbol].value else fallback
  }

  /**
   * The `rates` table: won per unit of the currency. KRW is 1; JPY and VND
   * are quoted per 100 units and divided by 100.
   */
  function Rate(prices: map<string, JsNum>, c: Currency): (r: real)
    ensures r != 0.0
    ensures c == KRW ==> r == 1.0
  {
    match c
    case KRW => 1.0
    case USD => PriceOr(prices, "USD", 1445.0)
    case EUR => PriceOr(prices, "EUR", 1700.0)
    case JPY => PriceOr(prices, "JPY", 927.0) / 100.0
    case CNY => PriceOr(prices, "CNY", 206.0)
    case RUB => PriceOr(prices, "RUB", 18.0)
    case VND => PriceOr(prices, "VND", 5.7) / 100.0
  }

  /** With no collected prices every rate is its default. */
  lemma DefaultRates(prices: map<string, JsNum>)
    requires forall s :: s in prices ==> !Truthy(prices[s])
    ensures Rate(prices, USD) == 1445.0 && Rate(prices, EUR) == 1700.0 && Rate(prices, JPY) == 9.27
    ensures Rate(prices, CNY) == 206.0 && Rate(prices, RUB) == 18.0 && Rate(prices, VND) == 0.057
  {
  }

  /** `parseFloat(value) || 0`: an unparseable or zero amount is 0. */
  function AmountOf(parsed: JsNum): (a: real)
    ensures parsed.NaN? ==> a == 0.0
    ensures parsed.Num? ==> a == parsed.value
  {
    if Truthy(parsed) then parsed.value else 0.0
  }

  /** `amount * fromRate / toRate`: an amount at one rate re-expressed at another. */
  function Convert(amount: real, f: real, t: real): real
    requires t != 0.0
  {
    amount * f / t
  }

  /** The amount converted to won and then to the target currency. */
  function Exchange(prices: map<string, JsNum>, amount: real, from: Currency, to: Currency): real
  {
    Convert(amount, Rate(prices, from), Rate(prices, to))
  }

  /** Division by a non-zero rate is undone by multiplying by it. */
  lemma DivMul(x: real, t: real)
    requires t != 0.0
    ensures x / t * t == x
  {
  }

  /** Multiplication by a non-zero rate is undone by dividing by it. */
  lemma MulDiv(x: real, t: real)
    requires t != 0.0
    ensures x * t / t == x
  {
  }

  lemma ConvertSame(amount: real, f: real)
    requires f != 0.0
    ensures Convert(amount, f, f) == amount
  {
    MulDiv(amount, f);
  }

  lemma ConvertRoundTrip(amount: real, f: real, t: real)
    requires f != 0.0 && t != 0.0
    ensures Convert(Convert(amount, f, t), t, f) == amount
  {
    var x := amount * f / t;
    assert x * t == amount * f by { DivMul(amount * f, t); }
    assert x * t / f == amount * f / f;
    MulDiv(amount, f);
  }

  lemma ConvertLinear(amount: real, f: real, t: real)
    requires t != 0.0
    ensures Convert(amount, f, t) == amount * Convert(1.0, f, t)
    ensures f == 1.0 ==> Convert(amount, f, t) * t == amount
  {
    assert 1.0 * f / t == f / t;
    assert amount * f / t == amount * (f / t);
    if f == 1.0 {
      DivMul(amount, t);
    }
  }

  lemma ConvertCompose(amount: real, a: real, b: real, c: real)
    requires b != 0.0 && c != 0.0
    ensures Convert(Convert(amount, a, b), b, c) == Convert(amount, a, c)
  {
    var x := amount * a / b;
    assert x * b == amount * a by { DivMul(amount * a, b); }
    assert x * b / c == amount * a / c;
  }

  /** Converting to the same currency keeps the amount. */
  lemma ExchangeSame(prices: map<string, JsNum>, amount: real, c: Currency)
    ensures Exchange(prices, amount, c, c) == amount
  {
    ConvertSame(amount, Rate(prices, c));
  }

  /** Converting back restores the amount. */
  lemma ExchangeRoundTrip(prices: map<string, JsNum>, amount: real, from: Currency, to: Currency)
    ensures Exchange(prices, Exchange(prices, amount, from, to), to, from) == amount
  {
    ConvertRoundTrip(amount, Rate(prices, from), Rate(prices, to));
  }

  /** The result is in proportion to the amount; from won it is the amount over the target's rate. */
  lemma ExchangeLinear(prices: map<string, JsNum>, amount: real, from: Currency, to: Currency)
    ensures Exchange(prices, amount, from, to) == amount * Exchange(prices, 1.0, from, to)
    ensures from == KRW ==> Exchange(prices, amount, from, to) * Rate(prices, to) == amount
  {
    ConvertLinear(amount, Rate(prices, from), Rate(prices, to));
  }

  /** Converting through a third currency gives the direct result. */
  lemma ExchangeCompose(prices: map<string, JsNum>, amount: real, a: Currency, b: Currency, c: Currency)
    ensures Exchange(prices, Exchange(prices, amount, a, b), b, c) == Exchange(prices, amount, a, c)
  {
    ConvertCompose(amount, Rate(prices, a), Rate(prices, b), Rate(prices, c));
  }

  /** `getCurrencySymbol(currency)`. */
  function CurrencySymbol(c: Currency): (s: string)
    ensures |s| == 1
  {
    match c
    case KRW => "₩" case USD => "$" case EUR => "€" case JPY => "¥"
    case CNY => "¥" case RUB => "₽" case VND => "₫"
  }

  /** What `calcResult` shows: the target's symbol and the result to 0 (KRW) or 2 decimals. */
  datatype ResultView = ResultView(symbol: string, value: real, decimals: nat)

  /** What `calcRate` shows: `1 from = rate to` to 4 decimals, or nothing. */
  datatype RateView = NoRate | RateLine(from: Currency, rate: real, to: Currency)

  function ResultOf(prices: map<string, JsNum>, amount: real, from: Currency, to: Currency): (v: ResultView)
    ensures v.symbol == CurrencySymbol(to) && v.value == Exchange(prices, amount, from, to)
    ensures v.decimals == 0 <==> to == KRW
  {
    ResultView(CurrencySymbol(to), Exchange(prices, amount, from, to), if to == KRW then 0 else 2)
  }

  function RateOf(prices: map<string, JsNum>, from: Currency, to: Currency): RateView
  {
    if from != to then RateLine(from, Rate(prices, from) / Rate(prices, to), to) else NoRate
  }

  /**
   * The rate line appears exactly when the currencies differ, and its rate
   * is what one unit of `from` converts to.
   */
  lemma RateOfSpec(prices: map<string, JsNum>, from: Currency, to: Currency)
    ensures RateOf(prices, from, to).RateLine? <==> from != to
    ensures RateOf(prices, from, to).RateLine? ==>
      RateOf(prices, from, to) == RateLine(from, Exchange(prices, 1.0, from, to), to)
  {
    assert 1.0 * Rate(prices, from) == Rate(prices, from);
  }

  /**
   * The exchange form: the parsed amount, the two selections and what the
   * result and rate elements show.
   */
  class ExchangeForm {
    var amount: JsNum
    var from: Currency
    var to: Currency
    var result: ResultView
    var rate: RateView

    constructor (amount: JsNum, from: Currency, to: Currency)
      ensures this.amount == amount && this.from == from && this.to == to
      ensures result == ResultView("", 0.0, 0) && rate == NoRate
    {
      this.amount := amount;
      this.from := from;
      this.to := to;
      result := ResultView("", 0.0, 0);
      rate := NoRate;
    }

    /** `updateExchangeCalc()`: both displays recomputed from the inputs. */
    method Update(prices: map<string, JsNum>)
      modifies this
      ensures amount == old(amount) && from == old(from) && to == old(to)
      ensures result == ResultOf(prices, AmountOf(amount), from, to)
      ensures rate == RateOf(prices, from, to)
    {
      result := ResultOf(prices, AmountOf(amount), from, to);
      rate := RateOf(prices, from, to);
    }

    /** The swap button: the selections trade places and the result is recomputed. */
    method Swap(prices: map<string, JsNum>)
      modifies this
      ensures from == old(to) && to == old(from) && amount == old(amount)
      ensures result == ResultOf(prices, AmountOf(amount), from, to)
      ensures rate == RateOf(prices, from, to)
    {
      var temp := from;
      from := to;
      to := temp;
      Update(prices);
    }
  }

  // ------------------------------------------------------------------ gold

  const DonToGram: real := 3.75
  const OzToGram: real := 31.1035

  /** `pricePerDon`: the stored XAU price for `gold`, the XAG price for any other type. */
  function PricePerDon(prices: map<string, JsNum>, metalType: string): (p: real)
    ensures p != 0.0
    ensures metalType == "gold" ==> p == PriceOr(prices, "XAU", 789000.0)
    ensures metalType != "gold" ==> p == PriceOr(prices, "XAG", 13000.0)
  {
    if metalType == "gold" then PriceOr(prices, "XAU", 789000.0) else PriceOr(prices, "XAG", 13000.0)
  }

  /** The `switch (unit)`: the amount in grams; an unknown unit leaves 0. */
  function Grams(amount: real, unit: string, pricePerDon: real): real
    requires pricePerDon != 0.0
  {
    if unit == "don" then amount * DonToGram
    else if unit == "gram" then amount
    else if unit == "ounce" then amount * OzToGram
    else if unit == "krw" then amount / (pricePerDon / DonToGram)
    else 0.0
  }

  /** The four figures the gold result shows. */
  datatype GoldView = GoldView(dons: real, grams: real, ounces: real, total: real)

  /** `updateGoldCalc()`. */
  function GoldCalc(prices: map<string, JsNum>, parsed: JsNum, unit: string, metalType: string): GoldView
  {
    var p := PricePerDon(prices, metalType);
    GoldFigures(Grams(AmountOf(parsed), unit, p), p)
  }

  /** The figures for `g` grams at `p` won per don. */
  function GoldFigures(g: real, p: real): GoldView
  {
    GoldView(g / DonToGram, g, g / OzToGram, g * (p / DonToGram))
  }

  /** The figures are one weight in three units, and its value at the current price per don. */
  lemma GoldCalcUnits(prices: map<string, JsNum>, parsed: JsNum, unit: string, metalType: string)
    ensures var v := GoldCalc(prices, parsed, unit, metalType);
      v.dons * 3.75 == v.grams && v.ounces * 31.1035 == v.grams
      && v.total == v.dons * PricePerDon(prices, metalType)
  {
    GoldViewUnits(Grams(AmountOf(parsed), unit, PricePerDon(prices, metalType)), PricePerDon(prices, metalType));
  }

  lemma GoldViewUnits(g: real, p: real)
    ensures var v := GoldFigures(g, p);
      v.dons * 3.75 == v.grams && v.ounces * 31.1035 == v.grams && v.total == v.dons * p
  {
    DivMul(g, 3.75);
    DivMul(g, 31.1035);
    MulDivSwap(g, p, 3.75);
  }

  lemma MulDivSwap(g: real, p: real, k: real)
    requires k != 0.0
    ensures g * (p / k) == (g / k) * p
  {
  }

  /**
   * The entered unit's figure is the amount itself, an amount in won is
   * worth exactly that amount, and an unknown unit shows zeros.
   */
  lemma GoldCalcEntered(prices: map<string, JsNum>, parsed: JsNum, unit: string, metalType: string)
    ensures var v := GoldCalc(prices, parsed, unit, metalType);
      var a := AmountOf(parsed);
      && (unit == "don" ==> v.dons == a)
      && (unit == "gram" ==> v.grams == a)
      && (unit == "ounce" ==> v.ounces == a)
      && (unit == "krw" ==> v.total == a)
      && (unit != "don" && unit != "gram" && unit != "ounce" && unit != "krw" ==> v == GoldView(0.0, 0.0, 0.0, 0.0))
  {
    GramsEntered(AmountOf(parsed), unit, PricePerDon(prices, metalType));
  }

  lemma GramsEntered(a: real, unit: string, p: real)
    requires p != 0.0
    ensures var v := GoldFigures(Grams(a, unit, p), p);
      && (unit == "don" ==> v.dons == a)
      && (unit == "gram" ==> v.grams == a)
      && (unit == "ounce" ==> v.ounces == a)
      && (unit == "krw" ==> v.total == a)
      && (unit != "don" && unit != "gram" && unit != "ounce" && unit != "krw" ==> v == GoldView(0.0, 0.0, 0.0, 0.0))
  {
    if unit == "krw" {
      DivMul(a, p / 3.75);
    } else if unit == "don" {
      MulDiv(a, 3.75);
    } else if unit == "ounce" {
      MulDiv(a, 31.1035);
    }
  }
}
