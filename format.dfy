/**
 * The display helpers of src/utils/format.js: relative times, dates, signed
 * percentages and the Korean names of symbols and categories. The date text
 * of `formatDate` is `Dates.IsoDate`. The renderer's src/renderer/js/utils.js
 * has a `formatChange` with the same body, modelled by `FormatChange` too.
 */
module Format {
  import opened Text
  import opened JsNumber
  import opened Dates

  /**
   * `timeAgo(date)`: `now` and `past` are the two instants in milliseconds,
   * `local` the calendar date of `past`. The units are successive
   * `Math.floor` divisions of the difference (Dafny's `/` by a positive
   * divisor rounds down as `Math.floor` does).
   */
  function TimeAgo(now: int, past: int, local: Date): string
    requires ValidDate(local)
  {
    var diff := now - past;
    var seconds := diff / 1000;
    var minutes := seconds / 60;
    var hours := minutes / 60;
    var days := hours / 24;
    if seconds < 60 then "방금 전"
    else if minutes < 60 then NatToString(minutes) + "분 전"
    else if hours < 24 then NatToString(hours) + "시간 전"
    else if days < 7 then NatToString(days) + "일 전"
    else IsoDate(local)
  }

  /** Flooring by 1000 and then by 60 is flooring by 60000, and so on up the units. */
  lemma FloorChain(a: int)
    ensures a / 1000 / 60 == a / 60000
    ensures a / 60000 / 60 == a / 3600000
    ensures a / 3600000 / 24 == a / 86400000
  {
    FloorStep(a, 1000, 60);
    FloorStep(a, 60000, 60);
    FloorStep(a, 3600000, 24);
  }

  lemma FloorStep(a: int, b: int, c: int)
    requires b > 0 && c > 0
    ensures a / b / c == a / (b * c)
  {
    var q := a / b;
    var q2 := q / c;
    var rest := (q % c) * b + a % b;
    assert a == q2 * (b * c) + rest by {
      assert a == q * b + a % b;
      assert q == q2 * c + q % c;
      MulDistrib(q2 * c, q % c, b);
      assert q2 * c * b == q2 * (b * c);
    }
    assert 0 <= rest < b * c by {
      assert (q % c) * b <= (c - 1) * b by {
        MulMono(q % c, c - 1, b);
      }
      MulDistrib(c, -1, b);
    }
    FloorUnique(a, b * c, q2, rest);
  }

  lemma MulDistrib(x: int, y: int, b: int)
    ensures (x + y) * b == x * b + y * b
  {
  }

  lemma MulMono(x: int, y: int, b: int)
    requires x <= y && b > 0
    ensures x * b <= y * b
  {
  }

  lemma FloorUnique(a: int, d: int, q: int, r: int)
    requires d > 0 && a == q * d + r && 0 <= r < d
    ensures a / d == q
  {
    var q0 := a / d;
    assert a == q0 * d + a % d;
    if q0 < q {
      MulMono(q0 + 1, q, d);
      MulDistrib(q0, 1, d);
    } else if q0 > q {
      MulMono(q + 1, q0, d);
      MulDistrib(q, 1, d);
    }
  }

  /**
   * The buckets by the raw difference: under a minute (future instants
   * included) is "just now", then whole minutes under an hour, whole hours
   * under a day, whole days under a week, and the date after that.
   */
  lemma TimeAgoBuckets(now: int, past: int, local: Date)
    requires ValidDate(local)
    ensures var diff := now - past;
      var s := TimeAgo(now, past, local);
      && (diff < 60000 ==> s == "방금 전")
      && (60000 <= diff < 3600000 ==> s == NatToString(diff / 60000) + "분 전")
      && (3600000 <= diff < 86400000 ==> s == NatToString(diff / 3600000) + "시간 전")
      && (86400000 <= diff < 604800000 ==> s == NatToString(diff / 86400000) + "일 전")
      && (604800000 <= diff ==> s == IsoDate(local))
  {
    FloorChain(now - past);
  }

  /** `formatChange(change)`: a `+` for a non-negative change, `toFixed(2)`, then `%`; NaN prints as `NaN%`. */
  function FormatChange(change: JsNum): (s: string)
  {
    (if change.Num? && change.value >= 0.0 then "+" else "")
    + (if change.Num? then ToFixed2(change.value) else "NaN") + "%"
  }

  /**
   * The text starts with `+` exactly for a non-negative change and with `-`
   * exactly for a negative one, ends with `%`, and holds the two-decimal
   * figure between.
   */
  lemma FormatChangeSign(change: JsNum)
    ensures var s := FormatChange(change);
      && |s| >= 2 && s[|s| - 1] == '%'
      && (s[0] == '+' <==> change.Num? && change.value >= 0.0)
      && (s[0] == '-' <==> change.Num? && change.value < 0.0)
      && (change.Num? && change.value >= 0.0 ==> s[1..|s| - 1] == ToFixed2(change.value))
      && (change.Num? && change.value < 0.0 ==> s[..|s| - 1] == ToFixed2(change.value))
  {
    if change.Num? {
      ToFixed2Sign(change.value);
      var f := ToFixed2(change.value);
      if change.value >= 0.0 {
        assert FormatChange(change) == "+" + f + "%";
        Enclosed("+", f, "%");
      } else {
        assert FormatChange(change) == "" + f + "%";
        Enclosed("", f, "%");
      }
    } else {
      assert FormatChange(change) == "NaN%";
    }
  }

  /** Where the three pieces of `a + f + b` sit, for a one-character ending. */
  lemma Enclosed(a: string, f: string, b: string)
    requires |f| >= 1 && |b| == 1
    ensures var s := a + f + b;
      && |s| == |a| + |f| + 1 && s[|s| - 1] == b[0]
      && s[0] == (if a == [] then f[0] else a[0])
      && s[|a|..|s| - 1] == f
  {
  }

  /** The `names` table of `getSymbolName`. */
  const SymbolNames: map<string, string> := map[
    "XAU" := "금", "XAG" := "은",
    "WTI" := "WTI 유", "BRENT" := "브렌트유",
    "USD" := "미국 달러", "CNY" := "중국 위안", "JPY" := "일본 엔", "EUR" := "유로",
    "VND" := "베트남 동", "RUB" := "러시아 루블",
    "BTC" := "비트코인", "ETH" := "이더리움",
    "CPI" := "소비자물가지수", "RATE" := "기준금리"]

  /** The `names` table of `getCategoryName`. */
  const CategoryNames: map<string, string> := map[
    "gold" := "귀금속", "silver" := "귀금속", "oil" := "에너지",
    "exchange" := "환율", "crypto" := "암호화폐", "economic" := "경제지표"]

  function SymbolName(symbol: string): string { NameOr(SymbolNames, symbol) }

  function CategoryName(category: string): string { NameOr(CategoryNames, category) }

  /** Both lookups give the key back exactly for a key the table lacks. */
  lemma NamesFallBack(key: string)
    ensures SymbolName(key) == key <==> key !in SymbolNames
    ensures CategoryName(key) == key <==> key !in CategoryNames
    ensures key in SymbolNames ==> SymbolName(key) == SymbolNames[key]
    ensures key in CategoryNames ==> CategoryName(key) == CategoryNames[key]
  {
    assert ProperNames(SymbolNames);
    assert ProperNames(CategoryNames);
    NameOrSpec(SymbolNames, key);
    NameOrSpec(CategoryNames, key);
  }
}
