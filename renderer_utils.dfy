/**
 * The renderer helpers of src/renderer/js/utils.js: the bounded `memoize`
 * cache, the `$` element cache, the `formatNumber` guard and the renderer's
 * own name tables. `escapeHtml` is `Html.EscapeHtml` with the basic table
 * and `formatChange` is `Format.FormatChange`.
 */
module RendererUtils {
  import opened Wrappers
  import opened Text
  import opened JsNumber
  import OM = OrderedMap

  /**
   * A price object as the renderer pages receive it over IPC: a missing
   * `symbol` or `category` is the empty text, a missing or `null` price,
   * `change_rate` or `change` is `None`.
   */
  datatype Quote = Quote(symbol: string, category: string, price: Option<real>, unit: string,
                         changeRate: Option<real>, change: Option<real>)

  /** The key both pages file a quote under in `currentPrices`. */
  function QuoteSymbol(q: Quote): string { q.symbol }

  // ---------------------------------------------------------------- memoize

  /** The cache keeps at most this many results. */
  const MemoCapacity: nat := 100

  /** The cache after one call of the memoized function, and the value the call returns. */
  datatype MemoResult<V> = MemoResult(cache: OM.Entries<string, V>, value: V)

  /**
   * One call with arguments whose `JSON.stringify` text is `key`: a cached
   * key returns its value; otherwise `fn` runs, its result is set, and when
   * the map grows past the capacity its first key is deleted.
   */
  function MemoCall<V>(cache: OM.Entries<string, V>, key: string, fn: string -> V): MemoResult<V>
  {
    var hit := OM.Get(cache, key);
    if hit.Some? then MemoResult(cache, hit.value)
    else
      var result := fn(key);
      var grown := OM.Put(cache, key, result);
      MemoResult(if |grown| > MemoCapacity then OM.Remove(grown, OM.Keys(grown)[0]) else grown, result)
  }

  /** Every cached value is what `fn` gives for its key. */
  ghost predicate Agrees<V>(cache: OM.Entries<string, V>, fn: string -> V)
  {
    forall i :: 0 <= i < |cache| ==> cache[i].1 == fn(cache[i].0)
  }

  ghost predicate MemoInvariant<V>(cache: OM.Entries<string, V>, fn: string -> V)
  {
    OM.UniqueKeys(cache) && |cache| <= MemoCapacity && Agrees(cache, fn)
  }

  /** A hit returns the stored value and leaves the cache alone, whatever `fn` is: `fn` is not called. */
  lemma MemoHit<V>(cache: OM.Entries<string, V>, key: string, fn: string -> V, other: string -> V)
    requires OM.Has(cache, key)
    ensures MemoCall(cache, key, fn) == MemoCall(cache, key, other)
    ensures MemoCall(cache, key, fn).cache == cache && Some(MemoCall(cache, key, fn).value) == OM.Get(cache, key)
  {
  }

  /**
   * A miss appends the new result; when the cache was full its oldest entry
   * goes, so the size never passes the capacity.
   */
  lemma MemoMiss<V>(cache: OM.Entries<string, V>, key: string, fn: string -> V)
    requires !OM.Has(cache, key) && OM.UniqueKeys(cache) && |cache| <= MemoCapacity
    ensures MemoCall(cache, key, fn).value == fn(key)
    ensures MemoCall(cache, key, fn).cache ==
      (if |cache| == MemoCapacity then cache[1..] else cache) + [(key, fn(key))]
    ensures |MemoCall(cache, key, fn).cache| <= MemoCapacity
  {
    OM.PutNew(cache, key, fn(key));
    var grown := cache + [(key, fn(key))];
    OM.PutUnique(cache, key, fn(key));
    if |grown| > MemoCapacity {
      OM.RemoveFirst(grown);
      assert grown[1..] == cache[1..] + [(key, fn(key))];
    }
  }

  /** Memoizing is invisible: every call returns `fn(key)`, and the invariant is kept. */
  lemma MemoTransparent<V>(cache: OM.Entries<string, V>, key: string, fn: string -> V)
    requires MemoInvariant(cache, fn)
    ensures MemoCall(cache, key, fn).value == fn(key)
    ensures MemoInvariant(MemoCall(cache, key, fn).cache, fn)
  {
    if OM.Has(cache, key) {
      var v := OM.Get(cache, key).value;
      var i :| 0 <= i < |cache| && cache[i] == (key, v);
    } else {
      MemoMiss(cache, key, fn);
      var next := MemoCall(cache, key, fn).cache;
      var kept := if |cache| == MemoCapacity then cache[1..] else cache;
      assert next == kept + [(key, fn(key))];
      assert forall i :: 0 <= i < |kept| ==> kept[i] in cache;
      forall i | 0 <= i < |next| ensures next[i].1 == fn(next[i].0) {
        if i < |kept| {
          var j :| 0 <= j < |cache| && cache[j] == kept[i];
        }
      }
      forall i, j | 0 <= i < j < |next| ensures next[i].0 != next[j].0 {
        if j == |kept| {
          assert kept[i] in cache;
        } else if |cache| == MemoCapacity {
          assert next[i] == cache[i + 1] && next[j] == cache[j + 1];
        }
      }
    }
  }

  /** `memoize(fn)`: the function it returns, with its private cache. */
  class Memo<V> {
    const fn: string -> V
    var cache: OM.Entries<string, V>

    ghost predicate Valid()
      reads this
    {
      MemoInvariant(cache, fn)
    }

    constructor (fn: string -> V)
      ensures Valid() && this.fn == fn && cache == []
    {
      this.fn := fn;
      cache := [];
    }

    method Call(key: string) returns (r: V)
      requires Valid()
      modifies this
      ensures Valid()
      ensures MemoResult(cache, r) == MemoCall(old(cache), key, fn)
      ensures r == fn(key)
    {
      MemoTransparent(cache, key, fn);
      if OM.Has(cache, key) {
        r := OM.Get(cache, key).value;
        return;
      }
      r := fn(key);
      cache := OM.Put(cache, key, r);
      if |cache| > MemoCapacity {
        var firstKey := OM.Keys(cache)[0];
        cache := OM.Remove(cache, firstKey);
      }
    }
  }

  // -------------------------------------------------------------------- $

  /** The element cache after one `$(selector)` and the element returned. */
  datatype Lookup<E> = Lookup(cache: OM.Entries<string, Option<E>>, element: Option<E>)

  /**
   * `$(selector)`: a selector seen before returns what was stored for it
   * (even `null`); otherwise `found`, what `document.querySelector` returns
   * now, is stored and returned.
   */
  function DomLookup<E>(cache: OM.Entries<string, Option<E>>, selector: string, found: Option<E>): Lookup<E>
  {
    if !OM.Has(cache, selector) then Lookup(OM.Put(cache, selector, found), found)
    else Lookup(cache, OM.Get(cache, selector).value)
  }

  /**
   * The first lookup of a selector decides: looking it up again returns the
   * same element whatever the document holds by then, and entries for other
   * selectors are untouched.
   */
  lemma DomLookupStable<E>(cache: OM.Entries<string, Option<E>>, selector: string, found: Option<E>, later: Option<E>, other: string)
    ensures var first := DomLookup(cache, selector, found);
      && DomLookup(first.cache, selector, later) == first
      && (other != selector ==> OM.Get(first.cache, other) == OM.Get(cache, other))
      && OM.Get(first.cache, selector) == Some(first.element)
  {
    var first := DomLookup(cache, selector, found);
    if !OM.Has(cache, selector) {
      OM.PutGet(cache, selector, found, selector);
      OM.PutGet(cache, selector, found, other);
    }
  }

  /** The module's `domCache` map. */
  class DomCache<E> {
    var cache: OM.Entries<string, Option<E>>

    constructor ()
      ensures cache == []
    {
      cache := [];
    }

    method Query(selector: string, found: Option<E>) returns (element: Option<E>)
      modifies this
      ensures Lookup(cache, element) == DomLookup(old(cache), selector, found)
    {
      if !OM.Has(cache, selector) {
        cache := OM.Put(cache, selector, found);
        OM.PutGet(old(cache), selector, found, selector);
      }
      element := OM.Get(cache, selector).value;
    }

    /** `clearDomCache()`. */
    method Clear()
      modifies this
      ensures cache == []
    {
      cache := [];
    }
  }

  // ------------------------------------------------------------ formatting

  /**
   * `formatNumber(num, decimals)`: `-` for `null`, `undefined` (both `None`)
   * and NaN; otherwise `toLocaleString('ko-KR')` with exactly `decimals`
   * fraction digits, which is `locale` here.
   */
  function FormatNumber(num: Option<JsNum>, decimals: nat, locale: (real, nat) -> string): string
  {
    if num.None? || num.value.NaN? then "-" else locale(num.value.value, decimals)
  }

  /** As long as the locale never prints a bare `-`, the dash means exactly a missing or NaN number. */
  lemma FormatNumberGuard(num: Option<JsNum>, decimals: nat, locale: (real, nat) -> string)
    requires forall x: real, d: nat :: locale(x, d) != "-"
    ensures FormatNumber(num, decimals, locale) == "-" <==> num.None? || num.value.NaN?
    ensures num.Some? && num.value.Num? ==> FormatNumber(num, decimals, locale) == locale(num.value.value, decimals)
  {
  }

  /** The renderer's `getSymbolName` table: units in the currency names, flags on the indicators. */
  const SymbolNames: map<string, string> := map[
    "XAU" := "금", "XAG" := "은",
    "GASOLINE" := "휘발유", "DIESEL" := "경유", "WTI" := "WTI 원유", "BRENT" := "브렌트유",
    "USD" := "미국 달러 (1$)", "EUR" := "유로 (1€)", "JPY" := "일본 엔 (100¥)",
    "CNY" := "중국 위안 (1¥)", "RUB" := "러시아 루블 (1₽)", "VND" := "베트남 동 (100₫)",
    "BTC" := "비트코인", "ETH" := "이더리움",
    "RATE_KR" := "🇰🇷 기준금리", "RATE_US" := "🇺🇸 기준금리",
    "CPI_KR" := "🇰🇷 소비자물가", "CPI_US" := "🇺🇸 소비자물가"]

  /** The renderer's `getCategoryName` table. */
  const CategoryNames: map<string, string> := map[
    "gold" := "귀금속", "silver" := "귀금속", "oil" := "에너지",
    "exchange" := "환율", "crypto" := "암호화폐", "economic" := "금리/물가"]

  function SymbolName(symbol: string): string { NameOr(SymbolNames, symbol) }

  function CategoryName(category: string): string { NameOr(CategoryNames, category) }

  /** Both lookups give the key back exactly for a key the table lacks. */
  lemma NamesFallBack(key: string)
    ensures SymbolName(key) == key <==> key !in SymbolNames
    ensures CategoryName(key) == key <==> key !in CategoryNames
    ensures key in SymbolNames ==> SymbolName(key) == SymbolNames[key]
    ensures key in CategoryNames ==> CategoryName(key) == CategoryNames[key]
  {
    assert ProperNames(SymbolNames);
    assert ProperNames(CategoryNames);
    NameOrSpec(SymbolNames, key);
    NameOrSpec(CategoryNames, key);
  }
}
