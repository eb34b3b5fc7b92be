/**
 * The main window of src/renderer/js/app.js: the price board that merges
 * pushed prices and tracks collection progress, the order in which price
 * cards are shown, and the inquiry form with its input clean-up and its
 * client-side throttle. Escaping is `Html.EscapeHtml` with the extended
 * table. The browser's `localStorage` entry is a field holding its parsed
 * contents; the clock, the user's inputs and the server's answer are
 * parameters.
 */
module App {
  import opened Wrappers
  import opened Text
  import opened JsNumber
  import opened Sorting
  import opened Html
  import opened RendererUtils
  import OM = OrderedMap
  import Format

  // ---------------------------------------------------------- input text

  predicate Visible(c: char) { !IsJsSpace(c) }

  /** The characters that are not white space, in order. */
  function VisibleText(s: string): string
  {
    Filter(s, Visible)
  }

  /** `replace(/\s+/g, ' ')`: every run of white space becomes one space. */
  function Collapse(s: string): (r: string)
    ensures |r| <= |s|
    decreases |s|
  {
    if s == [] then []
    else if IsJsSpace(s[0]) then " " + Collapse(TrimStart(s[1..]))
    else [s[0]] + Collapse(s[1..])
  }

  /** The only white space is single plain spaces. */
  ghost predicate Collapsed(s: string)
  {
    forall i :: 0 <= i < |s| && IsJsSpace(s[i]) ==> s[i] == ' ' && (i + 1 < |s| ==> !IsJsSpace(s[i + 1]))
  }

  lemma {:induction false} VisibleTrimStart(s: string)
    ensures VisibleText(TrimStart(s)) == VisibleText(s)
    decreases |s|
  {
    if s != [] && IsJsSpace(s[0]) {
      VisibleTrimStart(s[1..]);
    }
  }

  lemma {:induction false} VisibleTrimEnd(s: string)
    ensures VisibleText(TrimEnd(s)) == VisibleText(s)
    decreases |s|
  {
    if s != [] && IsJsSpace(s[|s| - 1]) {
      var init := s[..|s| - 1];
      VisibleTrimEnd(init);
      assert s == init + [s[|s| - 1]];
      FilterAppend(init, [s[|s| - 1]], Visible);
      assert Filter([s[|s| - 1]], Visible) == [];
    }
  }

  /** Collapsing leaves no white space but single plain spaces. */
  lemma {:induction false} CollapseCollapsed(s: string)
    ensures Collapsed(Collapse(s))
    decreases |s|
  {
    if s != [] {
      var r := Collapse(s);
      if IsJsSpace(s[0]) {
        var t := TrimStart(s[1..]);
        TrimStartSpec(s[1..]);
        CollapseCollapsed(t);
        var rt := Collapse(t);
        assert r == [' '] + rt;
        assert rt != [] ==> !IsJsSpace(rt[0]);
        forall i | 0 <= i < |r| && IsJsSpace(r[i]) ensures r[i] == ' ' && (i + 1 < |r| ==> !IsJsSpace(r[i + 1])) {
          if i > 0 {
            assert r[i] == rt[i - 1];
          }
        }
      } else {
        CollapseCollapsed(s[1..]);
        var rt := Collapse(s[1..]);
        assert r == [s[0]] + rt;
        forall i | 0 <= i < |r| && IsJsSpace(r[i]) ensures r[i] == ' ' && (i + 1 < |r| ==> !IsJsSpace(r[i + 1])) {
          assert i > 0 && r[i] == rt[i - 1];
        }
      }
    }
  }

  /** Collapsing keeps every visible character, in order. */
  lemma {:induction false} CollapseVisible(s: string)
    ensures VisibleText(Collapse(s)) == VisibleText(s)
    decreases |s|
  {
    if s != [] {
      if IsJsSpace(s[0]) {
        var t := TrimStart(s[1..]);
        CollapseVisible(t);
        VisibleTrimStart(s[1..]);
        assert Collapse(s) == [' '] + Collapse(t);
        FilterAppend([' '], Collapse(t), Visible);
        assert Filter([' '], Visible) == [];
      } else {
        CollapseVisible(s[1..]);
      }
    }
  }

  /** A text that ends with a visible character still does once collapsed. */
  lemma {:induction false} CollapseLast(s: string)
    requires s != [] && !IsJsSpace(s[|s| - 1])
    ensures Collapse(s) != [] && !IsJsSpace(Collapse(s)[|Collapse(s)| - 1])
    decreases |s|
  {
    if IsJsSpace(s[0]) {
      var t := TrimStart(s[1..]);
      TrimStartSpec(s[1..]);
      assert t != [] && t[|t| - 1] == s[|s| - 1];
      CollapseLast(t);
    } else if |s| > 1 {
      assert s[1..][|s[1..]| - 1] == s[|s| - 1];
      CollapseLast(s[1..]);
    }
  }

  const MaxLength: nat := 2000
  const MinLength: nat := 10

  /**
   * `sanitizeInput(str)`: a missing or empty value gives the empty text;
   * otherwise trimmed, white space collapsed, cut to 2000 units.
   */
  function SanitizeInput(str: Option<string>): string
  {
    if str.None? || str.value == "" then "" else Utf16Prefix(Collapse(Trim(str.value)), MaxLength)
  }

  /**
   * The result fits the limit, has no white space but single inner spaces
   * and starts with a visible character; when nothing had to be cut it also
   * ends with one and holds exactly the input's visible characters.
   */
  lemma SanitizeSpec(s: string)
    ensures var r := SanitizeInput(Some(s));
      && Utf16Length(r) <= MaxLength
      && Collapsed(r)
      && (r == [] || !IsJsSpace(r[0]))
      && (Utf16Length(Collapse(Trim(s))) <= MaxLength ==>
            r == Collapse(Trim(s)) && VisibleText(r) == VisibleText(s) && (r == [] || !IsJsSpace(r[|r| - 1])))
  {
    if s != "" {
      var t := Trim(s);
      var c := Collapse(t);
      TrimEdges(s);
      CollapseCollapsed(t);
      CollapseVisible(t);
      if t != [] {
        CollapseLast(t);
      }
      Utf16PrefixFits(c, MaxLength);
      if Utf16Length(c) <= MaxLength {
        Utf16PrefixWhole(c, MaxLength);
      }
      var r := Utf16Prefix(c, MaxLength);
      assert r == c[..|r|];
      assert Collapsed(r) by {
        forall i | 0 <= i < |r| && IsJsSpace(r[i]) ensures r[i] == ' ' && (i + 1 < |r| ==> !IsJsSpace(r[i + 1])) {
          assert r[i] == c[i];
          if i + 1 < |r| {
            assert r[i + 1] == c[i + 1];
          }
        }
      }
      if r != [] {
        assert r[0] == c[0];
      }
      VisibleTrimStart(s);
      VisibleTrimEnd(TrimStart(s));
    }
  }

  /** The result is empty exactly when the input held nothing but white space. */
  lemma SanitizeEmpty(s: string)
    ensures SanitizeInput(Some(s)) == "" <==> forall i :: 0 <= i < |s| ==> IsJsSpace(s[i])
  {
    var a := TrimStart(s);
    TrimStartSpec(s);
    if a == [] {
      assert forall i :: 0 <= i < |s| ==> IsJsSpace(s[i]);
    } else {
      TrimEndSpec(a);
      var t := TrimEnd(a);
      assert t != [] && t[0] == a[0];
      assert !IsJsSpace(s[|s| - |a|]);
      var c := Collapse(t);
      assert Units(c[0]) <= MaxLength;
      assert SanitizeInput(Some(s))[0] == c[0];
    }
  }

  // ------------------------------------------------------------ inquiries

  const InquiryLimit: nat := 3
  const HourMs: int := 3600000
  const DoubleSubmitMs: int := 2000
  const ClientVersion: string := "1.0.8"

  /** One element of the stored array: a number, or any other JSON value. */
  datatype Entry = Number(value: int) | NotNumber

  /**
   * The `inquiry_history` item: absent or empty, text `JSON.parse` rejects,
   * a value that is not an array, or an array.
   */
  datatype Stored = Absent | Unparseable | NotArray | Items(items: seq<Entry>)

  /** The positive numbers of the array, in order. */
  function Stamps(items: seq<Entry>): (r: seq<int>)
    ensures forall i :: 0 <= i < |r| ==> r[i] > 0
  {
    if items == [] then []
    else (if items[0].Number? && items[0].value > 0 then [items[0].value] else []) + Stamps(items[1..])
  }

  /** What `getInquiryHistory()` returns for the stored item. */
  function HistoryOf(st: Stored): (h: seq<int>)
    ensures forall i :: 0 <= i < |h| ==> h[i] > 0
  {
    if st.Items? then Stamps(st.items) else []
  }

  /** `saveInquiryHistory(history)`: the array of numbers. */
  function Store(h: seq<int>): Stored
  {
    Items(seq(|h|, i requires 0 <= i < |h| => Number(h[i])))
  }

  /** A saved history of positive stamps reads back unchanged. */
  lemma {:induction false} StoreRoundTrip(h: seq<int>)
    requires forall i :: 0 <= i < |h| ==> h[i] > 0
    ensures HistoryOf(Store(h)) == h
    decreases |h|
  {
    if h != [] {
      StoreRoundTrip(h[1..]);
      assert Store(h).items[1..] == Store(h[1..]).items;
      assert h == [h[0]] + h[1..];
    }
  }

  predicate WithinHour(now: int, t: int) { t > now - HourMs }

  /** The stamps of the last hour. */
  function Recent(h: seq<int>, now: int): seq<int>
  {
    Filter(h, t => WithinHour(now, t))
  }

  /** `!email || email.length > 254` fails; otherwise the pattern decides. */
  predicate ValidEmail(email: string, pattern: string -> bool)
  {
    email != "" && Utf16Length(email) <= 254 && pattern(email)
  }

  /** The validations of the form in the order the handler makes them. */
  datatype Verdict = Accepted | MissingField | BadType | BadEmail | TooShort | TooLong | Malicious

  function Validate(kind: string, email: string, content: string,
                    pattern: string -> bool, malicious: string -> bool): Verdict
  {
    if kind == "" || email == "" || content == "" then MissingField
    else if kind != "general" && kind != "ads" && kind != "bug" then BadType
    else if !ValidEmail(email, pattern) then BadEmail
    else if Utf16Length(content) < MinLength then TooShort
    else if Utf16Length(content) > MaxLength then TooLong
    else if malicious(content) || malicious(email) then Malicious
    else Accepted
  }

  /** An inquiry goes out exactly when every field is present and passes every check. */
  lemma ValidateAccepts(kind: string, email: string, content: string, pattern: string -> bool, malicious: string -> bool)
    ensures Validate(kind, email, content, pattern, malicious) == Accepted <==>
      && kind in ["general", "ads", "bug"] && ValidEmail(email, pattern)
      && MinLength <= Utf16Length(content) <= MaxLength
      && !malicious(content) && !malicious(email)
  {
  }

  /** A sanitized content is never too long, so the upper length check never fires. */
  lemma SanitizedNeverTooLong(kind: string, email: string, raw: Option<string>, pattern: string -> bool, malicious: string -> bool)
    ensures Validate(kind, email, SanitizeInput(raw), pattern, malicious) != TooLong
  {
    var content := SanitizeInput(raw);
    if raw.Some? {
      SanitizeSpec(raw.value);
    } else {
      assert content == [];
    }
    assert Utf16Length(content) <= MaxLength;
    FitsNotTooLong(kind, email, content, pattern, malicious);
  }

  lemma FitsNotTooLong(kind: string, email: string, content: string, pattern: string -> bool, malicious: string -> bool)
    requires Utf16Length(content) <= MaxLength
    ensures Validate(kind, email, content, pattern, malicious) != TooLong
  {
  }

  /** The JSON body posted to the inquiry endpoint. */
  datatype Payload = Payload(kind: string, email: string, content: string, timestamp: int, version: string)

  /** How one submit ended. */
  datatype Outcome = Ignored | LimitReached | Rejected(verdict: Verdict) | SendFailed | Sent

  /** The inquiry form's state: the stored history, the double-submit guard and the requests posted. */
  class InquiryForm {
    var stored: Stored
    var lastSubmitTime: int
    var posted: seq<Payload>

    constructor (stored: Stored)
      ensures this.stored == stored && lastSubmitTime == 0 && posted == []
    {
      this.stored := stored;
      lastSubmitTime := 0;
      posted := [];
    }

    /** `getInquiryHistory()`: an unparseable item is removed. */
    method GetInquiryHistory() returns (h: seq<int>)
      modifies this
      ensures h == HistoryOf(old(stored))
      ensures stored == (if old(stored).Unparseable? then Absent else old(stored))
      ensures lastSubmitTime == old(lastSubmitTime) && posted == old(posted)
    {
      if stored.Unparseable? {
        stored := Absent;
        return [];
      }
      h := HistoryOf(stored);
    }

    /**
     * `getRecentInquiryCount()`: the stamps of the last hour, written back
     * only when older ones were dropped; either way the stored history reads
     * back as exactly those stamps.
     */
    method RecentInquiryCount(now: int) returns (n: nat)
      modifies this
      ensures n == |Recent(HistoryOf(old(stored)), now)|
      ensures HistoryOf(stored) == Recent(HistoryOf(old(stored)), now)
      ensures n == |HistoryOf(old(stored))| && !old(stored).Unparseable? ==> stored == old(stored)
      ensures lastSubmitTime == old(lastSubmitTime) && posted == old(posted)
    {
      var history := GetInquiryHistory();
      var recent := Filter(history, t => WithinHour(now, t));
      FilterMembers(history, t => WithinHour(now, t));
      if |recent| != |history| {
        assert forall i :: 0 <= i < |recent| ==> recent[i] in history;
        stored := Store(recent);
        StoreRoundTrip(recent);
      } else {
        FilterSameLength(history, t => WithinHour(now, t));
      }
      n := |recent|;
    }

    /**
     * `handleInquirySubmit`: the double-submit guard, the hourly limit, the
     * clean-up and checks of the three fields, the post, and on an `ok`
     * answer the new stamp `savedAt` appended to the history. `now` is the
     * submit time, `postedAt` the payload's timestamp.
     */
    method HandleSubmit(now: int, kindIn: Option<string>, emailIn: Option<string>, contentIn: Option<string>,
                        pattern: string -> bool, malicious: string -> bool,
                        responseOk: bool, postedAt: int, savedAt: int) returns (outcome: Outcome)
      modifies this
      ensures outcome == Ignored <==> now - old(lastSubmitTime) < DoubleSubmitMs
      ensures outcome == Ignored ==> stored == old(stored) && lastSubmitTime == old(lastSubmitTime) && posted == old(posted)
      ensures outcome != Ignored ==> lastSubmitTime == now
      ensures outcome == LimitReached <==>
        outcome != Ignored && |Recent(HistoryOf(old(stored)), now)| >= InquiryLimit
      ensures var kind := SanitizeInput(kindIn);
        var email := SanitizeInput(emailIn);
        var content := SanitizeInput(contentIn);
        var verdict := Validate(kind, email, content, pattern, malicious);
        && (outcome.Rejected? ==> outcome.verdict == verdict && verdict != Accepted)
        && (outcome == Sent || outcome == SendFailed <==>
              outcome != Ignored && outcome != LimitReached && verdict == Accepted)
        && (outcome == Sent || outcome == SendFailed ==>
              posted == old(posted) + [Payload(EscapeHtml(Some(kind), Extended), EscapeHtml(Some(email), Extended),
                                               EscapeHtml(Some(content), Extended), postedAt, ClientVersion)])
      ensures outcome != Sent && outcome != SendFailed ==> posted == old(posted)
      ensures outcome == Sent <==> (outcome == Sent || outcome == SendFailed) && responseOk
      ensures outcome == Sent ==> stored == Store(Recent(HistoryOf(old(stored)), now) + [savedAt])
      ensures outcome != Sent ==> HistoryOf(stored) == (if outcome == Ignored then HistoryOf(old(stored)) else Recent(HistoryOf(old(stored)), now))
    {
      if now - lastSubmitTime < DoubleSubmitMs {
        return Ignored;
      }
      lastSubmitTime := now;
      var used := RecentInquiryCount(now);
      if InquiryLimit - used <= 0 {
        return LimitReached;
      }
      var kind := SanitizeInput(kindIn);
      var email := SanitizeInput(emailIn);
      var content := SanitizeInput(contentIn);
      var verdict := Validate(kind, email, content, pattern, malicious);
      if verdict != Accepted {
        return Rejected(verdict);
      }
      var safeData := Payload(EscapeHtml(Some(kind), Extended), EscapeHtml(Some(email), Extended),
                              EscapeHtml(Some(content), Extended), postedAt, ClientVersion);
      posted := posted + [safeData];
      if !responseOk {
        return SendFailed;
      }
      var history := GetInquiryHistory();
      history := history + [savedAt];
      stored := Store(history);
      outcome := Sent;
    }
  }

  /**
   * The limit holds: when a submit is let through fewer than three stamps
   * fall in the hour before it, so afterwards at most three do.
   */
  lemma {:induction false} ThrottleBound(h: seq<int>, now: int, savedAt: int)
    requires |Recent(h, now)| < InquiryLimit
    ensures |Recent(Recent(h, now) + [savedAt], now)| <= InquiryLimit
  {
    var r := Recent(h, now);
    FilterAppend(r, [savedAt], t => WithinHour(now, t));
    assert |Filter([savedAt], t => WithinHour(now, t))| <= 1;
  }

  // ---------------------------------------------------------- price board

  /** `ALL_SYMBOLS`: the twelve items the progress bar waits for. */
  const AllSymbols: seq<string> :=
    ["BTC", "ETH", "XAU", "XAG", "USD", "EUR", "JPY", "CNY", "RUB", "VND", "GASOLINE", "DIESEL"]

  /** The count, the bar width, whether collection is complete, and which item tags are done. */
  datatype Progress = Progress(done: nat, total: nat, percent: int, complete: bool, tags: seq<bool>)

  function ProgressFrom(done: nat, collected: set<string>): Progress
  {
    Progress(done, |AllSymbols|, Round(done as real / |AllSymbols| as real * 100.0), done >= |AllSymbols|,
             seq(|AllSymbols|, i requires 0 <= i < |AllSymbols| => AllSymbols[i] in collected))
  }

  /** `updateProgress()` as written: the done count is the size of the whole set. */
  function ProgressAsWritten(collected: set<string>): Progress
  {
    ProgressFrom(|collected|, collected)
  }

  /**
   * The economic indicators arrive through the same merge, so with crypto,
   * exchange and economic data in but no metal or oil price yet the bar
   * already says complete while four tags are still pending.
   */
  lemma ProgressCountsOthers()
    ensures var c := {"BTC", "ETH", "USD", "EUR", "JPY", "CNY", "RUB", "VND",
                      "RATE_KR", "RATE_US", "CPI_KR", "CPI_US"};
      ProgressAsWritten(c).complete && !ProgressAsWritten(c).tags[2] && !ProgressAsWritten(c).tags[11]
  {
    var c := {"BTC", "ETH", "USD", "EUR", "JPY", "CNY", "RUB", "VND", "RATE_KR", "RATE_US", "CPI_KR", "CPI_US"};
    var a := {"BTC", "ETH", "USD", "EUR", "JPY", "CNY"};
    var b := {"RUB", "VND", "RATE_KR", "RATE_US", "CPI_KR", "CPI_US"};
    assert |a| == 6;
    assert |b| == 6;
    assert a * b == {};
    assert c == a + b;
  }

  /** How many of the items are in the set. */
  function CountIn(s: seq<string>, collected: set<string>): (n: nat)
    ensures n <= |s|
  {
    if s == [] then 0 else (if s[0] in collected then 1 else 0) + CountIn(s[1..], collected)
  }

  lemma {:induction false} CountInFull(s: seq<string>, collected: set<string>)
    ensures CountIn(s, collected) == |s| <==> forall i :: 0 <= i < |s| ==> s[i] in collected
    decreases |s|
  {
    if s != [] {
      CountInFull(s[1..], collected);
      if s[0] in collected {
        forall i | 0 < i < |s| ensures s[i] in collected <==> s[1..][i - 1] in collected { }
      }
    }
  }

  /** The items as a set, and that no item repeats. */
  function ItemSet(s: seq<string>): set<string>
  {
    if s == [] then {} else {s[0]} + ItemSet(s[1..])
  }

  predicate NoRepeats(s: seq<string>)
  {
    s == [] || (s[0] !in s[1..] && NoRepeats(s[1..]))
  }

  lemma {:induction false} ItemSetMembers(s: seq<string>, x: string)
    ensures x in ItemSet(s) <==> x in s
    decreases |s|
  {
    if s != [] {
      ItemSetMembers(s[1..], x);
      assert s == [s[0]] + s[1..];
    }
  }

  /** For items without repeats the count is the number of collected ones among them. */
  lemma {:induction false} CountInCard(s: seq<string>, collected: set<string>)
    requires NoRepeats(s)
    ensures CountIn(s, collected) == |ItemSet(s) * collected|
    decreases |s|
  {
    if s != [] {
      CountInCard(s[1..], collected);
      var rest := ItemSet(s[1..]) * collected;
      if s[0] in collected {
        assert ItemSet(s) * collected == {s[0]} + rest;
        ItemSetMembers(s[1..], s[0]);
        assert s[0] !in rest;
      } else {
        assert ItemSet(s) * collected == rest;
      }
    }
  }

  lemma {:induction false} DistinctNoRepeats(s: seq<string>)
    requires Distinct(s)
    ensures NoRepeats(s)
    decreases |s|
  {
    if s != [] {
      var tail := s[1..];
      forall i, j | 0 <= i < j < |tail| ensures tail[i] != tail[j] {
        assert tail[i] == s[i + 1] && tail[j] == s[j + 1];
      }
      DistinctNoRepeats(tail);
      forall j | 0 <= j < |tail| ensures tail[j] != s[0] {
        assert tail[j] == s[j + 1];
      }
    }
  }

  /** The twelve items are twelve different symbols. */
  lemma AllSymbolsNoRepeats()
    ensures NoRepeats(AllSymbols)
  {
    assert Distinct(AllSymbols);
    DistinctNoRepeats(AllSymbols);
  }

  /**
   * The bar as written counts every collected symbol, so it is never behind
   * the intended count: it shows the same tags and is complete whenever all
   * twelve items have arrived.
   */
  lemma ProgressAsWrittenSpec(collected: set<string>)
    ensures var p, q := ProgressAsWritten(collected), ProgressOf(collected);
      && p.done == |collected| && p.total == 12
      && p.done >= q.done && p.tags == q.tags
      && (q.complete ==> p.complete)
  {
    AllSymbolsNoRepeats();
    CountInBound(AllSymbols, collected);
  }

  lemma CountInBound(s: seq<string>, collected: set<string>)
    requires NoRepeats(s)
    ensures CountIn(s, collected) <= |collected|
  {
    CountInCard(s, collected);
    var inner := ItemSet(s) * collected;
    assert collected == inner + (collected - inner);
  }

  /** The intended `updateProgress()`: only the twelve items count. */
  function ProgressOf(collected: set<string>): Progress
  {
    ProgressFrom(CountIn(AllSymbols, collected), collected)
  }

  /**
   * The bar is complete and full exactly when every one of the twelve items
   * has arrived, and each tag is done exactly when its item has.
   */
  lemma ProgressOfSpec(collected: set<string>)
    ensures var p := ProgressOf(collected);
      && p.total == 12 && p.done <= 12 && 0 <= p.percent <= 100
      && (p.complete <==> forall i :: 0 <= i < |AllSymbols| ==> AllSymbols[i] in collected)
      && (p.percent == 100 <==> p.complete)
      && |p.tags| == 12 && forall i :: 0 <= i < 12 ==> (p.tags[i] <==> AllSymbols[i] in collected)
  {
    var done := CountIn(AllSymbols, collected);
    CountInFull(AllSymbols, collected);
    var x := done as real / 12.0 * 100.0;
    assert x == done as real * (100.0 / 12.0);
    if done < 12 {
      assert x <= 11.0 * (100.0 / 12.0);
    }
  }

  /** `categoryOrder.indexOf(category)`: -1 for a category not in the list. */
  function CategoryIndex(category: string): (k: int)
    ensures -1 <= k < 6
  {
    if category == "crypto" then 0
    else if category == "gold" then 1
    else if category == "silver" then 2
    else if category == "exchange" then 3
    else if category == "oil" then 4
    else if category == "economic" then 5
    else -1
  }

  predicate CategoryLe(a: Quote, b: Quote) { CategoryIndex(a.category) <= CategoryIndex(b.category) }

  /** The filter of `renderPrices`: a symbol, a category and a price. */
  predicate Shown(q: Quote) { q.symbol != "" && q.category != "" && q.price.Some? }

  /** What `priceGrid` shows: the loading card, or the cards of these quotes in this order. */
  datatype Grid = Loading | Cards(quotes: seq<Quote>)

  /** `renderPrices(prices)`: sorted by category position (stably), then filtered. */
  function RenderPrices(prices: seq<Quote>): Grid
  {
    if prices == [] then Loading
    else
      var valid := Filter(SortBy(prices, CategoryLe), Shown);
      if valid == [] then Loading else Cards(valid)
  }

  lemma CategoryOrder()
    ensures TotalPreorder(CategoryLe)
  {
  }

  lemma SortedMembers(prices: seq<Quote>)
    ensures forall q :: q in SortBy(prices, CategoryLe) <==> q in prices
  {
    var sorted := SortBy(prices, CategoryLe);
    forall q ensures q in sorted <==> q in prices {
      assert q in sorted <==> q in multiset(sorted);
      assert q in prices <==> q in multiset(prices);
    }
  }

  /** The cards are exactly the complete quotes; with none the loading card shows. */
  lemma RenderPricesMembers(prices: seq<Quote>)
    ensures RenderPrices(prices).Loading? <==> forall q :: q in prices ==> !Shown(q)
    ensures RenderPrices(prices).Cards? ==> forall q :: q in RenderPrices(prices).quotes <==> q in prices && Shown(q)
  {
    SortedMembers(prices);
    var valid := Filter(SortBy(prices, CategoryLe), Shown);
    FilterMembers(SortBy(prices, CategoryLe), Shown);
    if valid == [] && prices != [] {
      forall q | q in prices ensures !Shown(q) {
        assert q !in valid;
      }
    } else if valid != [] {
      assert valid[0] in prices && Shown(valid[0]);
    }
  }

  /**
   * The cards follow the category order, and within one category the order
   * in which the quotes came.
   */
  lemma RenderPricesOrder(prices: seq<Quote>, k: Quote)
    requires RenderPrices(prices).Cards?
    ensures SortedBy(RenderPrices(prices).quotes, CategoryLe)
    ensures Filter(RenderPrices(prices).quotes, EquivClass(CategoryLe, k)) == Filter(Filter(prices, Shown), EquivClass(CategoryLe, k))
  {
    CategoryOrder();
    var sorted := SortBy(prices, CategoryLe);
    SortBySorted(prices, CategoryLe);
    FilterSorted(sorted, Shown, CategoryLe);
    var e := EquivClass(CategoryLe, k);
    FilterCommute(sorted, Shown, e);
    SortByStable(prices, CategoryLe, k);
    FilterCommute(prices, e, Shown);
  }

  /** `price.change_rate ?? price.change ?? 0`. */
  function ChangeValue(q: Quote): real
  {
    if q.changeRate.Some? then q.changeRate.value else if q.change.Some? then q.change.value else 0.0
  }

  /** The prefix, fraction digits and suffix `formatPriceDisplay` puts around `formatNumber`. */
  datatype PriceText = PriceText(prefix: string, decimals: nat, suffix: string)

  function PriceDisplay(q: Quote): PriceText
  {
    if q.category == "gold" || q.category == "silver" then PriceText("₩", 0, "/돈")
    else if q.category == "crypto" then PriceText("₩", 0, "")
    else if q.category == "oil" then PriceText("₩", 0, "/L")
    else if q.category == "exchange" then PriceText("₩", 2, "")
    else if q.category == "economic" then PriceText("", 2, "%")
    else if q.unit == "KRW" then PriceText("₩", 0, "")
    else PriceText("", 2, "")
  }

  /** A category outside the six that `formatPriceDisplay` knows. */
  predicate OtherCategory(c: string)
  {
    c != "gold" && c != "silver" && c != "crypto" && c != "oil" && c != "exchange" && c != "economic"
  }

  /**
   * The won sign goes before every price except economic figures and prices
   * of an unknown category not in KRW; metals are per don, oil per litre,
   * economic figures in percent; exchange rates, economic figures and
   * unknown non-KRW prices get two decimals, the rest whole numbers.
   */
  lemma PriceDisplaySpec(q: Quote)
    ensures var p := PriceDisplay(q);
      && (p.prefix == "" <==> q.category == "economic" || (OtherCategory(q.category) && q.unit != "KRW"))
      && (p.prefix != "" ==> p.prefix == "₩")
      && (p.suffix == "/돈" <==> q.category == "gold" || q.category == "silver")
      && (p.suffix == "/L" <==> q.category == "oil")
      && (p.suffix == "%" <==> q.category == "economic")
      && (p.suffix != "/돈" && p.suffix != "/L" && p.suffix != "%" ==> p.suffix == "")
      && (p.decimals == 2 <==>
            q.category == "exchange" || q.category == "economic" || (OtherCategory(q.category) && q.unit != "KRW"))
      && (p.decimals != 2 ==> p.decimals == 0)
  {
  }

  /** One price card. */
  datatype Card = Card(symbol: string, categoryName: string, name: string, display: PriceText,
                       up: bool, change: string)

  function CardOf(q: Quote): Card
  {
    var changeValue := ChangeValue(q);
    Card(q.symbol, CategoryName(q.category), SymbolName(q.symbol), PriceDisplay(q),
         changeValue >= 0.0, Format.FormatChange(Num(changeValue)))
  }

  /**
   * The arrow points up exactly when the shown change is not negative, and
   * so does the sign; the change is the rate when there is one, then the
   * amount, then 0.
   */
  lemma CardChange(q: Quote)
    ensures var c := CardOf(q);
      && (c.up <==> c.change[0] == '+')
      && (q.changeRate.Some? ==> c.change == Format.FormatChange(Num(q.changeRate.value)))
      && (q.changeRate.None? && q.change.None? ==> c.up && c.change == Format.FormatChange(Num(0.0)))
  {
    Format.FormatChangeSign(Num(ChangeValue(q)));
  }

  /**
   * The window's price state: `currentPrices` (symbol to latest quote, in
   * first-arrival order), `collectedSymbols`, and what the progress bar and
   * the grid show.
   */
  class PriceBoard {
    var currentPrices: OM.Entries<string, Quote>
    var collected: set<string>
    var progress: Progress
    var grid: Grid

    ghost predicate Valid()
      reads this
    {
      OM.UniqueKeys(currentPrices)
    }

    constructor ()
      ensures Valid() && currentPrices == [] && collected == {} && grid == Loading
    {
      currentPrices := [];
      collected := {};
      progress := ProgressAsWritten({});
      grid := Loading;
    }

    /**
     * `mergeAndRenderPrices(newPrices)`: every incoming quote replaces the
     * one filed under its symbol and its symbol counts as collected; then
     * the progress and the grid are redrawn from all current quotes.
     */
    method MergeAndRender(newPrices: seq<Quote>)
      requires Valid()
      modifies this
      ensures Valid()
      ensures currentPrices == OM.PutAll(old(currentPrices), newPrices, QuoteSymbol)
      ensures collected == old(collected) + set q | q in newPrices :: q.symbol
      ensures progress == ProgressAsWritten(collected)
      ensures grid == RenderPrices(OM.Values(currentPrices))
    {
      var i := 0;
      while i < |newPrices|
        invariant 0 <= i <= |newPrices|
        invariant currentPrices == OM.PutAll(old(currentPrices), newPrices[..i], QuoteSymbol)
        invariant collected == old(collected) + set q | q in newPrices[..i] :: q.symbol
      {
        var price := newPrices[i];
        assert newPrices[..i + 1][..i] == newPrices[..i];
        currentPrices := OM.Put(currentPrices, price.symbol, price);
        collected := collected + {price.symbol};
        assert newPrices[..i + 1] == newPrices[..i] + [price];
        i := i + 1;
      }
      assert newPrices[..i] == newPrices;
      OM.PutAllUnique(old(currentPrices), newPrices, QuoteSymbol);
      progress := ProgressAsWritten(collected);
      grid := RenderPrices(OM.Values(currentPrices));
    }
  }

  /**
   * After a merge the quote filed under a symbol is the last incoming one
   * with that symbol, and a symbol that did not come in keeps its quote.
   */
  lemma MergeGet(current: OM.Entries<string, Quote>, newPrices: seq<Quote>, symbol: string)
    ensures var merged := OM.PutAll(current, newPrices, QuoteSymbol);
      && ((exists i :: 0 <= i < |newPrices| && newPrices[i].symbol == symbol) ==>
            OM.Get(merged, symbol) == OM.LastKeyed(newPrices, QuoteSymbol, symbol)
            && OM.Get(merged, symbol).Some? && OM.Get(merged, symbol).value in newPrices)
      && ((forall i :: 0 <= i < |newPrices| ==> newPrices[i].symbol != symbol) ==>
            OM.Get(merged, symbol) == OM.Get(current, symbol))
  {
    OM.PutAllGet(current, newPrices, QuoteSymbol, symbol);
  }
}
