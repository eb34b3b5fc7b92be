/**
 * The trend collector of src/services/collector/trends.js: keyword lists
 * from the Google Trends RSS feeds of Korea and the US and from the Zum
 * portal, tagged with their source, concatenated and stored in one
 * transaction. Each feed is given by the texts its selectors found: the
 * `title` of every RSS item, the text of every Zum keyword link.
 */
module Trends {
  import opened Text
  import opened JsNumber
  import opened Records
  import opened Queries
  import opened Store
  import opened Collecting

  /** A fetched keyword with the rank its fetcher gave it. */
  datatype Ranked = Ranked(keyword: string, rank: int)

  // ----- fetchGoogleTrends -----

  /** The items of the feed with a non-empty trimmed title, ranked by their position among all items. */
  function GoogleRanked(titles: seq<string>): (rs: seq<Ranked>)
    ensures |rs| <= |titles|
  {
    if titles == [] then []
    else
      var n := |titles| - 1;
      GoogleRanked(titles[..n]) + (if Trim(titles[n]) != [] then [Ranked(Trim(titles[n]), n + 1)] else [])
  }

  /**
   * Each entry is the trimmed title at position rank - 1, ranks strictly
   * increase (so they may skip the empty titles), and every non-empty title
   * has its entry.
   */
  lemma GoogleRankedSpec(titles: seq<string>)
    ensures var rs := GoogleRanked(titles);
      && (forall r :: r in rs ==> EntryOf(titles, r))
      && RanksIncrease(rs)
      && (forall i :: 0 <= i < |titles| && Trim(titles[i]) != [] ==>
            exists k :: 0 <= k < |rs| && rs[k] == Ranked(Trim(titles[i]), i + 1))
  {
    GoogleRankedEntryOf(titles);
    GoogleRankedIncreasing(titles);
    GoogleRankedComplete(titles);
  }

  /** `r` is the trimmed, non-empty title at position `r.rank - 1`. */
  predicate EntryOf(titles: seq<string>, r: Ranked)
  {
    1 <= r.rank <= |titles| && r.keyword == Trim(titles[r.rank - 1]) && r.keyword != []
  }

  lemma {:induction false} GoogleRankedEntryOf(titles: seq<string>)
    ensures forall r :: r in GoogleRanked(titles) ==> EntryOf(titles, r)
  {
    if titles != [] {
      var n := |titles| - 1;
      var init := titles[..n];
      GoogleRankedEntryOf(init);
      var prev := GoogleRanked(init);
      var last := if Trim(titles[n]) != [] then [Ranked(Trim(titles[n]), n + 1)] else [];
      assert GoogleRanked(titles) == prev + last;
      forall r | r in prev ensures EntryOf(titles, r) {
        assert EntryOf(init, r);
        assert init[r.rank - 1] == titles[r.rank - 1];
      }
    }
  }

  predicate RanksIncrease(rs: seq<Ranked>)
  {
    forall k, l :: 0 <= k < l < |rs| ==> rs[k].rank < rs[l].rank
  }

  lemma RanksIncreaseSnoc(rs: seq<Ranked>, x: Ranked)
    requires RanksIncrease(rs) && forall r :: r in rs ==> r.rank < x.rank
    ensures RanksIncrease(rs + [x])
  {
    var ys := rs + [x];
    forall k, l | 0 <= k < l < |ys| ensures ys[k].rank < ys[l].rank {
      assert ys[k] == rs[k];
      if l < |rs| { assert ys[l] == rs[l]; } else { assert rs[k] in rs; }
    }
  }

  lemma {:induction false} GoogleRankedIncreasing(titles: seq<string>)
    ensures RanksIncrease(GoogleRanked(titles))
  {
    if titles != [] {
      var n := |titles| - 1;
      var init := titles[..n];
      GoogleRankedIncreasing(init);
      var prev := GoogleRanked(init);
      var t := Trim(titles[n]);
      if t != [] {
        GoogleRankedEntryOf(init);
        RanksIncreaseSnoc(prev, Ranked(t, n + 1));
      }
    }
  }

  lemma {:induction false} GoogleRankedComplete(titles: seq<string>)
    ensures var rs := GoogleRanked(titles);
      forall i :: 0 <= i < |titles| && Trim(titles[i]) != [] ==>
        exists k :: 0 <= k < |rs| && rs[k] == Ranked(Trim(titles[i]), i + 1)
  {
    if titles != [] {
      var n := |titles| - 1;
      var init := titles[..n];
      GoogleRankedComplete(init);
      var prev := GoogleRanked(init);
      var last := if Trim(titles[n]) != [] then [Ranked(Trim(titles[n]), n + 1)] else [];
      var rs := prev + last;
      assert GoogleRanked(titles) == rs;
      forall i | 0 <= i < |titles| && Trim(titles[i]) != []
        ensures exists k :: 0 <= k < |rs| && rs[k] == Ranked(Trim(titles[i]), i + 1)
      {
        if i == n {
          assert rs[|prev|] == Ranked(Trim(titles[i]), i + 1);
        } else {
          assert init[i] == titles[i];
          var k :| 0 <= k < |prev| && prev[k] == Ranked(Trim(init[i]), i + 1);
          assert rs[k] == prev[k];
        }
      }
    }
  }

  /** `fetchGoogleTrends(geo, source)`: the `items.each` loop; a failed request gives `[]`. */
  method FetchGoogleTrends(feed: Fetch<seq<string>>) returns (trends: seq<Ranked>)
    ensures trends == GoogleOf(feed)
  {
    if feed.FetchFailed? {
      return [];
    }
    var items := feed.value;
    trends := [];
    var i := 0;
    while i < |items|
      invariant 0 <= i <= |items|
      invariant trends == GoogleRanked(items[..i])
    {
      assert items[..i + 1][..i] == items[..i];
      var title := Trim(items[i]);
      if title != [] {
        trends := trends + [Ranked(title, i + 1)];
      }
      i := i + 1;
    }
    assert items[..i] == items;
  }

  // ----- fetchZumTrends -----

  // The first replace of a Zum link text: a leading digit run and the white space after it.
  function StripRank(s: string): (r: string)
    ensures |r| <= |s|
  {
    var k := DigitRun(s);
    if k == 0 then s else TrimStart(s[k..])
  }

  /** Length of the run of digits at the end of `s`. */
  function DigitSuffix(s: string): (d: nat)
    ensures d <= |s|
  {
    if s != [] && IsDigit(s[|s| - 1]) then DigitSuffix(s[..|s| - 1]) + 1 else 0
  }

  /** The run is all digits and cannot be extended. */
  lemma {:induction false} DigitSuffixSpec(s: string)
    ensures var d := DigitSuffix(s);
      AllDigits(s[|s| - d..]) && (d == |s| || !IsDigit(s[|s| - d - 1]))
  {
    if s != [] && IsDigit(s[|s| - 1]) {
      DigitSuffixSpec(s[..|s| - 1]);
      var d := DigitSuffix(s);
      assert s[|s| - d..] == s[..|s| - 1][|s| - d..] + [s[|s| - 1]];
    }
  }

  /**
   * The second replace: trailing digits preceded by white space go,
   * together with all of that white space.
   */
  function StripChange(s: string): (r: string)
    ensures |r| <= |s|
  {
    var d := DigitSuffix(s);
    var t := s[..|s| - d];
    if d > 0 && t != [] && IsJsSpace(t[|t| - 1]) then TrimEnd(t) else s
  }

  /** The keyword a Zum link text yields. */
  function ZumKeyword(text: string): string
  {
    Trim(StripChange(StripRank(Trim(text))))
  }

  lemma TrimKeeps(s: string)
    requires s != [] && !IsJsSpace(s[0]) && !IsJsSpace(s[|s| - 1])
    ensures Trim(s) == s
  {
  }

  lemma DigitSuffixDigits(a: string, ds: string)
    requires a != [] && !IsDigit(a[|a| - 1]) && AllDigits(ds)
    ensures DigitSuffix(a + ds) == |ds|
    decreases |ds|
  {
    if ds != [] {
      assert (a + ds)[..|a + ds| - 1] == a + ds[..|ds| - 1];
      DigitSuffixDigits(a, ds[..|ds| - 1]);
    } else {
      assert a + ds == a;
    }
  }

  /** A leading rank and the single space after it are stripped. */
  lemma StripRankOf(r: string, tail: string)
    requires r != [] && AllDigits(r) && tail != [] && !IsJsSpace(tail[0])
    ensures StripRank(r + " " + tail) == tail
  {
    var text := r + " " + tail;
    DigitRunPrefix(r, " " + tail);
    assert text == r + (" " + tail);
    assert text[|r|..] == " " + tail;
    assert (" " + tail)[1..] == tail;
    assert TrimStart(tail) == tail;
    assert TrimStart(" " + tail) == tail;
  }

  /** A trailing rank change and the single space before it are stripped. */
  lemma StripChangeOf(kw: string, c: string)
    requires kw != [] && !IsJsSpace(kw[|kw| - 1]) && c != [] && AllDigits(c)
    ensures StripChange(kw + " " + c) == kw
  {
    var s := kw + " " + c;
    DigitSuffixDigits(kw + " ", c);
    assert s[..|s| - |c|] == kw + " ";
    assert (kw + " ")[..|kw + " "| - 1] == kw;
    assert TrimEnd(kw) == kw;
    assert TrimEnd(kw + " ") == kw;
  }

  /**
   * A link text made of a rank, a space, the keyword, a space and a rank
   * change yields exactly the keyword.
   */
  lemma ZumKeywordDecorated(rank: nat, keyword: string, change: nat)
    requires keyword != [] && !IsJsSpace(keyword[0]) && !IsJsSpace(keyword[|keyword| - 1])
    ensures ZumKeyword(NatToString(rank) + " " + keyword + " " + NatToString(change)) == keyword
  {
    ZumKeywordBetweenDigits(NatToString(rank), keyword, NatToString(change));
  }

  lemma ZumKeywordBetweenDigits(r: string, keyword: string, c: string)
    requires r != [] && AllDigits(r) && c != [] && AllDigits(c)
    requires keyword != [] && !IsJsSpace(keyword[0]) && !IsJsSpace(keyword[|keyword| - 1])
    ensures ZumKeyword(r + " " + keyword + " " + c) == keyword
  {
    var text := r + " " + keyword + " " + c;
    assert text[0] == r[0] && text[|text| - 1] == c[|c| - 1];
    TrimKeeps(text);
    var tail := keyword + " " + c;
    assert text == r + " " + tail;
    StripRankOf(r, tail);
    assert StripRank(Trim(text)) == tail;
    StripChangeOf(keyword, c);
    assert StripChange(tail) == keyword;
    TrimKeeps(keyword);
  }

  /** The keyword of every link text, in order. */
  function ZumKeywords(texts: seq<string>): (kws: seq<string>)
    ensures |kws| == |texts|
    ensures forall i :: 0 <= i < |texts| ==> kws[i] == ZumKeyword(texts[i])
  {
    if texts == [] then [] else ZumKeywords(texts[..|texts| - 1]) + [ZumKeyword(texts[|texts| - 1])]
  }

  /**
   * The entries the `.each` loop pushes for the keywords `kws`: an
   * acceptable keyword not yet in the list is appended with the next rank.
   */
  function Keep(kws: seq<string>): seq<Ranked>
  {
    if kws == [] then []
    else
      var prev := Keep(kws[..|kws| - 1]);
      var kw := kws[|kws| - 1];
      if Acceptable(kw) && !HasKeyword(prev, kw) then prev + [Ranked(kw, |prev| + 1)] else prev
  }

  /** The Zum entries kept from the link texts before the top-10 cut. */
  function ZumKept(texts: seq<string>): seq<Ranked>
  {
    Keep(ZumKeywords(texts))
  }

  lemma ZumKeywordsStep(texts: seq<string>, i: nat)
    requires i < |texts|
    ensures ZumKeywords(texts[..i + 1]) == ZumKeywords(texts[..i]) + [ZumKeyword(texts[i])]
  {
    assert texts[..i + 1][..i] == texts[..i];
  }

  /** `keyword && keyword.length > 1 && keyword.length < 30`, lengths in UTF-16 units. */
  predicate Acceptable(kw: string)
  {
    kw != [] && 1 < Utf16Length(kw) < 30
  }

  /** `trends.find(t => t.keyword === keyword)` as a test. */
  predicate HasKeyword(rs: seq<Ranked>, kw: string)
  {
    exists k :: 0 <= k < |rs| && rs[k].keyword == kw
  }

  /** Entry `k` has rank `k + 1` and an acceptable keyword. */
  predicate RankedInOrder(rs: seq<Ranked>)
  {
    forall k :: 0 <= k < |rs| ==> rs[k].rank == k + 1 && Acceptable(rs[k].keyword)
  }

  predicate DistinctKeywords(rs: seq<Ranked>)
  {
    forall k, l :: 0 <= k < l < |rs| ==> rs[k].keyword != rs[l].keyword
  }

  lemma {:induction false} KeepRanked(kws: seq<string>)
    ensures RankedInOrder(Keep(kws)) && DistinctKeywords(Keep(kws))
  {
    if kws != [] {
      var prev := Keep(kws[..|kws| - 1]);
      var kw := kws[|kws| - 1];
      KeepRanked(kws[..|kws| - 1]);
      if Acceptable(kw) && !HasKeyword(prev, kw) {
        var rs := prev + [Ranked(kw, |prev| + 1)];
        forall k, l | 0 <= k < l < |rs| ensures rs[k].keyword != rs[l].keyword {
          assert rs[k] == prev[k];
          if l < |prev| { assert rs[l] == prev[l]; }
        }
        forall k | 0 <= k < |rs| ensures rs[k].rank == k + 1 && Acceptable(rs[k].keyword) {
          if k < |prev| { assert rs[k] == prev[k]; }
        }
      }
    }
  }

  /** Every kept keyword is one of `kws`. */
  lemma {:induction false} KeepFrom(kws: seq<string>)
    ensures forall r :: r in Keep(kws) ==> r.keyword in kws
  {
    if kws != [] {
      var init := kws[..|kws| - 1];
      KeepFrom(init);
      forall r | r in Keep(init) ensures r.keyword in kws {
        assert r.keyword in init;
      }
    }
  }

  /** Every acceptable keyword of `kws` is kept. */
  lemma {:induction false} KeepComplete(kws: seq<string>)
    ensures forall kw :: kw in kws && Acceptable(kw) ==> HasKeyword(Keep(kws), kw)
  {
    if kws != [] {
      var init := kws[..|kws| - 1];
      var prev := Keep(init);
      var last := kws[|kws| - 1];
      KeepComplete(init);
      var rs := Keep(kws);
      assert forall k :: 0 <= k < |prev| ==> rs[k] == prev[k];
      forall kw | kw in kws && Acceptable(kw) ensures HasKeyword(rs, kw) {
        if kw in init {
          var k :| 0 <= k < |prev| && prev[k].keyword == kw;
          assert rs[k].keyword == kw;
        } else if !HasKeyword(prev, kw) {
          assert kw == last;
          assert rs[|prev|].keyword == kw;
        } else {
          var k :| 0 <= k < |prev| && prev[k].keyword == kw;
          assert rs[k].keyword == kw;
        }
      }
    }
  }

  /**
   * The kept list has ranks 1..n in order, distinct keywords, each between 2
   * and 29 UTF-16 units long and the keyword of some link; and every link
   * whose keyword is acceptable has that keyword in the list.
   */
  lemma ZumKeptSpec(texts: seq<string>)
    ensures var rs := ZumKept(texts);
      && RankedInOrder(rs)
      && DistinctKeywords(rs)
      && (forall r :: r in rs ==> exists i :: 0 <= i < |texts| && ZumKeyword(texts[i]) == r.keyword)
      && (forall i :: 0 <= i < |texts| && Acceptable(ZumKeyword(texts[i])) ==> HasKeyword(rs, ZumKeyword(texts[i])))
  {
    var kws := ZumKeywords(texts);
    KeepRanked(kws);
    KeepFrom(kws);
    KeepComplete(kws);
    forall r | r in ZumKept(texts) ensures exists i :: 0 <= i < |texts| && ZumKeyword(texts[i]) == r.keyword {
      var i :| 0 <= i < |kws| && kws[i] == r.keyword;
    }
    forall i | 0 <= i < |texts| && Acceptable(ZumKeyword(texts[i])) ensures HasKeyword(ZumKept(texts), ZumKeyword(texts[i])) {
      assert kws[i] in kws;
    }
  }

  /** `fetchZumTrends()`: the `.each` loop over the links, then the top 10; a failed request gives `[]`. */
  method FetchZumTrends(page: Fetch<seq<string>>) returns (trends: seq<Ranked>)
    ensures trends == ZumTop(page)
    ensures |trends| <= 10
  {
    if page.FetchFailed? {
      return [];
    }
    var links := page.value;
    var kept: seq<Ranked> := [];
    var i := 0;
    while i < |links|
      invariant 0 <= i <= |links|
      invariant kept == ZumKept(links[..i])
    {
      ZumKeywordsStep(links, i);
      var keyword := ZumKeyword(links[i]);
      ghost var kws := ZumKeywords(links[..i]);
      assert (kws + [keyword])[..|kws|] == kws;
      if Acceptable(keyword) && !HasKeyword(kept, keyword) {
        kept := kept + [Ranked(keyword, |kept| + 1)];
      }
      i := i + 1;
    }
    assert links[..i] == links;
    trends := kept[..if |kept| < 10 then |kept| else 10];
  }

  // ----- collectTrends -----

  /** The fetched entries tagged with their source, as `collectTrends` pushes them. */
  function Tagged(source: string, rs: seq<Ranked>): (ts: seq<TrendEntry>)
    ensures |ts| == |rs|
    ensures forall k :: 0 <= k < |rs| ==> ts[k] == TrendEntry(source, rs[k].keyword, rs[k].rank)
  {
    if rs == [] then [] else Tagged(source, rs[..|rs| - 1]) + [TrendEntry(source, rs[|rs| - 1].keyword, rs[|rs| - 1].rank)]
  }

  /** One `for (const trend of ...) allTrends.push(...)` loop. */
  method PushTagged(all: seq<TrendEntry>, source: string, rs: seq<Ranked>) returns (out: seq<TrendEntry>)
    ensures out == all + Tagged(source, rs)
  {
    out := all;
    var i := 0;
    while i < |rs|
      invariant 0 <= i <= |rs|
      invariant out == all + Tagged(source, rs[..i])
    {
      assert rs[..i + 1][..i] == rs[..i];
      out := out + [TrendEntry(source, rs[i].keyword, rs[i].rank)];
      i := i + 1;
    }
    assert rs[..i] == rs;
  }

  /** The combined list: Korea's Google trends, then the US's, then Zum's. */
  function AllTrends(kr: seq<Ranked>, us: seq<Ranked>, zum: seq<Ranked>): seq<TrendEntry>
  {
    Tagged("google_kr", kr) + Tagged("google_us", us) + Tagged("zum", zum)
  }

  /** Only the trend table and its counter may differ between the two states. */
  twostate predicate OnlyTrendsChanged(db: Database)
    reads db
  {
    db.open == old(db.open) && db.prices == old(db.prices) && db.summaries == old(db.summaries)
    && db.settings == old(db.settings) && db.schedules == old(db.schedules) && db.todos == old(db.todos)
    && db.lastPriceId == old(db.lastPriceId) && db.lastScheduleId == old(db.lastScheduleId)
    && db.lastTodoId == old(db.lastTodoId)
  }

  /** What `fetchGoogleTrends` returns for a feed. */
  function GoogleOf(feed: Fetch<seq<string>>): seq<Ranked>
  {
    if feed.Fetched? then GoogleRanked(feed.value) else []
  }

  /** What `fetchZumTrends` returns for a page: at most the first ten kept entries. */
  function ZumTop(page: Fetch<seq<string>>): seq<Ranked>
  {
    var kept := if page.Fetched? then ZumKept(page.value) else [];
    kept[..if |kept| < 10 then |kept| else 10]
  }

  /** The `allTrends` list `collectTrends` builds before storing it. */
  method GatherTrends(kr: Fetch<seq<string>>, us: Fetch<seq<string>>, zum: Fetch<seq<string>>)
    returns (allTrends: seq<TrendEntry>)
    ensures allTrends == AllTrends(GoogleOf(kr), GoogleOf(us), ZumTop(zum))
  {
    var googleKr := FetchGoogleTrends(kr);
    allTrends := PushTagged([], "google_kr", googleKr);
    assert [] + Tagged("google_kr", googleKr) == Tagged("google_kr", googleKr);
    var googleUs := FetchGoogleTrends(us);
    allTrends := PushTagged(allTrends, "google_us", googleUs);
    var zumTrends := FetchZumTrends(zum);
    allTrends := PushTagged(allTrends, "zum", zumTrends);
    assert googleKr == GoogleOf(kr) && googleUs == GoogleOf(us) && zumTrends == ZumTop(zum);
  }

  /**
   * `collectTrends()`: the three sources in order; the list is stored only
   * when it is not empty, and returned, so an empty list is still a success.
   * With the database closed a non-empty list fails with the store's error.
   */
  method CollectTrends(db: Database, kr: Fetch<seq<string>>, us: Fetch<seq<string>>, zum: Fetch<seq<string>>, now: int)
    returns (out: Outcome)
    requires db.Valid()
    modifies db
    ensures db.Valid() && OnlyTrendsChanged(db)
    ensures var all := AllTrends(GoogleOf(kr), GoogleOf(us), ZumTop(zum));
      && out == (if db.open || all == [] then Ok(TrendItems(all)) else Fail(NotInitialized))
      && db.trends == (if db.open then old(db.trends) + TrendRowsOf(all, old(db.lastTrendId), now) else old(db.trends))
  {
    var allTrends := GatherTrends(kr, us, zum);
    if |allTrends| > 0 {
      var ok := db.InsertTrends(allTrends, now);
      if !ok {
        return Fail(NotInitialized);
      }
    }
    out := Ok(TrendItems(allTrends));
  }
}
