/**
 * The collection scheduler of src/services/scheduler.js: running a
 * category's collectors and reporting the result, the catch-up test made at
 * start-up, the registry of periodic tasks, and the manual collection of
 * everything. Collector calls are given by their outcomes in call order,
 * `Date.now()` is the parameter `now` (milliseconds), and what is sent to
 * the windows is returned as a list of broadcasts.
 */
module Scheduler {
  import opened Wrappers
  import JsNumber
  import OM = OrderedMap
  import opened Json
  import opened Records
  import opened Queries
  import opened Store

  /** `LAST_COLLECT_KEYS[category]`. */
  function LastCollectKey(category: string): (k: Option<string>)
    ensures k.Some? <==> category in Categories
  {
    if category == "crypto" then Some("last_collect_crypto")
    else if category == "metals" then Some("last_collect_metals")
    else if category == "exchange" then Some("last_collect_exchange")
    else if category == "oil" then Some("last_collect_oil")
    else if category == "trends" then Some("last_collect_trends")
    else if category == "economic" then Some("last_collect_economic")
    else None
  }

  const Categories: seq<string> := ["crypto", "metals", "exchange", "oil", "trends", "economic"]

  /** Distinct categories have distinct keys. */
  lemma LastCollectKeyInjective(a: string, b: string)
    requires LastCollectKey(a).Some? && LastCollectKey(a) == LastCollectKey(b)
    ensures a == b
  {
  }

  datatype Broadcast =
    | PriceUpdate(data: seq<Item>)
    | CollectStatus(category: string, status: string, count: nat, errors: seq<string>)

  /** One message per collector that returned `success: false` or threw, in order. */
  function ErrorsOf(outs: seq<Outcome>): seq<string>
  {
    if outs == [] then []
    else
      var last := outs[|outs| - 1];
      ErrorsOf(outs[..|outs| - 1])
      + (match last case Ok(_) => [] case Fail(e) => [e] case Threw(m) => [m])
  }

  predicate Failed(o: Outcome) { !o.Ok? }

  /** Exactly one error for each collector that did not succeed. */
  lemma {:induction false} ErrorsOfCount(outs: seq<Outcome>)
    ensures |ErrorsOf(outs)| == |Sorting.Filter(outs, Failed)|
    decreases |outs|
  {
    if outs != [] {
      var init := outs[..|outs| - 1];
      var last := outs[|outs| - 1];
      ErrorsOfCount(init);
      assert outs == init + [last];
      Sorting.FilterAppend(init, [last], Failed);
      assert Sorting.Filter([last], Failed) == (if Failed(last) then [last] else []) by {
        assert [last][1..] == [];
      }
    }
  }

  /** The messages `runCollectors` broadcasts for a run. */
  function StatusMessages(category: string, outs: seq<Outcome>): seq<Broadcast>
  {
    var data := Gathered(outs);
    var errors := ErrorsOf(outs);
    (if |data| > 0 then [PriceUpdate(data)] else [])
    + [CollectStatus(category, if errors == [] then "complete" else "partial", |data|, errors)]
  }

  /** The status is 'complete' exactly when every collector succeeded, and there is always one. */
  lemma StatusSpec(category: string, outs: seq<Outcome>)
    ensures var m := StatusMessages(category, outs);
      m[|m| - 1] == CollectStatus(category, m[|m| - 1].status, |Gathered(outs)|, ErrorsOf(outs))
      && (m[|m| - 1].status == "complete" <==> forall i :: 0 <= i < |outs| ==> outs[i].Ok?)
      && (|m| == 2 <==> |Gathered(outs)| > 0)
  {
    ErrorsOfCount(outs);
    if forall i :: 0 <= i < |outs| ==> outs[i].Ok? {
      Sorting.FilterNone(outs, Failed);
    } else {
      var i :| 0 <= i < |outs| && !outs[i].Ok?;
      Sorting.FilterMembers(outs, Failed);
      assert outs[i] in Sorting.Filter(outs, Failed);
    }
  }

  /**
   * `runCollectors(category, collectors)`: every outcome is taken in order,
   * the data of the successful ones is returned, the category's last
   * collection time is stored (a closed database is ignored), and the run's
   * messages are broadcast.
   */
  method RunCollectors(db: Database, category: string, outs: seq<Outcome>, now: int)
    returns (allData: seq<Item>, sent: seq<Broadcast>)
    requires db.Valid()
    modifies db
    ensures db.Valid()
    ensures allData == Gathered(outs)
    ensures sent == StatusMessages(category, outs)
    ensures db.settings == Stamped(old(db.settings), db.open, category, now)
    ensures db.open == old(db.open) && db.prices == old(db.prices) && db.summaries == old(db.summaries)
    ensures db.trends == old(db.trends) && db.schedules == old(db.schedules) && db.todos == old(db.todos)
    ensures db.lastPriceId == old(db.lastPriceId) && db.lastTrendId == old(db.lastTrendId)
    ensures db.lastScheduleId == old(db.lastScheduleId) && db.lastTodoId == old(db.lastTodoId)
  {
    allData := [];
    var errors: seq<string> := [];
    var i := 0;
    while i < |outs|
      invariant 0 <= i <= |outs|
      invariant allData == Gathered(outs[..i])
      invariant errors == ErrorsOf(outs[..i])
    {
      assert outs[..i + 1][..i] == outs[..i];
      match outs[i] {
        case Ok(d) => allData := allData + d;
        case Fail(e) => errors := errors + [e];
        case Threw(m) => errors := errors + [m];
      }
      i := i + 1;
    }
    assert outs[..i] == outs;
    var key := LastCollectKey(category);
    if key.Some? {
      var _ := db.SetSetting(key.value, JInt(now));
    }
    sent := (if |allData| > 0 then [PriceUpdate(allData)] else [])
      + [CollectStatus(category, if errors == [] then "complete" else "partial", |allData|, errors)];
  }

  /** The settings after `runCollectors` stored the category's collection time. */
  function Stamped(settings: map<string, string>, open: bool, category: string, now: int): map<string, string>
  {
    if open && LastCollectKey(category).Some?
    then Queries.SetSetting(settings, LastCollectKey(category).value, JInt(now))
    else settings
  }

  /** Storing one category's time leaves every other setting as it was. */
  lemma StampOther(settings: map<string, string>, open: bool, category: string, now: int, key: string)
    requires LastCollectKey(category) != Some(key)
    ensures GetSetting(Stamped(settings, open, category, now), key) == GetSetting(settings, key)
  {
    if open && LastCollectKey(category).Some? {
      SettingRoundTrip(settings, LastCollectKey(category).value, JInt(now), key);
    }
  }

  /**
   * What `Date.now() - lastCollect` makes of a stored value: a number, or
   * NaN for text. A text value never arises: the only writes to these keys
   * store the integer `now` (see `Stamped`). JavaScript would coerce such a
   * text with `Number`; the model gives NaN instead.
   */
  function ElapsedSince(now: int, v: Json): JsNumber.JsNum
  {
    match v
    case JNull => JsNumber.Num(now as real)
    case JBool(b) => JsNumber.Num((if b then now - 1 else now) as real)
    case JInt(t) => JsNumber.Num((now - t) as real)
    case JStr(_) => JsNumber.NaN
  }

  /**
   * `shouldCollect(category, intervalMs)` given the settings lookup (`None`
   * when it threw): run when nothing truthy is stored, when the interval has
   * passed, or when the lookup failed.
   */
  function ShouldCollect(lookup: Option<Json>, now: int, interval: int): bool
  {
    match lookup
    case None => true
    case Some(v) =>
      if !Truthy(v) then true
      else
        match ElapsedSince(now, v)
        case NaN => false
        case Num(e) => e >= interval as real
  }

  /** The settings lookup `shouldCollect` makes: it throws while the database is closed. */
  function LookupIn(db: Database, category: string): Option<Json>
    requires LastCollectKey(category).Some?
    reads db
  {
    if db.open then Some(GetSetting(db.settings, LastCollectKey(category).value)) else None
  }

  /**
   * Catch-up: once a category has been collected at a nonzero time `t` with
   * the database open, it is due again exactly when `interval` has passed
   * since `t`; with the database closed it is always due.
   */
  lemma CatchUp(settings: map<string, string>, category: string, t: int, now: int, interval: int)
    requires LastCollectKey(category).Some? && t != 0
    ensures var after := Queries.SetSetting(settings, LastCollectKey(category).value, JInt(t));
      ShouldCollect(Some(GetSetting(after, LastCollectKey(category).value)), now, interval) == (now - t >= interval)
    ensures ShouldCollect(None, now, interval)
  {
    SettingRoundTrip(settings, LastCollectKey(category).value, JInt(t), LastCollectKey(category).value);
  }

  /** A first run always collects: a missing setting reads as null. */
  lemma FirstRunCollects(settings: map<string, string>, category: string, now: int, interval: int)
    requires LastCollectKey(category).Some? && LastCollectKey(category).value !in settings
    ensures ShouldCollect(Some(GetSetting(settings, LastCollectKey(category).value)), now, interval)
  {
  }

  /** The order of `collectOnStartup`: exchange rates come before the metals priced with them. */
  const StartupOrder: seq<string> := ["exchange", "metals", "crypto", "oil", "trends", "economic"]

  /** The catch-up intervals of `collectOnStartup`, in milliseconds, aligned with `StartupOrder`. */
  const StartupIntervals: seq<int> := [30 * 60 * 1000, 30 * 60 * 1000, 10 * 60 * 1000,
                                       6 * 60 * 60 * 1000, 30 * 60 * 1000, 6 * 60 * 60 * 1000]

  /** The categories that are due, in start-up order, given each one's lookup. */
  function Due(lookups: seq<Option<Json>>, now: int): (ds: seq<string>)
    requires |lookups| == |StartupOrder|
  {
    DuePrefix(lookups, now, |StartupOrder|)
  }

  function DuePrefix(lookups: seq<Option<Json>>, now: int, n: nat): (ds: seq<string>)
    requires |lookups| == |StartupOrder| && n <= |StartupOrder|
    ensures |ds| <= n
  {
    if n == 0 then []
    else DuePrefix(lookups, now, n - 1)
         + (if ShouldCollect(lookups[n - 1], now, StartupIntervals[n - 1]) then [StartupOrder[n - 1]] else [])
  }

  /** A category is run exactly when it is among the first `n` and its lookup says it is due. */
  lemma {:induction false} DuePrefixMembers(lookups: seq<Option<Json>>, now: int, n: nat)
    requires |lookups| == |StartupOrder| && n <= |StartupOrder|
    ensures forall c :: c in DuePrefix(lookups, now, n) <==>
      exists i :: 0 <= i < n && StartupOrder[i] == c && ShouldCollect(lookups[i], now, StartupIntervals[i])
  {
    if n > 0 {
      DuePrefixMembers(lookups, now, n - 1);
    }
  }

  /** What the start-up pass broadcasts after the first `n` categories: each due one's run messages, in order. */
  function SentPrefix(lookups: seq<Option<Json>>, results: seq<seq<Outcome>>, now: int, n: nat): seq<Broadcast>
    requires |lookups| == |StartupOrder| && |results| == |StartupOrder| && n <= |StartupOrder|
  {
    if n == 0 then []
    else SentPrefix(lookups, results, now, n - 1)
         + (if ShouldCollect(lookups[n - 1], now, StartupIntervals[n - 1])
            then StatusMessages(StartupOrder[n - 1], results[n - 1]) else [])
  }

  /** The settings after the first `n` categories of the start-up pass: each due one stamped in turn. */
  function StampedPrefix(settings: map<string, string>, open: bool, lookups: seq<Option<Json>>, now: int, n: nat)
    : map<string, string>
    requires |lookups| == |StartupOrder| && n <= |StartupOrder|
  {
    if n == 0 then settings
    else
      var s := StampedPrefix(settings, open, lookups, now, n - 1);
      if ShouldCollect(lookups[n - 1], now, StartupIntervals[n - 1]) then Stamped(s, open, StartupOrder[n - 1], now) else s
  }

  /**
   * After the first `n` categories, a category's last collection time is
   * `now` exactly when the database is open and that category was among them
   * and due; otherwise it is what it was before the pass.
   */
  lemma {:induction false} StampedPrefixSpec(settings: map<string, string>, open: bool, lookups: seq<Option<Json>>,
                                             now: int, n: nat, j: nat)
    requires |lookups| == |StartupOrder| && n <= |StartupOrder| && j < |StartupOrder|
    ensures var key := LastCollectKey(StartupOrder[j]).value;
      GetSetting(StampedPrefix(settings, open, lookups, now, n), key)
      == if open && j < n && ShouldCollect(lookups[j], now, StartupIntervals[j]) then JInt(now) else GetSetting(settings, key)
  {
    if n > 0 {
      StampedPrefixSpec(settings, open, lookups, now, n - 1, j);
      var key := LastCollectKey(StartupOrder[j]).value;
      var c := StartupOrder[n - 1];
      var s := StampedPrefix(settings, open, lookups, now, n - 1);
      if ShouldCollect(lookups[n - 1], now, StartupIntervals[n - 1]) {
        if j == n - 1 {
          if open {
            SettingRoundTrip(s, key, JInt(now), key);
          }
        } else {
          StampOther(s, open, c, now, key);
        }
      }
    }
  }

  function Lookups(db: Database): (ls: seq<Option<Json>>)
    reads db
    ensures |ls| == |StartupOrder| && forall i :: 0 <= i < |StartupOrder| ==> ls[i] == LookupIn(db, StartupOrder[i])
  {
    [LookupIn(db, "exchange"), LookupIn(db, "metals"), LookupIn(db, "crypto"),
     LookupIn(db, "oil"), LookupIn(db, "trends"), LookupIn(db, "economic")]
  }

  /**
   * `collectOnStartup()`: check the six categories in start-up order and run
   * each one that is due, with `results[i]` the outcomes of the collectors of
   * `StartupOrder[i]`. The categories run are those due when the start-up pass
   * began: running one category does not change another's lookup.
   */
  method CollectOnStartup(db: Database, results: seq<seq<Outcome>>, now: int)
    returns (ran: seq<string>, sent: seq<Broadcast>)
    requires db.Valid() && |results| == |StartupOrder|
    modifies db
    ensures db.Valid()
    ensures ran == Due(old(Lookups(db)), now)
    ensures sent == SentPrefix(old(Lookups(db)), results, now, |StartupOrder|)
    ensures db.settings == StampedPrefix(old(db.settings), db.open, old(Lookups(db)), now, |StartupOrder|)
    ensures db.open == old(db.open) && db.prices == old(db.prices) && db.trends == old(db.trends)
    ensures db.summaries == old(db.summaries) && db.schedules == old(db.schedules) && db.todos == old(db.todos)
    ensures db.lastPriceId == old(db.lastPriceId) && db.lastTrendId == old(db.lastTrendId)
    ensures db.lastScheduleId == old(db.lastScheduleId) && db.lastTodoId == old(db.lastTodoId)
  {
    ghost var before := Lookups(db);
    ran := [];
    sent := [];
    var i := 0;
    while i < |StartupOrder|
      invariant 0 <= i <= |StartupOrder|
      invariant db.Valid()
      invariant ran == DuePrefix(before, now, i)
      invariant sent == SentPrefix(before, results, now, i)
      invariant db.settings == StampedPrefix(old(db.settings), db.open, before, now, i)
      invariant db.open == old(db.open) && db.prices == old(db.prices) && db.trends == old(db.trends)
      invariant db.summaries == old(db.summaries) && db.schedules == old(db.schedules) && db.todos == old(db.todos)
      invariant db.lastPriceId == old(db.lastPriceId) && db.lastTrendId == old(db.lastTrendId)
      invariant db.lastScheduleId == old(db.lastScheduleId) && db.lastTodoId == old(db.lastTodoId)
    {
      var c := StartupOrder[i];
      StampedPrefixSpec(old(db.settings), db.open, before, now, i, i);
      assert LookupIn(db, c) == before[i];
      if ShouldCollect(LookupIn(db, c), now, StartupIntervals[i]) {
        var _, s := RunCollectors(db, c, results[i], now);
        sent := sent + s;
        ran := ran + [c];
      }
      i := i + 1;
    }
  }

  /** The categories `collectAllManual` runs, in its order. */
  const ManualOrder: seq<string> := ["crypto", "metals", "exchange", "oil", "economic"]

  /** The settings after `collectAllManual`: each of its categories stamped in turn. */
  function ManualStamped(settings: map<string, string>, open: bool, now: int): map<string, string>
  {
    Stamped(Stamped(Stamped(Stamped(Stamped(settings, open, "crypto", now), open, "metals", now),
      open, "exchange", now), open, "oil", now), open, "economic", now)
  }

  /**
   * After the manual pass each of its five categories has `now` as its last
   * collection time when the database is open, and keeps its stored time when
   * it is closed; the trend category's time is never touched.
   */
  lemma ManualStampedSpec(settings: map<string, string>, open: bool, now: int)
    ensures forall c :: c in ManualOrder ==>
      GetSetting(ManualStamped(settings, open, now), LastCollectKey(c).value)
      == if open then JInt(now) else GetSetting(settings, LastCollectKey(c).value)
    ensures GetSetting(ManualStamped(settings, open, now), "last_collect_trends") == GetSetting(settings, "last_collect_trends")
  {
    var s1 := Stamped(settings, open, "crypto", now);
    var s2 := Stamped(s1, open, "metals", now);
    var s3 := Stamped(s2, open, "exchange", now);
    var s4 := Stamped(s3, open, "oil", now);
    forall c | c in ManualOrder
      ensures GetSetting(ManualStamped(settings, open, now), LastCollectKey(c).value)
              == if open then JInt(now) else GetSetting(settings, LastCollectKey(c).value)
    {
      var key := LastCollectKey(c).value;
      StampAt(settings, open, "crypto", now, key);
      StampAt(s1, open, "metals", now, key);
      StampAt(s2, open, "exchange", now, key);
      StampAt(s3, open, "oil", now, key);
      StampAt(s4, open, "economic", now, key);
    }
    var t := "last_collect_trends";
    StampAt(settings, open, "crypto", now, t);
    StampAt(s1, open, "metals", now, t);
    StampAt(s2, open, "exchange", now, t);
    StampAt(s3, open, "oil", now, t);
    StampAt(s4, open, "economic", now, t);
  }

  /** What one stamp does to any one setting. */
  lemma StampAt(settings: map<string, string>, open: bool, category: string, now: int, key: string)
    requires LastCollectKey(category).Some?
    ensures GetSetting(Stamped(settings, open, category, now), key)
            == if open && LastCollectKey(category) == Some(key) then JInt(now) else GetSetting(settings, key)
  {
    if open {
      SettingRoundTrip(settings, LastCollectKey(category).value, JInt(now), key);
    }
  }

  /**
   * `collectAllManual()`: crypto, metals, exchange, oil and economic (not
   * trends), each through `runCollectors`: the concatenation of their data in
   * that order, their broadcasts one run after another, and their last
   * collection times stamped.
   */
  method CollectAllManual(db: Database, crypto: seq<Outcome>, metals: seq<Outcome>, exchange: seq<Outcome>,
                          oil: seq<Outcome>, economic: seq<Outcome>, now: int)
    returns (allData: seq<Item>, sent: seq<Broadcast>)
    requires db.Valid()
    modifies db
    ensures db.Valid()
    ensures allData == Gathered(crypto + metals + exchange + oil + economic)
    ensures sent == StatusMessages("crypto", crypto) + StatusMessages("metals", metals)
      + StatusMessages("exchange", exchange) + StatusMessages("oil", oil) + StatusMessages("economic", economic)
    ensures db.settings == ManualStamped(old(db.settings), db.open, now)
    ensures db.open == old(db.open) && db.prices == old(db.prices) && db.trends == old(db.trends)
    ensures db.summaries == old(db.summaries) && db.schedules == old(db.schedules) && db.todos == old(db.todos)
    ensures db.lastPriceId == old(db.lastPriceId) && db.lastTrendId == old(db.lastTrendId)
    ensures db.lastScheduleId == old(db.lastScheduleId) && db.lastTodoId == old(db.lastTodoId)
  {
    var d1, m1 := RunCollectors(db, "crypto", crypto, now);
    var d2, m2 := RunCollectors(db, "metals", metals, now);
    var d3, m3 := RunCollectors(db, "exchange", exchange, now);
    var d4, m4 := RunCollectors(db, "oil", oil, now);
    var d5, m5 := RunCollectors(db, "economic", economic, now);
    allData := d1 + d2 + d3 + d4 + d5;
    sent := m1 + m2 + m3 + m4 + m5;
    GatheredAll(crypto, metals, exchange, oil, economic);
  }

  lemma GatheredAll(a: seq<Outcome>, b: seq<Outcome>, c: seq<Outcome>, d: seq<Outcome>, e: seq<Outcome>)
    ensures Gathered(a + b + c + d + e) == Gathered(a) + Gathered(b) + Gathered(c) + Gathered(d) + Gathered(e)
  {
    GatheredAppend(a, b);
    GatheredAppend(a + b, c);
    GatheredAppend(a + b + c, d);
    GatheredAppend(a + b + c + d, e);
  }

  /** The categories of the scheduled jobs, position by position. */
  lemma CategoryAt()
    ensures |Categories| == 6
    ensures Categories[0] == "crypto" && Categories[1] == "metals" && Categories[2] == "exchange"
    ensures Categories[3] == "oil" && Categories[4] == "trends" && Categories[5] == "economic"
  {
  }

  /** Six successive `tasks.set` calls, one per category, leave every other key's entry. */
  lemma SixPutsOthers<V>(m0: OM.Entries<string, V>, m1: OM.Entries<string, V>, m2: OM.Entries<string, V>,
                         m3: OM.Entries<string, V>, m4: OM.Entries<string, V>, m5: OM.Entries<string, V>,
                         m6: OM.Entries<string, V>, t1: V, t2: V, t3: V, t4: V, t5: V, t6: V, k: string)
    requires m1 == OM.Put(m0, "crypto", t1) && m2 == OM.Put(m1, "metals", t2)
    requires m3 == OM.Put(m2, "exchange", t3) && m4 == OM.Put(m3, "oil", t4)
    requires m5 == OM.Put(m4, "trends", t5) && m6 == OM.Put(m5, "economic", t6)
    requires k !in Categories
    ensures OM.Get(m6, k) == OM.Get(m0, k)
  {
    OM.PutGet(m0, "crypto", t1, k);
    OM.PutGet(m1, "metals", t2, k);
    OM.PutGet(m2, "exchange", t3, k);
    OM.PutGet(m3, "oil", t4, k);
    OM.PutGet(m4, "trends", t5, k);
    OM.PutGet(m5, "economic", t6, k);
  }

  /** After the six `tasks.set` calls each category holds its own job. */
  lemma SixPutsOwn<V>(m0: OM.Entries<string, V>, m1: OM.Entries<string, V>, m2: OM.Entries<string, V>,
                      m3: OM.Entries<string, V>, m4: OM.Entries<string, V>, m5: OM.Entries<string, V>,
                      m6: OM.Entries<string, V>, t1: V, t2: V, t3: V, t4: V, t5: V, t6: V)
    requires m1 == OM.Put(m0, "crypto", t1) && m2 == OM.Put(m1, "metals", t2)
    requires m3 == OM.Put(m2, "exchange", t3) && m4 == OM.Put(m3, "oil", t4)
    requires m5 == OM.Put(m4, "trends", t5) && m6 == OM.Put(m5, "economic", t6)
    ensures OM.Get(m6, "crypto") == Some(t1) && OM.Get(m6, "metals") == Some(t2)
    ensures OM.Get(m6, "exchange") == Some(t3) && OM.Get(m6, "oil") == Some(t4)
    ensures OM.Get(m6, "trends") == Some(t5) && OM.Get(m6, "economic") == Some(t6)
  {
    NamesDiffer();
    OM.PutGet(m0, "crypto", t1, "crypto");
    OM.PutGet(m1, "metals", t2, "crypto");
    OM.PutGet(m1, "metals", t2, "metals");
    OM.PutGet(m2, "exchange", t3, "crypto");
    OM.PutGet(m2, "exchange", t3, "metals");
    OM.PutGet(m2, "exchange", t3, "exchange");
    OM.PutGet(m3, "oil", t4, "crypto");
    OM.PutGet(m3, "oil", t4, "metals");
    OM.PutGet(m3, "oil", t4, "exchange");
    OM.PutGet(m3, "oil", t4, "oil");
    OM.PutGet(m4, "trends", t5, "crypto");
    OM.PutGet(m4, "trends", t5, "metals");
    OM.PutGet(m4, "trends", t5, "exchange");
    OM.PutGet(m4, "trends", t5, "oil");
    OM.PutGet(m4, "trends", t5, "trends");
    OM.PutGet(m5, "economic", t6, "crypto");
    OM.PutGet(m5, "economic", t6, "metals");
    OM.PutGet(m5, "economic", t6, "exchange");
    OM.PutGet(m5, "economic", t6, "oil");
    OM.PutGet(m5, "economic", t6, "trends");
    OM.PutGet(m5, "economic", t6, "economic");
  }

  /** The category names of equal length differ. */
  lemma NamesDiffer()
    ensures "crypto" != "metals" && "crypto" != "trends" && "metals" != "trends" && "exchange" != "economic"
  {
    assert "crypto"[0] != "metals"[0] && "crypto"[0] != "trends"[0] && "metals"[0] != "trends"[0];
    assert "exchange"[1] != "economic"[1];
  }

  /** On an empty map the six `tasks.set` calls give the six jobs in call order. */
  lemma SixPutsFirst<V>(m1: OM.Entries<string, V>, m2: OM.Entries<string, V>,
                        m3: OM.Entries<string, V>, m4: OM.Entries<string, V>, m5: OM.Entries<string, V>,
                        m6: OM.Entries<string, V>, t1: V, t2: V, t3: V, t4: V, t5: V, t6: V)
    requires m1 == OM.Put([], "crypto", t1) && m2 == OM.Put(m1, "metals", t2)
    requires m3 == OM.Put(m2, "exchange", t3) && m4 == OM.Put(m3, "oil", t4)
    requires m5 == OM.Put(m4, "trends", t5) && m6 == OM.Put(m5, "economic", t6)
    ensures |m6| == |Categories|
    ensures forall i :: 0 <= i < |m6| ==> m6[i] == (Categories[i], [t1, t2, t3, t4, t5, t6][i])
  {
    assert m1 == [("crypto", t1)];
    OM.PutNew(m1, "metals", t2);
    OM.PutNew(m2, "exchange", t3);
    OM.PutNew(m3, "oil", t4);
    OM.PutNew(m4, "trends", t5);
    OM.PutNew(m5, "economic", t6);
    FirstEntries(m6, [t1, t2, t3, t4, t5, t6]);
  }

  /** Category j's lookup after the six `tasks.set` calls, by index. */
  lemma SixPutsIndexed<V>(m0: OM.Entries<string, V>, m1: OM.Entries<string, V>, m2: OM.Entries<string, V>,
                          m3: OM.Entries<string, V>, m4: OM.Entries<string, V>, m5: OM.Entries<string, V>,
                          m6: OM.Entries<string, V>, t1: V, t2: V, t3: V, t4: V, t5: V, t6: V)
    requires m1 == OM.Put(m0, "crypto", t1) && m2 == OM.Put(m1, "metals", t2)
    requires m3 == OM.Put(m2, "exchange", t3) && m4 == OM.Put(m3, "oil", t4)
    requires m5 == OM.Put(m4, "trends", t5) && m6 == OM.Put(m5, "economic", t6)
    ensures forall j :: 0 <= j < |Categories| ==> OM.Get(m6, Categories[j]) == Some([t1, t2, t3, t4, t5, t6][j])
  {
    SixPutsOwn(m0, m1, m2, m3, m4, m5, m6, t1, t2, t3, t4, t5, t6);
    var ts := [t1, t2, t3, t4, t5, t6];
    assert ts[0] == t1 && ts[1] == t2 && ts[2] == t3 && ts[3] == t4 && ts[4] == t5 && ts[5] == t6;
    OwnIndexed(m6, ts);
  }

  /** The six category lookups, restated by position in `Categories`. */
  lemma OwnIndexed<V>(m: OM.Entries<string, V>, ts: seq<V>)
    requires |ts| == 6
    requires OM.Get(m, "crypto") == Some(ts[0]) && OM.Get(m, "metals") == Some(ts[1])
    requires OM.Get(m, "exchange") == Some(ts[2]) && OM.Get(m, "oil") == Some(ts[3])
    requires OM.Get(m, "trends") == Some(ts[4]) && OM.Get(m, "economic") == Some(ts[5])
    ensures forall j :: 0 <= j < |Categories| ==> OM.Get(m, Categories[j]) == Some(ts[j])
  {
    CategoryAt();
    forall j | 0 <= j < |Categories| ensures OM.Get(m, Categories[j]) == Some(ts[j]) {
      if j == 0 { assert Categories[j] == "crypto"; }
      else if j == 1 { assert Categories[j] == "metals"; }
      else if j == 2 { assert Categories[j] == "exchange"; }
      else if j == 3 { assert Categories[j] == "oil"; }
      else if j == 4 { assert Categories[j] == "trends"; }
      else { assert Categories[j] == "economic"; }
    }
  }

  /** The map of a first start lists category i with job i. */
  lemma FirstEntries<V>(m: OM.Entries<string, V>, ts: seq<V>)
    requires |ts| == |Categories|
    requires m == [("crypto", ts[0]), ("metals", ts[1]), ("exchange", ts[2]), ("oil", ts[3]), ("trends", ts[4]), ("economic", ts[5])]
    ensures |m| == |Categories| && forall i :: 0 <= i < |m| ==> m[i] == (Categories[i], ts[i])
  {
    forall i | 0 <= i < |m| ensures m[i] == (Categories[i], ts[i]) {
      if i == 0 { assert Categories[i] == "crypto"; }
      else if i == 1 { assert Categories[i] == "metals"; }
      else if i == 2 { assert Categories[i] == "exchange"; }
      else if i == 3 { assert Categories[i] == "oil"; }
      else if i == 4 { assert Categories[i] == "trends"; }
      else { assert Categories[i] == "economic"; }
    }
  }

  /** Job j is started under category j. */
  predicate StartedAt(ts: seq<CronTask>, j: int)
    requires 0 <= j < |ts| && j < |Categories|
    reads ts[j]
  {
    ts[j].running && ts[j].category == Categories[j] && ts[j].expression == CronOf(Categories[j])
  }

  /** A periodic job: its cron expression, the category it collects, and whether it is running. */
  class CronTask {
    const expression: string
    const category: string
    var running: bool

    constructor (expression: string, category: string)
      ensures this.expression == expression && this.category == category && running
    {
      this.expression := expression;
      this.category := category;
      running := true;
    }

    method Stop()
      modifies this
      ensures !running
    {
      running := false;
    }
  }

  /** The cron expression of each category's job, evaluated in Korean time. */
  function CronOf(category: string): string
  {
    if category == "crypto" then "0,10,20,30,40,50 * * * *"
    else if category == "oil" || category == "economic" then "0 0,6,12,18 * * *"
    else "0,30 * * * *"
  }

  /** The module's `tasks` map, in insertion order. */
  class TaskRegistry {
    var tasks: OM.Entries<string, CronTask>

    constructor ()
      ensures tasks == []
    {
      tasks := [];
    }

    /** `tasks.set(category, cron.schedule(...))`: a started job, replacing any under that name in place. */
    method Register(c: string) returns (t: CronTask)
      modifies this
      ensures fresh(t) && t.running && t.category == c && t.expression == CronOf(c)
      ensures tasks == OM.Put(old(tasks), c, t)
    {
      t := new CronTask(CronOf(c), c);
      tasks := OM.Put(tasks, c, t);
    }

    /**
     * `startScheduler()`: register a started job for each category, in the
     * order crypto, metals, exchange, oil, trends, economic. Whatever the map
     * held, each category then holds a new running job with its cron
     * expression; jobs under other names are kept; on a first start the map
     * holds exactly the six jobs, in that order.
     */
    method Start()
      modifies this
      ensures forall k :: k !in Categories ==> OM.Get(tasks, k) == OM.Get(old(tasks), k)
      ensures forall j :: 0 <= j < |Categories| ==>
        var t := OM.Get(tasks, Categories[j]);
        t.Some? && fresh(t.value) && t.value.running
        && t.value.category == Categories[j] && t.value.expression == CronOf(Categories[j])
      ensures old(tasks) == [] ==> |tasks| == |Categories| && forall i :: 0 <= i < |tasks| ==>
        var (c, t) := tasks[i];
        c == Categories[i] && fresh(t) && t.running && t.category == c && t.expression == CronOf(c)
    {
      ghost var m0 := tasks;
      var t1 := Register("crypto");
      ghost var m1 := tasks;
      var t2 := Register("metals");
      ghost var m2 := tasks;
      var t3 := Register("exchange");
      ghost var m3 := tasks;
      var t4 := Register("oil");
      ghost var m4 := tasks;
      var t5 := Register("trends");
      ghost var m5 := tasks;
      var t6 := Register("economic");
      ghost var ts := [t1, t2, t3, t4, t5, t6];
      forall k | k !in Categories ensures OM.Get(tasks, k) == OM.Get(m0, k) {
        SixPutsOthers(m0, m1, m2, m3, m4, m5, tasks, t1, t2, t3, t4, t5, t6, k);
      }
      SixPutsIndexed(m0, m1, m2, m3, m4, m5, tasks, t1, t2, t3, t4, t5, t6);
      assert forall j :: 0 <= j < |Categories| ==> fresh(ts[j]) && StartedAt(ts, j) by {
        CategoryAt();
        forall j | 0 <= j < |Categories| ensures fresh(ts[j]) && StartedAt(ts, j) {
          if j == 0 { assert ts[j] == t1; }
          else if j == 1 { assert ts[j] == t2; }
          else if j == 2 { assert ts[j] == t3; }
          else if j == 3 { assert ts[j] == t4; }
          else if j == 4 { assert ts[j] == t5; }
          else { assert ts[j] == t6; }
        }
      }
      if m0 == [] {
        SixPutsFirst(m1, m2, m3, m4, m5, tasks, t1, t2, t3, t4, t5, t6);
      }
    }

    /** `stopScheduler()`: stop every registered job and clear the map. */
    method StopAll()
      modifies this, set i | 0 <= i < |tasks| :: tasks[i].1
      ensures tasks == []
      ensures forall i :: 0 <= i < |old(tasks)| ==> !old(tasks)[i].1.running
    {
      var i := 0;
      while i < |tasks|
        invariant 0 <= i <= |tasks| && tasks == old(tasks)
        invariant forall j :: 0 <= j < i ==> !tasks[j].1.running
        modifies set j | 0 <= j < |tasks| :: tasks[j].1
      {
        tasks[i].1.Stop();
        i := i + 1;
      }
      tasks := [];
    }
  }
}
