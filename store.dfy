/**
 * The application's SQLite database as one object: the handle that
 * `initDatabase` opens and `closeDatabase` drops (src/database/index.js),
 * with the tables as fields, and the mutating queries of
 * src/database/queries.js as methods. Every query first calls
 * `getDatabase()`, which throws 'Database not initialized' while there is no
 * handle; a method here then returns its failure value and changes nothing.
 * Rows get ids from per-table AUTOINCREMENT counters and the insertion time
 * `now` (seconds) as their `collected_at`/`created_at`.
 */
module Store {
  import opened Wrappers
  import opened Sorting
  import OM = OrderedMap
  import opened Json
  import opened Records
  import opened Queries

  predicate TrendIdBefore(a: TrendRow, b: TrendRow) { a.id < b.id }
  predicate ScheduleIdBefore(a: ScheduleRow, b: ScheduleRow) { a.id < b.id }
  predicate TodoIdBefore(a: TodoRow, b: TodoRow) { a.id < b.id }

  /** The trend rows `insertTrends` writes for `items`, numbered after `last`. */
  function TrendRowsOf(items: seq<TrendEntry>, last: nat, now: int): (rs: seq<TrendRow>)
    ensures |rs| == |items|
    ensures forall i :: 0 <= i < |items| ==>
      rs[i] == TrendRow(last + 1 + i, items[i].source, items[i].keyword, items[i].rank, now)
  {
    if items == [] then []
    else TrendRowsOf(items[..|items| - 1], last, now)
         + [TrendRow(last + |items|, items[|items| - 1].source, items[|items| - 1].keyword, items[|items| - 1].rank, now)]
  }

  class Database {
    var open: bool
    var prices: seq<PriceRow>
    var summaries: OM.Entries<(string, string), Summary>
    var trends: seq<TrendRow>
    var settings: map<string, string>
    var schedules: seq<ScheduleRow>
    var todos: seq<TodoRow>
    var lastPriceId: nat
    var lastTrendId: nat
    var lastScheduleId: nat
    var lastTodoId: nat

    /**
     * Ids grow in insertion order and never exceed the table's counter, and
     * the daily summaries are unique per (symbol, date).
     */
    ghost predicate Valid()
      reads this
    {
      SortedBy(prices, PriceIdBefore) && (forall i :: 0 <= i < |prices| ==> prices[i].id <= lastPriceId)
      && SortedBy(trends, TrendIdBefore) && (forall i :: 0 <= i < |trends| ==> trends[i].id <= lastTrendId)
      && SortedBy(schedules, ScheduleIdBefore) && (forall i :: 0 <= i < |schedules| ==> schedules[i].id <= lastScheduleId)
      && SortedBy(todos, TodoIdBefore) && (forall i :: 0 <= i < |todos| ==> todos[i].id <= lastTodoId)
      && OM.UniqueKeys(summaries)
    }

    /** An empty database file, not yet opened. */
    constructor ()
      ensures Valid() && !open
      ensures prices == [] && summaries == [] && trends == [] && settings == map[]
      ensures schedules == [] && todos == []
    {
      open := false;
      prices, summaries, trends, settings, schedules, todos := [], [], [], map[], [], [];
      lastPriceId, lastTrendId, lastScheduleId, lastTodoId := 0, 0, 0, 0;
    }

    /** `initDatabase()`: open the file; `CREATE TABLE IF NOT EXISTS` keeps what is stored. */
    method Init()
      requires Valid()
      modifies this
      ensures Valid() && open
      ensures prices == old(prices) && summaries == old(summaries) && trends == old(trends)
      ensures settings == old(settings) && schedules == old(schedules) && todos == old(todos)
      ensures lastPriceId == old(lastPriceId) && lastTrendId == old(lastTrendId)
      ensures lastScheduleId == old(lastScheduleId) && lastTodoId == old(lastTodoId)
    {
      open := true;
    }

    /** `closeDatabase()`: drop the handle; the stored tables stay. */
    method Close()
      requires Valid()
      modifies this
      ensures Valid() && !open
      ensures prices == old(prices) && summaries == old(summaries) && trends == old(trends)
      ensures settings == old(settings) && schedules == old(schedules) && todos == old(todos)
      ensures lastPriceId == old(lastPriceId) && lastTrendId == old(lastTrendId)
      ensures lastScheduleId == old(lastScheduleId) && lastTodoId == old(lastTodoId)
    {
      open := false;
    }

    /** `insertPrice(data)`: append one row and return its id. */
    method InsertPrice(data: PriceRecord, now: int) returns (id: Option<nat>)
      requires Valid()
      modifies this
      ensures Valid()
      ensures !open ==> id.None? && prices == old(prices) && lastPriceId == old(lastPriceId)
      ensures open ==> id == Some(old(lastPriceId) + 1) && lastPriceId == old(lastPriceId) + 1
                       && prices == old(prices) + [RowOf(id.value, data, now)]
      ensures open == old(open) && summaries == old(summaries) && trends == old(trends)
      ensures settings == old(settings) && schedules == old(schedules) && todos == old(todos)
      ensures lastTrendId == old(lastTrendId) && lastScheduleId == old(lastScheduleId) && lastTodoId == old(lastTodoId)
    {
      if !open {
        return None;
      }
      lastPriceId := lastPriceId + 1;
      prices := prices + [RowOf(lastPriceId, data, now)];
      id := Some(lastPriceId);
    }

    /** `upsertDailySummary(data)`. */
    method UpsertDailySummary(d: SummaryInput) returns (ok: bool)
      requires Valid()
      modifies this
      ensures Valid() && ok == open
      ensures summaries == if open then UpsertSummary(old(summaries), d) else old(summaries)
      ensures open == old(open) && prices == old(prices) && trends == old(trends)
      ensures settings == old(settings) && schedules == old(schedules) && todos == old(todos)
      ensures lastPriceId == old(lastPriceId) && lastTrendId == old(lastTrendId)
      ensures lastScheduleId == old(lastScheduleId) && lastTodoId == old(lastTodoId)
    {
      ok := open;
      if open {
        var key := (d.symbol, d.date);
        match OM.Get(summaries, key) {
          case None =>
            OM.PutUnique(summaries, key, Summary(d.symbol, d.date, d.openPrice, d.highPrice, d.lowPrice, d.closePrice, d.avgPrice, 1));
          case Some(s) =>
            OM.PutUnique(summaries, key, MergeSummary(s, d));
        }
        summaries := UpsertSummary(summaries, d);
      }
    }

    /** `insertTrends(trends)`: one transaction inserting every item in order. */
    method InsertTrends(items: seq<TrendEntry>, now: int) returns (ok: bool)
      requires Valid()
      modifies this
      ensures Valid() && ok == open
      ensures trends == if open then old(trends) + TrendRowsOf(items, old(lastTrendId), now) else old(trends)
      ensures lastTrendId == if open then old(lastTrendId) + |items| else old(lastTrendId)
      ensures open == old(open) && prices == old(prices) && summaries == old(summaries)
      ensures settings == old(settings) && schedules == old(schedules) && todos == old(todos)
      ensures lastPriceId == old(lastPriceId) && lastScheduleId == old(lastScheduleId) && lastTodoId == old(lastTodoId)
    {
      ok := open;
      if !open {
        return;
      }
      var i := 0;
      while i < |items|
        invariant 0 <= i <= |items|
        invariant Valid()
        invariant trends == old(trends) + TrendRowsOf(items[..i], old(lastTrendId), now)
        invariant lastTrendId == old(lastTrendId) + i
        invariant open && prices == old(prices) && summaries == old(summaries)
        invariant settings == old(settings) && schedules == old(schedules) && todos == old(todos)
        invariant lastPriceId == old(lastPriceId) && lastScheduleId == old(lastScheduleId) && lastTodoId == old(lastTodoId)
      {
        var row := TrendRow(lastTrendId + 1, items[i].source, items[i].keyword, items[i].rank, now);
        assert items[..i + 1][..i] == items[..i];
        AppendKeepsOrder(trends, row, lastTrendId);
        trends := trends + [row];
        lastTrendId := lastTrendId + 1;
        i := i + 1;
      }
      assert items[..|items|] == items;
    }

    /** `setSetting(key, value)`. */
    method SetSetting(key: string, value: Json) returns (ok: bool)
      requires Valid()
      modifies this
      ensures Valid() && ok == open
      ensures settings == if open then Queries.SetSetting(old(settings), key, value) else old(settings)
      ensures open == old(open) && prices == old(prices) && summaries == old(summaries) && trends == old(trends)
      ensures schedules == old(schedules) && todos == old(todos)
      ensures lastPriceId == old(lastPriceId) && lastTrendId == old(lastTrendId)
      ensures lastScheduleId == old(lastScheduleId) && lastTodoId == old(lastTodoId)
    {
      ok := open;
      if open {
        settings := Queries.SetSetting(settings, key, value);
      }
    }

    /** `addSchedule(date, text)`: append an entry and return its id. */
    method AddSchedule(date: string, text: string, now: int) returns (id: Option<nat>)
      requires Valid()
      modifies this
      ensures Valid()
      ensures !open ==> id.None? && schedules == old(schedules) && lastScheduleId == old(lastScheduleId)
      ensures open ==> id == Some(old(lastScheduleId) + 1) && lastScheduleId == old(lastScheduleId) + 1
                       && schedules == old(schedules) + [ScheduleRow(id.value, date, text, now)]
      ensures open == old(open) && prices == old(prices) && summaries == old(summaries) && trends == old(trends)
      ensures settings == old(settings) && todos == old(todos)
      ensures lastPriceId == old(lastPriceId) && lastTrendId == old(lastTrendId) && lastTodoId == old(lastTodoId)
    {
      if !open {
        return None;
      }
      lastScheduleId := lastScheduleId + 1;
      schedules := schedules + [ScheduleRow(lastScheduleId, date, text, now)];
      id := Some(lastScheduleId);
    }

    /** `deleteSchedule(id)`. */
    method DeleteSchedule(id: nat) returns (ok: bool)
      requires Valid()
      modifies this
      ensures Valid() && ok == open
      ensures schedules == if open then Queries.DeleteSchedule(old(schedules), id) else old(schedules)
      ensures open == old(open) && prices == old(prices) && summaries == old(summaries) && trends == old(trends)
      ensures settings == old(settings) && todos == old(todos)
      ensures lastPriceId == old(lastPriceId) && lastTrendId == old(lastTrendId)
      ensures lastScheduleId == old(lastScheduleId) && lastTodoId == old(lastTodoId)
    {
      ok := open;
      if open {
        FilterSorted(schedules, (s: ScheduleRow) => ScheduleNot(id, s), ScheduleIdBefore);
        schedules := Queries.DeleteSchedule(schedules, id);
        FilterMembers(old(schedules), (s: ScheduleRow) => ScheduleNot(id, s));
        forall i | 0 <= i < |schedules| ensures schedules[i].id <= lastScheduleId {
          assert schedules[i] in old(schedules);
        }
      }
    }

    /** `addTodo(text)`: append an open todo (`done` 0) and return its id. */
    method AddTodo(text: string, now: int) returns (id: Option<nat>)
      requires Valid()
      modifies this
      ensures Valid()
      ensures !open ==> id.None? && todos == old(todos) && lastTodoId == old(lastTodoId)
      ensures open ==> id == Some(old(lastTodoId) + 1) && lastTodoId == old(lastTodoId) + 1
                       && todos == old(todos) + [TodoRow(id.value, text, 0, now)]
      ensures open == old(open) && prices == old(prices) && summaries == old(summaries) && trends == old(trends)
      ensures settings == old(settings) && schedules == old(schedules)
      ensures lastPriceId == old(lastPriceId) && lastTrendId == old(lastTrendId) && lastScheduleId == old(lastScheduleId)
    {
      if !open {
        return None;
      }
      lastTodoId := lastTodoId + 1;
      todos := todos + [TodoRow(lastTodoId, text, 0, now)];
      id := Some(lastTodoId);
    }

    /** `toggleTodo(id, done)`. */
    method ToggleTodo(id: nat, done: bool) returns (ok: bool)
      requires Valid()
      modifies this
      ensures Valid() && ok == open
      ensures todos == if open then Queries.ToggleTodo(old(todos), id, done) else old(todos)
      ensures open == old(open) && prices == old(prices) && summaries == old(summaries) && trends == old(trends)
      ensures settings == old(settings) && schedules == old(schedules)
      ensures lastPriceId == old(lastPriceId) && lastTrendId == old(lastTrendId)
      ensures lastScheduleId == old(lastScheduleId) && lastTodoId == old(lastTodoId)
    {
      ok := open;
      if open {
        ToggleTodoSpec(todos, id, done);
        todos := Queries.ToggleTodo(todos, id, done);
      }
    }

    /** `deleteTodo(id)`. */
    method DeleteTodo(id: nat) returns (ok: bool)
      requires Valid()
      modifies this
      ensures Valid() && ok == open
      ensures todos == if open then Queries.DeleteTodo(old(todos), id) else old(todos)
      ensures open == old(open) && prices == old(prices) && summaries == old(summaries) && trends == old(trends)
      ensures settings == old(settings) && schedules == old(schedules)
      ensures lastPriceId == old(lastPriceId) && lastTrendId == old(lastTrendId)
      ensures lastScheduleId == old(lastScheduleId) && lastTodoId == old(lastTodoId)
    {
      ok := open;
      if open {
        FilterSorted(todos, (t: TodoRow) => TodoNot(id, t), TodoIdBefore);
        todos := Queries.DeleteTodo(todos, id);
        FilterMembers(old(todos), (t: TodoRow) => TodoNot(id, t));
        forall i | 0 <= i < |todos| ensures todos[i].id <= lastTodoId {
          assert todos[i] in old(todos);
        }
      }
    }
  }

  /** A row numbered after the counter keeps the ids increasing. */
  lemma AppendKeepsOrder(rows: seq<TrendRow>, row: TrendRow, last: nat)
    requires SortedBy(rows, TrendIdBefore) && (forall i :: 0 <= i < |rows| ==> rows[i].id <= last)
    requires row.id == last + 1
    ensures SortedBy(rows + [row], TrendIdBefore)
  {
  }
}
