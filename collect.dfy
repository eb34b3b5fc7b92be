/**
 * What the price collectors share: a network fetch given by its result, and
 * the `insertPrice(record); data.push(record)` sequence inside the
 * collector's `try`. While the database is closed `insertPrice` throws
 * 'Database not initialized', so the collector returns `success: false` with
 * that message, having stored nothing.
 */
module Collecting {
  import opened Wrappers
  import JsNumber
  import opened Records
  import opened Queries
  import opened Store

  /** An awaited network request: its parsed response, or the message of the error it threw. */
  datatype Fetch<T> = Fetched(value: T) | FetchFailed(message: string)

  /** A parsed change that feeds a record: NaN and 0 are both stored as NULL, so NaN is kept as 0 here. */
  function ChangeValue(c: JsNumber.JsNum): (r: real)
    ensures c.Num? ==> r == c.value
    ensures c.NaN? ==> r == 0.0
  {
    if c.Num? then c.value else 0.0
  }

  /** The price rows `insertPrice` writes for `records`, numbered after `last`. */
  function PriceRowsOf(records: seq<PriceRecord>, last: nat, now: int): (rs: seq<PriceRow>)
    ensures |rs| == |records|
  {
    if records == [] then []
    else PriceRowsOf(records[..|records| - 1], last, now) + [RowOf(last + |records|, records[|records| - 1], now)]
  }

  /** Row `i` holds record `i` under the id `last + 1 + i`. */
  lemma {:induction false} PriceRowsOfSpec(records: seq<PriceRecord>, last: nat, now: int)
    ensures forall i :: 0 <= i < |records| ==> PriceRowsOf(records, last, now)[i] == RowOf(last + 1 + i, records[i], now)
  {
    if records != [] {
      var init := records[..|records| - 1];
      PriceRowsOfSpec(init, last, now);
      assert forall i :: 0 <= i < |init| ==> init[i] == records[i];
    }
  }

  lemma PriceRowsStep(records: seq<PriceRecord>, i: nat, last: nat, now: int)
    requires i < |records|
    ensures PriceRowsOf(records[..i + 1], last, now) == PriceRowsOf(records[..i], last, now) + [RowOf(last + 1 + i, records[i], now)]
  {
    assert records[..i + 1][..i] == records[..i];
  }

  lemma PriceRowsSnoc(records: seq<PriceRecord>, r: PriceRecord, last: nat, now: int)
    ensures PriceRowsOf(records + [r], last, now) == PriceRowsOf(records, last, now) + [RowOf(last + |records| + 1, r, now)]
  {
    assert (records + [r])[..|records|] == records;
  }

  /** The present values of `xs`, in order: what a loop pushes when it skips nulls. */
  function Somes<T>(xs: seq<Option<T>>): (ys: seq<T>)
    ensures |ys| <= |xs|
  {
    if xs == [] then [] else Somes(xs[..|xs| - 1]) + (if xs[|xs| - 1].Some? then [xs[|xs| - 1].value] else [])
  }

  lemma SomesStep<T>(xs: seq<Option<T>>, i: nat)
    requires i < |xs|
    ensures Somes(xs[..i + 1]) == Somes(xs[..i]) + (if xs[i].Some? then [xs[i].value] else [])
  {
    assert xs[..i + 1][..i] == xs[..i];
  }

  /** Every present value is kept, in order, and nothing else. */
  lemma {:induction false} SomesSpec<T>(xs: seq<Option<T>>)
    ensures forall y :: y in Somes(xs) <==> Some(y) in xs
    ensures Somes(xs) == [] <==> forall i :: 0 <= i < |xs| ==> xs[i].None?
  {
    if xs != [] {
      var init := xs[..|xs| - 1];
      SomesSpec(init);
      assert xs == init + [xs[|xs| - 1]];
      forall i | 0 <= i < |init| ensures init[i] == xs[i] { }
    }
  }

  /** A present value in a prefix keeps the whole list non-empty. */
  lemma SomesPrefix<T>(xs: seq<Option<T>>, n: nat)
    requires n <= |xs| && Somes(xs[..n]) != []
    ensures Somes(xs) != []
  {
    SomesSpec(xs[..n]);
    SomesSpec(xs);
    var k :| 0 <= k < n && xs[..n][k].Some?;
    assert xs[k].Some?;
  }

  /** The last present value of `xs`: what a loop keeps when each match overwrites the previous one. */
  function LastSome<T>(xs: seq<Option<T>>): Option<T>
  {
    if xs == [] then None else if xs[|xs| - 1].Some? then xs[|xs| - 1] else LastSome(xs[..|xs| - 1])
  }

  lemma LastSomeStep<T>(xs: seq<Option<T>>, i: nat)
    requires i < |xs|
    ensures LastSome(xs[..i + 1]) == if xs[i].Some? then xs[i] else LastSome(xs[..i])
  {
    assert xs[..i + 1][..i] == xs[..i];
  }

  /** The last present value wins: nothing after it is present, and it is `None` only when none is. */
  lemma {:induction false} LastSomeSpec<T>(xs: seq<Option<T>>)
    ensures LastSome(xs).None? <==> forall i :: 0 <= i < |xs| ==> xs[i].None?
    ensures LastSome(xs).Some? ==>
      exists i :: (0 <= i < |xs| && xs[i] == LastSome(xs) && forall j :: i < j < |xs| ==> xs[j].None?)
  {
    if xs != [] {
      var n := |xs| - 1;
      var init := xs[..n];
      if xs[n].Some? {
        assert LastSome(xs) == xs[n];
      } else {
        assert LastSome(xs) == LastSome(init);
        LastSomeSpec(init);
        assert forall i :: 0 <= i < |init| ==> init[i] == xs[i];
        if LastSome(init).Some? {
          var i :| 0 <= i < |init| && init[i] == LastSome(init) && forall j :: i < j < |init| ==> init[j].None?;
          assert xs[i] == LastSome(xs) && forall j :: i < j < |xs| ==> xs[j].None?;
        }
      }
    }
  }

  /**
   * The result of inserting `records` one by one: all of them returned, or,
   * with the database closed, the error of the first insert.
   */
  function Saved(open: bool, records: seq<PriceRecord>): Outcome
  {
    if open || records == [] then Ok(PriceItems(records)) else Fail(NotInitialized)
  }

  /** Only the price table and its counter may differ between the two states. */
  twostate predicate OnlyPricesChanged(db: Database)
    reads db
  {
    db.open == old(db.open) && db.summaries == old(db.summaries) && db.trends == old(db.trends)
    && db.settings == old(db.settings) && db.schedules == old(db.schedules) && db.todos == old(db.todos)
    && db.lastTrendId == old(db.lastTrendId) && db.lastScheduleId == old(db.lastScheduleId)
    && db.lastTodoId == old(db.lastTodoId)
  }

  /**
   * Insert each record in order; the returned data are the records, since
   * each is pushed right after its own insert succeeds.
   */
  method InsertEach(db: Database, records: seq<PriceRecord>, now: int) returns (out: Outcome)
    requires db.Valid()
    modifies db
    ensures db.Valid() && OnlyPricesChanged(db)
    ensures out == Saved(db.open, records)
    ensures db.prices == if db.open then old(db.prices) + PriceRowsOf(records, old(db.lastPriceId), now) else old(db.prices)
    ensures db.lastPriceId == if db.open then old(db.lastPriceId) + |records| else old(db.lastPriceId)
  {
    var i := 0;
    while i < |records|
      invariant 0 <= i <= |records| && db.Valid() && OnlyPricesChanged(db)
      invariant db.open ==> db.prices == old(db.prices) + PriceRowsOf(records[..i], old(db.lastPriceId), now)
      invariant db.open ==> db.lastPriceId == old(db.lastPriceId) + i
      invariant !db.open ==> i == 0 && db.prices == old(db.prices) && db.lastPriceId == old(db.lastPriceId)
    {
      var id := db.InsertPrice(records[i], now);
      if id.None? {
        return Fail(NotInitialized);
      }
      PriceRowsStep(records, i, old(db.lastPriceId), now);
      i := i + 1;
    }
    assert records[..i] == records;
    out := Ok(PriceItems(records));
  }
}
