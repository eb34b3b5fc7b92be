/**
 * The values collectors hand to the store and to the scheduler: a price
 * record (`{ category, symbol, price, change, unit }`), a trend keyword
 * (`{ source, keyword, rank }`) and the outcome of one collector call.
 */
module Records {

  datatype PriceRecord = PriceRecord(category: string, symbol: string, price: real, change: real, unit: string)

  datatype TrendEntry = TrendEntry(source: string, keyword: string, rank: int)

  /** One element of a collector's `data` array. */
  datatype Item = PriceItem(record: PriceRecord) | TrendItem(trend: TrendEntry)

  /**
   * What one collector call produced: `{ success: true, data }`,
   * `{ success: false, error }`, or an exception with its message.
   */
  datatype Outcome = Ok(data: seq<Item>) | Fail(error: string) | Threw(message: string)

  /** The message `getDatabase()` throws before the database is initialised. */
  const NotInitialized: string := "Database not initialized"

  function PriceItems(rs: seq<PriceRecord>): (items: seq<Item>)
    ensures |items| == |rs| && forall i :: 0 <= i < |rs| ==> items[i] == PriceItem(rs[i])
  {
    if rs == [] then [] else [PriceItem(rs[0])] + PriceItems(rs[1..])
  }

  lemma PriceItemsSnoc(rs: seq<PriceRecord>, r: PriceRecord)
    ensures PriceItems(rs + [r]) == PriceItems(rs) + [PriceItem(r)]
  {
    assert forall i :: 0 <= i < |rs| ==> (rs + [r])[i] == rs[i];
  }

  function TrendItems(ts: seq<TrendEntry>): (items: seq<Item>)
    ensures |items| == |ts| && forall i :: 0 <= i < |ts| ==> items[i] == TrendItem(ts[i])
  {
    if ts == [] then [] else [TrendItem(ts[0])] + TrendItems(ts[1..])
  }

  /** The data a successful outcome contributes (`result.success && result.data`). */
  function DataOf(o: Outcome): seq<Item>
  {
    if o.Ok? then o.data else []
  }

  /** The in-order concatenation of the data of the successful outcomes. */
  function Gathered(outs: seq<Outcome>): seq<Item>
  {
    if outs == [] then [] else Gathered(outs[..|outs| - 1]) + DataOf(outs[|outs| - 1])
  }

  lemma {:induction false} GatheredAppend(a: seq<Outcome>, b: seq<Outcome>)
    ensures Gathered(a + b) == Gathered(a) + Gathered(b)
    decreases |b|
  {
    if b == [] {
      assert a + b == a;
    } else {
      var c := b[..|b| - 1];
      assert (a + b)[..|a + b| - 1] == a + c;
      assert (a + b)[|a + b| - 1] == b[|b| - 1];
      GatheredAppend(a, c);
    }
  }

  /** An item is gathered exactly when some successful outcome carries it. */
  lemma {:induction false} GatheredMember(outs: seq<Outcome>, x: Item)
    ensures x in Gathered(outs) <==> exists i :: 0 <= i < |outs| && outs[i].Ok? && x in outs[i].data
    decreases |outs|
  {
    if outs != [] {
      var init := outs[..|outs| - 1];
      GatheredMember(init, x);
      if exists i :: 0 <= i < |outs| && outs[i].Ok? && x in outs[i].data {
        var i :| 0 <= i < |outs| && outs[i].Ok? && x in outs[i].data;
        if i < |init| {
          assert init[i] == outs[i];
        }
      }
      if exists i :: 0 <= i < |init| && init[i].Ok? && x in init[i].data {
        var i :| 0 <= i < |init| && init[i].Ok? && x in init[i].data;
        assert outs[i] == init[i];
      }
    }
  }
}
