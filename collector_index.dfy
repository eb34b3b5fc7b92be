/**
 * `collectAll()` of src/services/collector/index.js: run the six collectors
 * in a fixed order, keep the data of the successful ones, and record by name
 * only the collectors that threw. The collectors themselves are modelled in
 * their own modules; here each call is given by its outcome.
 */
module CollectorIndex {
  import opened Records

  /** The collectors in the order they run. */
  const CollectorNames: seq<string> := ["gold", "silver", "exchange", "oil", "crypto", "economic"]

  datatype NamedError = NamedError(name: string, error: string)

  datatype CollectReport = CollectReport(success: bool, data: seq<Item>, errors: seq<NamedError>)

  /** One `{ name, error }` per collector that threw, in order; a `success: false` result adds none. */
  function ThrownErrors(names: seq<string>, outs: seq<Outcome>): (es: seq<NamedError>)
    requires |names| == |outs|
    ensures |es| <= |outs|
  {
    if outs == [] then []
    else
      var last := outs[|outs| - 1];
      ThrownErrors(names[..|names| - 1], outs[..|outs| - 1])
      + (if last.Threw? then [NamedError(names[|names| - 1], last.message)] else [])
  }

  /** No errors are reported exactly when no collector threw. */
  lemma {:induction false} ThrownErrorsEmpty(names: seq<string>, outs: seq<Outcome>)
    requires |names| == |outs|
    ensures ThrownErrors(names, outs) == [] <==> forall i :: 0 <= i < |outs| ==> !outs[i].Threw?
    decreases |outs|
  {
    if outs != [] {
      var init := outs[..|outs| - 1];
      ThrownErrorsEmpty(names[..|names| - 1], init);
      assert forall i :: 0 <= i < |init| ==> init[i] == outs[i];
    }
  }

  /** The report names a collector exactly when that collector threw, with its message. */
  lemma {:induction false} ThrownErrorsMember(names: seq<string>, outs: seq<Outcome>, e: NamedError)
    requires |names| == |outs|
    ensures e in ThrownErrors(names, outs)
        <==> exists i :: 0 <= i < |outs| && outs[i].Threw? && e == NamedError(names[i], outs[i].message)
    decreases |outs|
  {
    if outs != [] {
      var n := |outs| - 1;
      ThrownErrorsMember(names[..n], outs[..n], e);
      if exists i :: 0 <= i < |outs| && outs[i].Threw? && e == NamedError(names[i], outs[i].message) {
        var i :| 0 <= i < |outs| && outs[i].Threw? && e == NamedError(names[i], outs[i].message);
        if i < n {
          assert outs[..n][i] == outs[i] && names[..n][i] == names[i];
        }
      }
      if exists i :: 0 <= i < n && outs[..n][i].Threw? && e == NamedError(names[..n][i], outs[..n][i].message) {
        var i :| 0 <= i < n && outs[..n][i].Threw? && e == NamedError(names[..n][i], outs[..n][i].message);
        assert outs[..n][i] == outs[i] && names[..n][i] == names[i];
      }
    }
  }

  /**
   * `collectAll()` given the outcomes of gold, silver, exchange, oil, crypto
   * and economic in that order: always `success: true`, the gathered data,
   * and the thrown collectors by name.
   */
  method CollectAll(outs: seq<Outcome>) returns (r: CollectReport)
    requires |outs| == |CollectorNames|
    ensures r.success
    ensures r.data == Gathered(outs)
    ensures r.errors == ThrownErrors(CollectorNames, outs)
  {
    var data: seq<Item> := [];
    var errors: seq<NamedError> := [];
    var i := 0;
    while i < |outs|
      invariant 0 <= i <= |outs|
      invariant data == Gathered(outs[..i])
      invariant errors == ThrownErrors(CollectorNames[..i], outs[..i])
    {
      assert outs[..i + 1][..i] == outs[..i];
      assert CollectorNames[..i + 1][..i] == CollectorNames[..i];
      match outs[i] {
        case Ok(d) => data := data + d;
        case Fail(_) =>
        case Threw(m) => errors := errors + [NamedError(CollectorNames[i], m)];
      }
      i := i + 1;
    }
    assert outs[..i] == outs;
    assert CollectorNames[..i] == CollectorNames;
    r := CollectReport(true, data, errors);
  }
}
