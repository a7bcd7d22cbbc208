/** The summary cards: the `{count, acv}` folds of `getSummaryAndBar` and
    of the customer-type view. */
module Summaries {
  import opened Records

  datatype Summary = Summary(count: Value, acv: Value)

  /** The fold in `getSummaryAndBar`: `acc.count += item[countKey] || 0` and
      `acc.acv += item[valueKey] || 0`, starting from `{count: 0, acv: 0}`.
      An absent field adds nothing, so both totals are always numbers. */
  method Summarize(filtered: seq<Row>, countKey: Field, valueKey: Field) returns (s: Summary)
    ensures s == Summary(Number(Sum(filtered, countKey)), Number(Sum(filtered, valueKey)))
  {
    var count, acv := 0, 0;
    var i := 0;
    while i < |filtered|
      invariant 0 <= i <= |filtered|
      invariant count == Sum(filtered[..i], countKey)
      invariant acv == Sum(filtered[..i], valueKey)
    {
      assert filtered[..i + 1][..i] == filtered[..i];
      count := count + OrZero(Get(filtered[i], countKey));
      acv := acv + OrZero(Get(filtered[i], valueKey));
      i := i + 1;
    }
    assert filtered[..i] == filtered;
    s := Summary(Number(count), Number(acv));
  }

  /** The customer-type fold: `acc.count += item.count` and
      `acc.acv += item.acv` with no `|| 0` guard. A single row without the
      field turns that total into `NaN` for good; otherwise the total is the
      plain sum. */
  method CustomerSummarize(filtered: seq<Row>) returns (s: Summary)
    ensures s.count == if AllPresent(filtered, Count) then Number(Sum(filtered, Count)) else NaN
    ensures s.acv == if AllPresent(filtered, Acv) then Number(Sum(filtered, Acv)) else NaN
  {
    var count, acv := Number(0), Number(0);
    var i := 0;
    while i < |filtered|
      invariant 0 <= i <= |filtered|
      invariant count == if AllPresent(filtered[..i], Count) then Number(Sum(filtered[..i], Count)) else NaN
      invariant acv == if AllPresent(filtered[..i], Acv) then Number(Sum(filtered[..i], Acv)) else NaN
    {
      var next := filtered[..i + 1];
      assert next[..i] == filtered[..i];
      assert AllPresent(next, Count) <==> AllPresent(filtered[..i], Count) && Get(filtered[i], Count).Number?;
      assert AllPresent(next, Acv) <==> AllPresent(filtered[..i], Acv) && Get(filtered[i], Acv).Number?;
      count := Plus(count, Get(filtered[i], Count));
      acv := Plus(acv, Get(filtered[i], Acv));
      i := i + 1;
    }
    assert filtered[..i] == filtered;
    s := Summary(count, acv);
  }
}
