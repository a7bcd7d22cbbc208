/** The records of the four dashboard datasets and the JavaScript number
    values the aggregation works with. */
module Records {

  datatype Option<+T> = None | Some(value: T)

  /** A JavaScript value read from a numeric slot: a number, `NaN` (what
      arithmetic on `undefined` yields) or `undefined` (a field or a
      dictionary key that is not there). Numbers are exact integers. */
  datatype Value = Number(n: int) | NaN | Undefined

  /** `a + b` in JavaScript: `undefined` and `NaN` poison the sum. */
  function Plus(a: Value, b: Value): Value
  {
    if a.Number? && b.Number? then Number(a.n + b.n) else NaN
  }

  /** `a || 0` in JavaScript: every falsy number (`0`, `NaN`) and
      `undefined` give `0`. */
  function OrZero(a: Value): int
  {
    if a.Number? then a.n else 0
  }

  /** One row of a dataset. `dimension` is the dataset's dimension field
      (`Cust_Type`, `Team`, `Acct_Industry` or `ACV_Range`); `count` and
      `acv` may be absent from the JSON. */
  datatype Row = Row(quarter: string, dimension: string, count: Option<int>, acv: Option<int>)

  /** The numeric fields a caller can name as `valueKey` or `countKey`. */
  datatype Field = Count | Acv

  /** `item[key]` for a numeric field. */
  function Get(r: Row, f: Field): Value
  {
    var o := if f == Count then r.count else r.acv;
    if o.Some? then Number(o.value) else Undefined
  }

  /** Every row carries the field `f`. */
  predicate AllPresent(rows: seq<Row>, f: Field)
  {
    forall i :: 0 <= i < |rows| ==> Get(rows[i], f).Number?
  }

  /** Sum of `f` over `rows`, an absent field counting as 0. */
  function Sum(rows: seq<Row>, f: Field): int
  {
    if rows == [] then 0 else Sum(rows[..|rows| - 1], f) + OrZero(Get(rows[|rows| - 1], f))
  }

  /** The dimension values of the rows, in order. */
  function Dimensions(rows: seq<Row>): (ls: seq<string>)
    ensures |ls| == |rows|
    ensures forall i :: 0 <= i < |rows| ==> ls[i] == rows[i].dimension
  {
    if rows == [] then [] else Dimensions(rows[..|rows| - 1]) + [rows[|rows| - 1].dimension]
  }

  /** The fiscal quarters of the rows, in order. */
  function Quarters(rows: seq<Row>): (qs: seq<string>)
    ensures |qs| == |rows|
    ensures forall i :: 0 <= i < |rows| ==> qs[i] == rows[i].quarter
  {
    if rows == [] then [] else Quarters(rows[..|rows| - 1]) + [rows[|rows| - 1].quarter]
  }
}
