/** The bar and doughnut series: grouping rows by their dimension into a
    JavaScript object used as a dictionary, then `Object.entries(...)`
    turned into `{label, value}` entries. */
module Grouping {
  import opened Records
  import opened Seqs

  /** One `{label, value}` entry of a bar or doughnut series. */
  datatype Entry = Entry(name: string, value: Value)

  /** A plain JavaScript object used as a dictionary: its own keys in the
      order they were first assigned, and the value under each key. */
  datatype Dict = Dict(keys: seq<string>, vals: map<string, Value>)

  ghost predicate Valid(d: Dict)
  {
    && NoDup(d.keys)
    && (forall k :: k in d.keys ==> k in d.vals)
    && (forall k :: k in d.vals ==> k in d.keys)
  }

  /** `acc[k]`: `undefined` for a key never assigned. */
  function Lookup(d: Dict, k: string): Value
  {
    if k in d.vals then d.vals[k] else Undefined
  }

  /** `acc[k] = v`: a new key goes to the end of the key order. */
  function Assign(d: Dict, k: string, v: Value): Dict
  {
    Dict(if k in d.vals then d.keys else d.keys + [k], d.vals[k := v])
  }

  /** `Object.entries(d).map(([label, value]) => ({label, value}))`. */
  function Entries(d: Dict): seq<Entry>
  {
    seq(|d.keys|, i requires 0 <= i < |d.keys| => Entry(d.keys[i], Lookup(d, d.keys[i])))
  }

  /** One step of the grouping fold:
      `acc[item[labelKey]] = (acc[item[labelKey]] || 0) + item[valueKey]`.
      The accumulated side is guarded by `|| 0`, the row's value is not. */
  function Step(d: Dict, r: Row, f: Field): Dict
  {
    Assign(d, r.dimension, Plus(Number(OrZero(Lookup(d, r.dimension))), Get(r, f)))
  }

  /** The dictionary the fold builds from `{}` over `rows`. */
  function Grouped(rows: seq<Row>, f: Field): Dict
  {
    if rows == [] then Dict([], map[]) else Step(Grouped(rows[..|rows| - 1], f), rows[|rows| - 1], f)
  }

  /** The series the fold and `Object.entries` produce. */
  function Bar(rows: seq<Row>, f: Field): seq<Entry>
  {
    Entries(Grouped(rows, f))
  }

  /** The grouping fold of `getSummaryAndBar` (and of `customerDoughnut`),
      with the dictionary updated in place row by row. */
  method GroupSums(filtered: seq<Row>, valueKey: Field) returns (bar: seq<Entry>)
    ensures bar == Bar(filtered, valueKey)
  {
    var keys: seq<string>, vals: map<string, Value> := [], map[];
    var i := 0;
    while i < |filtered|
      invariant 0 <= i <= |filtered|
      invariant Dict(keys, vals) == Grouped(filtered[..i], valueKey)
    {
      assert filtered[..i + 1][..i] == filtered[..i];
      var k := filtered[i].dimension;
      var previous := if k in vals then vals[k] else Undefined;
      if k !in vals {
        keys := keys + [k];
      }
      vals := vals[k := Plus(Number(OrZero(previous)), Get(filtered[i], valueKey))];
      i := i + 1;
    }
    assert filtered[..i] == filtered;
    bar := Entries(Dict(keys, vals));
  }

  // ---------------------------------------------------------------------
  // Reference definitions, one label at a time

  /** What the fold leaves under the single key `k`: `undefined` until a
      row of `k` is seen, then `(previous || 0) + value` for each such row. */
  function LabelFold(rows: seq<Row>, k: string, f: Field): Value
  {
    if rows == [] then Undefined
    else
      var p, r := LabelFold(rows[..|rows| - 1], k, f), rows[|rows| - 1];
      if r.dimension == k then Plus(Number(OrZero(p)), Get(r, f)) else p
  }

  /** Sum of `f` over exactly the rows whose dimension is `k`. */
  function DimensionSum(rows: seq<Row>, k: string, f: Field): int
  {
    if rows == [] then 0
    else
      var r := rows[|rows| - 1];
      DimensionSum(rows[..|rows| - 1], k, f) + if r.dimension == k then OrZero(Get(r, f)) else 0
  }

  /** The labels of a series, in order. */
  function Names(bar: seq<Entry>): (ns: seq<string>)
    ensures |ns| == |bar|
    ensures forall i :: 0 <= i < |bar| ==> ns[i] == bar[i].name
  {
    if bar == [] then [] else Names(bar[..|bar| - 1]) + [bar[|bar| - 1].name]
  }

  /** Sum of the numeric values of a series. */
  function Total(bar: seq<Entry>): int
  {
    if bar == [] then 0 else Total(bar[..|bar| - 1]) + OrZero(bar[|bar| - 1].value)
  }

  // ---------------------------------------------------------------------
  // The dictionary the fold builds

  /** The keys are the distinct dimensions in first-seen order, and the
      value under every key is that key's own fold. */
  lemma {:induction false} GroupedSpec(rows: seq<Row>, f: Field)
    ensures Valid(Grouped(rows, f))
    ensures Grouped(rows, f).keys == Distinct(Dimensions(rows))
    ensures forall k :: Lookup(Grouped(rows, f), k) == LabelFold(rows, k, f)
  {
    if rows != [] {
      var p, r := rows[..|rows| - 1], rows[|rows| - 1];
      GroupedSpec(p, f);
      var g := Grouped(p, f);
      assert Grouped(rows, f) == Step(g, r, f);
      assert Dimensions(rows) == Dimensions(p) + [r.dimension];
      assert Dimensions(rows)[..|rows| - 1] == Dimensions(p);
      DistinctSpec(Dimensions(p));
      if r.dimension in g.vals {
        assert Grouped(rows, f).keys == Distinct(Dimensions(rows)) by {
          assert r.dimension in Distinct(Dimensions(p));
        }
      } else {
        assert Grouped(rows, f).keys == Distinct(Dimensions(rows)) by {
          assert r.dimension !in Distinct(Dimensions(p));
        }
        assert NoDup(Grouped(rows, f).keys) by {
          assert r.dimension !in g.keys;
        }
      }
      assert forall k :: Lookup(Grouped(rows, f), k) == LabelFold(rows, k, f) by {
        forall k ensures Lookup(Grouped(rows, f), k) == LabelFold(rows, k, f) {
          assert LabelFold(rows, k, f) == if r.dimension == k then Plus(Number(OrZero(LabelFold(p, k, f))), Get(r, f)) else LabelFold(p, k, f);
        }
      }
    }
  }

  /** The entry names are the distinct dimensions in first-seen order, and
      every entry's value is that dimension's own fold. */
  lemma BarSpec(rows: seq<Row>, f: Field)
    ensures Names(Bar(rows, f)) == Distinct(Dimensions(rows))
    ensures forall i :: 0 <= i < |Bar(rows, f)| ==>
              Bar(rows, f)[i].value == LabelFold(rows, Bar(rows, f)[i].name, f)
  {
    GroupedSpec(rows, f);
  }

  /** When every row carries the value field, each entry of the series is
      the sum of that field over exactly the rows with the entry's label. */
  lemma BarEntryIsLabelSum(rows: seq<Row>, f: Field)
    requires AllPresent(rows, f)
    ensures forall i :: 0 <= i < |Bar(rows, f)| ==>
              Bar(rows, f)[i].value == Number(DimensionSum(rows, Bar(rows, f)[i].name, f))
  {
    BarSpec(rows, f);
    BarLabels(rows, f);
    forall i | 0 <= i < |Bar(rows, f)|
      ensures Bar(rows, f)[i].value == Number(DimensionSum(rows, Bar(rows, f)[i].name, f))
    {
      var k := Bar(rows, f)[i].name;
      assert Names(Bar(rows, f))[i] == k;
      LabelFoldIsSum(rows, k, f);
    }
  }

  /** The series names each dimension present in `rows` exactly once, and
      nothing else; the series of no rows is empty. */
  lemma BarLabels(rows: seq<Row>, f: Field)
    ensures rows == [] ==> Bar(rows, f) == []
    ensures NoDup(Names(Bar(rows, f)))
    ensures forall x :: x in Names(Bar(rows, f)) ==> x in Dimensions(rows)
    ensures forall x :: x in Dimensions(rows) ==> x in Names(Bar(rows, f))
  {
    BarSpec(rows, f);
    DistinctSpec(Dimensions(rows));
  }

  /** Entries appear in the order in which their dimension is first seen
      while scanning the rows. */
  lemma BarFirstSeenOrder(rows: seq<Row>, f: Field)
    ensures forall i, j :: 0 <= i < j < |Bar(rows, f)| ==>
              Bar(rows, f)[i].name in Dimensions(rows) && Bar(rows, f)[j].name in Dimensions(rows)
              && FirstIndex(Dimensions(rows), Bar(rows, f)[i].name) < FirstIndex(Dimensions(rows), Bar(rows, f)[j].name)
  {
    BarSpec(rows, f);
    var bar, d := Bar(rows, f), Distinct(Dimensions(rows));
    DistinctSpec(Dimensions(rows));
    forall i | 0 <= i < |bar| ensures bar[i].name == d[i] && d[i] in d {
      assert Names(bar)[i] == bar[i].name;
    }
  }

  // ---------------------------------------------------------------------
  // What the value under one label is

  /** Splitting the rows at any point: if every later row of `k` carries
      the field, the fold of `k` over the whole is the fold over the first
      part (read through `|| 0`) plus the later rows' sum. A `NaN` from a
      row without the field therefore lasts only until the next row of the
      same label, which starts again from 0. */
  lemma {:induction false} LabelFoldSplit(a: seq<Row>, b: seq<Row>, k: string, f: Field)
    requires forall i :: 0 <= i < |b| && b[i].dimension == k ==> Get(b[i], f).Number?
    ensures LabelFold(a + b, k, f) ==
              if k in Dimensions(b) then Number(OrZero(LabelFold(a, k, f)) + DimensionSum(b, k, f))
              else LabelFold(a, k, f)
    decreases |b|
  {
    if b == [] {
      assert a + b == a;
    } else {
      var b', r := b[..|b| - 1], b[|b| - 1];
      assert (a + b)[..|a + b| - 1] == a + b';
      assert (a + b)[|a + b| - 1] == r;
      assert Dimensions(b) == Dimensions(b') + [r.dimension];
      LabelFoldSplit(a, b', k, f);
      if k !in Dimensions(b') {
        DimensionSumAbsent(b', k, f);
      }
    }
  }

  lemma {:induction false} DimensionSumAbsent(rows: seq<Row>, k: string, f: Field)
    requires k !in Dimensions(rows)
    ensures DimensionSum(rows, k, f) == 0
  {
    if rows != [] {
      var p := rows[..|rows| - 1];
      assert Dimensions(p) == Dimensions(rows)[..|rows| - 1];
      DimensionSumAbsent(p, k, f);
    }
  }

  /** When every row of label `k` carries the field, the entry of `k` is
      the sum of that field over exactly the rows of `k`. */
  lemma LabelFoldIsSum(rows: seq<Row>, k: string, f: Field)
    requires forall i :: 0 <= i < |rows| && rows[i].dimension == k ==> Get(rows[i], f).Number?
    requires k in Dimensions(rows)
    ensures LabelFold(rows, k, f) == Number(DimensionSum(rows, k, f))
  {
    LabelFoldSplit([], rows, k, f);
    assert [] + rows == rows;
  }

  /** When the last row of label `k` lacks the field, the entry of `k` is
      `NaN`, whatever came before. */
  lemma {:induction false} LabelFoldMissingLast(rows: seq<Row>, i: nat, k: string, f: Field)
    requires i < |rows| && rows[i].dimension == k && Get(rows[i], f) == Undefined
    requires forall j :: i < j < |rows| ==> rows[j].dimension != k
    ensures LabelFold(rows, k, f) == NaN
  {
    if i < |rows| - 1 {
      LabelFoldMissingLast(rows[..|rows| - 1], i, k, f);
    }
  }

  // ---------------------------------------------------------------------
  // The series adds up to the summary

  lemma {:induction false} TotalUpdate(bar: seq<Entry>, j: nat, e: Entry)
    requires j < |bar|
    ensures Total(bar[j := e]) == Total(bar) - OrZero(bar[j].value) + OrZero(e.value)
  {
    var n := |bar| - 1;
    assert bar[j := e][..n] == if j == n then bar[..n] else bar[..n][j := e];
    if j < n {
      TotalUpdate(bar[..n], j, e);
    }
  }

  /** One more row moves the series total by that row's value. */
  lemma StepTotal(d: Dict, r: Row, f: Field)
    requires Valid(d)
    requires forall k :: k in d.vals ==> d.vals[k].Number?
    requires Get(r, f).Number?
    ensures Valid(Step(d, r, f))
    ensures forall k :: k in Step(d, r, f).vals ==> Step(d, r, f).vals[k].Number?
    ensures Total(Entries(Step(d, r, f))) == Total(Entries(d)) + Get(r, f).n
  {
    var k := r.dimension;
    var v := Plus(Number(OrZero(Lookup(d, k))), Get(r, f));
    var d' := Step(d, r, f);
    var es, es' := Entries(d), Entries(d');
    if k in d.vals {
      var j := FirstIndex(d.keys, k);
      assert es' == es[j := Entry(k, v)];
      TotalUpdate(es, j, Entry(k, v));
    } else {
      assert es' == es + [Entry(k, v)];
      assert es'[..|es|] == es;
    }
  }

  /** When every row carries the value field, every entry is a number and
      the entries add up to the sum of that field over all rows: the bar
      chart and the summary card agree. */
  lemma {:induction false} BarTotal(rows: seq<Row>, f: Field)
    requires AllPresent(rows, f)
    ensures forall i :: 0 <= i < |Bar(rows, f)| ==> Bar(rows, f)[i].value.Number?
    ensures Total(Bar(rows, f)) == Sum(rows, f)
  {
    GroupedTotal(rows, f);
    GroupedSpec(rows, f);
    var d := Grouped(rows, f);
    forall i | 0 <= i < |Bar(rows, f)| ensures Bar(rows, f)[i].value.Number? {
      assert d.keys[i] in d.keys;
    }
  }

  lemma {:induction false} GroupedTotal(rows: seq<Row>, f: Field)
    requires AllPresent(rows, f)
    ensures Valid(Grouped(rows, f))
    ensures forall k :: k in Grouped(rows, f).vals ==> Grouped(rows, f).vals[k].Number?
    ensures Total(Bar(rows, f)) == Sum(rows, f)
  {
    if rows != [] {
      var p, r := rows[..|rows| - 1], rows[|rows| - 1];
      assert AllPresent(p, f) by {
        forall i | 0 <= i < |p| ensures Get(p[i], f).Number? { assert p[i] == rows[i]; }
      }
      GroupedTotal(p, f);
      var g := Grouped(p, f);
      assert Grouped(rows, f) == Step(g, r, f);
      assert Get(r, f).Number?;
      assert Sum(rows, f) == Sum(p, f) + Get(r, f).n;
      StepTotal(g, r, f);
    }
  }
}
