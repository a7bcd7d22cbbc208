/** The quarter filter in front of every chart: `filterByQuarter`. */
module QuarterFilter {
  import opened Records

  /** The sentinel selection meaning "every quarter". */
  const ALL: string := "All"

  /** `r` is `s` with some elements dropped and the rest in their order. */
  ghost predicate IsSubsequence(r: seq<Row>, s: seq<Row>)
    decreases |s|
  {
    if r == [] then true
    else if s == [] then false
    else if r[|r| - 1] == s[|s| - 1] then IsSubsequence(r[..|r| - 1], s[..|s| - 1])
    else IsSubsequence(r, s[..|s| - 1])
  }

  /** The rows of quarter `q`, in their original order. */
  function Only(rows: seq<Row>, q: string): (r: seq<Row>)
    ensures forall i :: 0 <= i < |r| ==> r[i].quarter == q
  {
    if rows == [] then []
    else Only(rows[..|rows| - 1], q) + if rows[|rows| - 1].quarter == q then [rows[|rows| - 1]] else []
  }

  /** Every row of quarter `q` is kept as often as it occurs, and no other. */
  lemma {:induction false} OnlyCounts(rows: seq<Row>, q: string)
    ensures forall x :: multiset(Only(rows, q))[x] == if x.quarter == q then multiset(rows)[x] else 0
  {
    if rows != [] {
      var p, last := rows[..|rows| - 1], rows[|rows| - 1];
      assert rows == p + [last];
      OnlyCounts(p, q);
    }
  }

  /** `filterByQuarter`: everything for the sentinel, otherwise exactly the
      rows of the selected quarter, each as often as in `data`, in order. */
  function FilterByQuarter(data: seq<Row>, selected: string): (r: seq<Row>)
    ensures selected == ALL ==> r == data
    ensures selected != ALL ==> forall i :: 0 <= i < |r| ==> r[i].quarter == selected
    ensures selected != ALL ==>
              forall x :: multiset(r)[x] == if x.quarter == selected then multiset(data)[x] else 0
  {
    if selected == ALL then data else OnlyCounts(data, selected); Only(data, selected)
  }

  lemma {:induction false} OnlyAppend(a: seq<Row>, b: seq<Row>, q: string)
    ensures Only(a + b, q) == Only(a, q) + Only(b, q)
    decreases |b|
  {
    if b == [] {
      assert a + b == a;
    } else {
      var b' := b[..|b| - 1];
      assert (a + b)[..|a + b| - 1] == a + b';
      OnlyAppend(a, b', q);
    }
  }

  lemma {:induction false} OnlyIsSubsequence(rows: seq<Row>, q: string)
    ensures IsSubsequence(Only(rows, q), rows)
  {
    if rows != [] {
      var p, last := rows[..|rows| - 1], rows[|rows| - 1];
      OnlyIsSubsequence(p, q);
      var o := Only(p, q);
      assert rows == p + [last];
      if last.quarter == q {
        assert Only(rows, q) == o + [last];
        assert (o + [last])[..|o|] == o;
      } else {
        assert Only(rows, q) == o;
        SubsequenceOfPrefix(o, p, last);
      }
    }
  }

  /** Appending to the longer sequence keeps a subsequence one. */
  lemma {:induction false} SubsequenceOfPrefix(r: seq<Row>, s: seq<Row>, x: Row)
    requires IsSubsequence(r, s)
    ensures IsSubsequence(r, s + [x])
    decreases |s|, 1
  {
    assert (s + [x])[..|s|] == s;
    if r != [] && r[|r| - 1] == x {
      SubsequenceDropLast(r, s);
    }
  }

  lemma {:induction false} SubsequenceDropLast(r: seq<Row>, s: seq<Row>)
    requires r != [] && IsSubsequence(r, s)
    ensures IsSubsequence(r[..|r| - 1], s)
    decreases |s|, 0
  {
    var r' := r[..|r| - 1];
    if r' != [] {
      if r[|r| - 1] == s[|s| - 1] {
        SubsequenceOfPrefix(r', s[..|s| - 1], s[|s| - 1]);
        assert s[..|s| - 1] + [s[|s| - 1]] == s;
      } else {
        SubsequenceDropLast(r, s[..|s| - 1]);
        SubsequenceOfPrefix(r', s[..|s| - 1], s[|s| - 1]);
        assert s[..|s| - 1] + [s[|s| - 1]] == s;
      }
    }
  }

  /** The filtered rows keep their original relative order. */
  lemma FilterIsSubsequence(data: seq<Row>, selected: string)
    ensures IsSubsequence(FilterByQuarter(data, selected), data)
  {
    if selected == ALL {
      SubsequenceRefl(data);
    } else {
      OnlyIsSubsequence(data, selected);
    }
  }

  lemma {:induction false} SubsequenceRefl(s: seq<Row>)
    ensures IsSubsequence(s, s)
  {
    if s != [] {
      SubsequenceRefl(s[..|s| - 1]);
    }
  }

  /** Filtering a filtered list by the same quarter changes nothing. */
  lemma FilterIdempotent(data: seq<Row>, selected: string)
    ensures FilterByQuarter(FilterByQuarter(data, selected), selected) == FilterByQuarter(data, selected)
  {
    if selected != ALL {
      OnlyOfOnly(data, selected);
    }
  }

  lemma {:induction false} OnlyOfOnly(rows: seq<Row>, q: string)
    ensures Only(Only(rows, q), q) == Only(rows, q)
  {
    if rows != [] {
      var p, last := rows[..|rows| - 1], rows[|rows| - 1];
      OnlyOfOnly(p, q);
      OnlyAppend(Only(p, q), if last.quarter == q then [last] else [], q);
      if last.quarter == q {
        assert Only([last], q) == [last] by { assert [last][..0] == []; }
      }
    }
  }
}
