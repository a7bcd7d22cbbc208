/** String order and sorting as JavaScript's default `Array.prototype.sort`
    applies them to an array of strings. */
module Sorting {

  /** `a` sorts before `b`: compared character by character, and a proper
      prefix sorts first. */
  predicate Below(a: string, b: string)
  {
    if a == [] then b != []
    else if b == [] then false
    else if a[0] != b[0] then a[0] < b[0]
    else Below(a[1..], b[1..])
  }

  lemma {:induction false} BelowIrreflexive(a: string)
    ensures !Below(a, a)
  {
    if a != [] {
      BelowIrreflexive(a[1..]);
    }
  }

  lemma {:induction false} BelowTransitive(a: string, b: string, c: string)
    requires Below(a, b) && Below(b, c)
    ensures Below(a, c)
  {
    if a != [] && a[0] == b[0] && b[0] == c[0] {
      BelowTransitive(a[1..], b[1..], c[1..]);
    }
  }

  lemma {:induction false} BelowTotal(a: string, b: string)
    ensures a == b || Below(a, b) || Below(b, a)
  {
    if a != [] && b != [] && a[0] == b[0] {
      BelowTotal(a[1..], b[1..]);
      if a[1..] == b[1..] {
        assert a == [a[0]] + a[1..] && b == [b[0]] + b[1..];
      }
    }
  }

  lemma {:induction false} BelowAsymmetric(a: string, b: string)
    ensures Below(a, b) ==> !Below(b, a)
  {
    if Below(a, b) && Below(b, a) {
      BelowTransitive(a, b, a);
      BelowIrreflexive(a);
    }
  }

  /** `Below` is a strict total order on strings. */
  lemma StrictTotalOrder()
    ensures forall a :: !Below(a, a)
    ensures forall a, b, c :: Below(a, b) && Below(b, c) ==> Below(a, c)
    ensures forall a, b :: a == b || Below(a, b) || Below(b, a)
  {
    forall a ensures !Below(a, a) { BelowIrreflexive(a); }
    forall a, b, c | Below(a, b) && Below(b, c) ensures Below(a, c) { BelowTransitive(a, b, c); }
    forall a, b ensures a == b || Below(a, b) || Below(b, a) { BelowTotal(a, b); }
  }

  /** No element sorts before an earlier one. */
  predicate Sorted(s: seq<string>)
  {
    forall i, j :: 0 <= i < j < |s| ==> !Below(s[j], s[i])
  }

  /** Every element sorts strictly before every later one. */
  predicate Ascending(s: seq<string>)
  {
    forall i, j :: 0 <= i < j < |s| ==> Below(s[i], s[j])
  }

  function Insert(x: string, s: seq<string>): seq<string>
  {
    if s == [] then [x]
    else if !Below(s[0], x) then [x] + s
    else [s[0]] + Insert(x, s[1..])
  }

  /** `strings.sort()` with the default comparison. */
  function SortStrings(s: seq<string>): seq<string>
  {
    if s == [] then [] else Insert(s[0], SortStrings(s[1..]))
  }

  lemma {:induction false} InsertElements(x: string, s: seq<string>)
    ensures multiset(Insert(x, s)) == multiset(s) + multiset{x}
  {
    if s != [] && Below(s[0], x) {
      assert s == [s[0]] + s[1..];
      InsertElements(x, s[1..]);
    }
  }

  /** With `x` sorting no later than the head of sorted `s`, `[x] + s` is
      sorted; strictly ascending when `x` is not in an ascending `s`. */
  lemma PrependSorted(x: string, s: seq<string>)
    requires s != [] && Sorted(s) && !Below(s[0], x)
    ensures Sorted([x] + s)
    ensures Ascending(s) && x !in s ==> Ascending([x] + s)
  {
    forall j | 0 <= j < |s| ensures !Below(s[j], x) && (Ascending(s) && x !in s ==> Below(x, s[j])) {
      BelowTotal(x, s[0]);
      if j > 0 {
        BelowTotal(s[0], s[j]);
        if Below(s[0], s[j]) && Below(x, s[0]) { BelowTransitive(x, s[0], s[j]); }
        BelowAsymmetric(s[0], s[j]);
        BelowAsymmetric(x, s[j]);
      }
      BelowAsymmetric(x, s[0]);
      BelowIrreflexive(x);
      BelowIrreflexive(s[j]);
    }
  }

  lemma ConsSorted(y: string, r: seq<string>)
    requires Sorted(r)
    requires forall k :: 0 <= k < |r| ==> !Below(r[k], y)
    ensures Sorted([y] + r)
  {
    var s := [y] + r;
    forall i, j | 0 <= i < j < |s| ensures !Below(s[j], s[i]) {
      assert s[j] == r[j - 1];
      if i > 0 { assert s[i] == r[i - 1]; }
    }
  }

  lemma ConsAscending(y: string, r: seq<string>)
    requires Ascending(r)
    requires forall k :: 0 <= k < |r| ==> Below(y, r[k])
    ensures Ascending([y] + r)
  {
    var s := [y] + r;
    forall i, j | 0 <= i < j < |s| ensures Below(s[i], s[j]) {
      assert s[j] == r[j - 1];
      if i > 0 { assert s[i] == r[i - 1]; }
    }
  }

  /** Every element of `Insert(x, s)` is `x` or an element of `s`. */
  lemma InsertMembers(x: string, s: seq<string>)
    ensures forall k :: 0 <= k < |Insert(x, s)| ==> Insert(x, s)[k] == x || Insert(x, s)[k] in s
  {
    InsertElements(x, s);
    var r := Insert(x, s);
    forall k | 0 <= k < |r| ensures r[k] == x || r[k] in s {
      assert r[k] in multiset(r);
    }
  }

  lemma TailSorted(s: seq<string>)
    requires s != [] && Sorted(s)
    ensures Sorted(s[1..])
    ensures forall k :: 0 <= k < |s| - 1 ==> !Below(s[1..][k], s[0])
  {
    var t := s[1..];
    forall i, j | 0 <= i < j < |t| ensures !Below(t[j], t[i]) { assert t[i] == s[i + 1] && t[j] == s[j + 1]; }
    forall k | 0 <= k < |t| ensures !Below(t[k], s[0]) { assert t[k] == s[k + 1]; }
  }

  lemma TailAscending(s: seq<string>)
    requires s != [] && Ascending(s)
    ensures Ascending(s[1..])
    ensures forall k :: 0 <= k < |s| - 1 ==> Below(s[0], s[1..][k])
  {
    var t := s[1..];
    forall i, j | 0 <= i < j < |t| ensures Below(t[i], t[j]) { assert t[i] == s[i + 1] && t[j] == s[j + 1]; }
    forall k | 0 <= k < |t| ensures Below(s[0], t[k]) { assert t[k] == s[k + 1]; }
  }

  lemma {:induction false} InsertSorted(x: string, s: seq<string>)
    requires Sorted(s)
    ensures Sorted(Insert(x, s))
  {
    if s == [] {
    } else if !Below(s[0], x) {
      PrependSorted(x, s);
    } else {
      var t := s[1..];
      TailSorted(s);
      InsertSorted(x, t);
      InsertMembers(x, t);
      var r := Insert(x, t);
      BelowAsymmetric(s[0], x);
      forall k | 0 <= k < |r| ensures !Below(r[k], s[0]) {
        if r[k] != x {
          var m :| 0 <= m < |t| && t[m] == r[k];
        }
      }
      ConsSorted(s[0], r);
    }
  }

  lemma AscendingSorted(s: seq<string>)
    requires Ascending(s)
    ensures Sorted(s)
  {
    forall i, j | 0 <= i < j < |s| ensures !Below(s[j], s[i]) { BelowAsymmetric(s[i], s[j]); }
  }

  lemma {:induction false} InsertAscending(x: string, s: seq<string>)
    requires Ascending(s) && x !in s
    ensures Ascending(Insert(x, s))
  {
    if s == [] {
    } else if !Below(s[0], x) {
      AscendingSorted(s);
      PrependSorted(x, s);
    } else {
      var t := s[1..];
      TailAscending(s);
      InsertAscending(x, t);
      InsertMembers(x, t);
      var r := Insert(x, t);
      forall k | 0 <= k < |r| ensures Below(s[0], r[k]) {
        if r[k] != x {
          var m :| 0 <= m < |t| && t[m] == r[k];
        }
      }
      ConsAscending(s[0], r);
    }
  }

  /** The sorted result is a sorted permutation of its input, and strictly
      ascending when the input has no repeated element. */
  lemma {:induction false} SortSpec(s: seq<string>)
    ensures multiset(SortStrings(s)) == multiset(s)
    ensures Sorted(SortStrings(s))
    ensures (forall i, j :: 0 <= i < j < |s| ==> s[i] != s[j]) ==> Ascending(SortStrings(s))
  {
    if s != [] {
      var t := s[1..];
      assert s == [s[0]] + t;
      SortSpec(t);
      InsertElements(s[0], SortStrings(t));
      InsertSorted(s[0], SortStrings(t));
      if forall i, j :: 0 <= i < j < |s| ==> s[i] != s[j] {
        assert s[0] !in multiset(SortStrings(t)) by {
          assert forall k :: 1 <= k < |s| ==> s[k] != s[0];
        }
        InsertAscending(s[0], SortStrings(t));
        assert forall i, j :: 0 <= i < j < |t| ==> t[i] != t[j] by {
          forall i, j | 0 <= i < j < |t| ensures t[i] != t[j] { assert t[i] == s[i + 1] && t[j] == s[j + 1]; }
        }
      }
    }
  }

  /** A non-empty sequence contains its head. Stated as an implication so
      that callers can use it where `s` is not yet known to be non-empty. */
  lemma HeadIsElement(s: seq<string>)
    ensures s != [] ==> s[0] in s
  {
  }

  /** Two strictly ascending sequences with the same elements are equal:
      the sorted, de-duplicated list does not depend on the order in which
      the elements were collected. */
  lemma {:induction false} AscendingUnique(a: seq<string>, b: seq<string>)
    requires Ascending(a) && Ascending(b)
    requires forall x :: x in a ==> x in b
    requires forall x :: x in b ==> x in a
    ensures a == b
  {
    if a != [] {
      assert a[0] in b && (a[0] == b[0] || Below(b[0], a[0]));
      assert b[0] in a && (b[0] == a[0] || Below(a[0], b[0]));
      BelowAsymmetric(a[0], b[0]);
      assert a[0] == b[0];
      forall x | x in a[1..] ensures x in b[1..] {
        var i :| 0 <= i < |a[1..]| && a[1..][i] == x;
        assert Below(a[0], x) && x in b;
        BelowIrreflexive(x);
        var j :| 0 <= j < |b| && b[j] == x;
        assert b[1..][j - 1] == x;
      }
      forall x | x in b[1..] ensures x in a[1..] {
        var i :| 0 <= i < |b[1..]| && b[1..][i] == x;
        assert Below(b[0], x) && x in a;
        BelowIrreflexive(x);
        var j :| 0 <= j < |a| && a[j] == x;
        assert a[1..][j - 1] == x;
      }
      AscendingUnique(a[1..], b[1..]);
      assert a == [a[0]] + a[1..] && b == [b[0]] + b[1..];
    } else {
      HeadIsElement(b);
    }
  }
}
