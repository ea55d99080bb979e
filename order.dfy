/**
 * The order pandas sorts text cells in (`sort_values`, and the group order of
 * `groupby`): Python's string comparison, code point by code point, with
 * null cells placed last.
 */
module Order {
  import opened Wrappers
  import opened Tables

  /** Python's `a < b` on str: the first differing code point decides; a proper prefix comes first. */
  predicate StrLess(a: string, b: string)
    decreases |a|
  {
    if a == [] then b != []
    else if b == [] then false
    else a[0] < b[0] || (a[0] == b[0] && StrLess(a[1..], b[1..]))
  }

  lemma {:induction false} StrLessIrreflexive(a: string)
    ensures !StrLess(a, a)
    decreases |a|
  {
    if a != [] {
      StrLessIrreflexive(a[1..]);
    }
  }

  lemma {:induction false} StrLessTransitive(a: string, b: string, c: string)
    requires StrLess(a, b) && StrLess(b, c)
    ensures StrLess(a, c)
    decreases |a|
  {
    if a != [] && a[0] == b[0] && b[0] == c[0] {
      StrLessTransitive(a[1..], b[1..], c[1..]);
    }
  }

  lemma {:induction false} StrLessTotal(a: string, b: string)
    requires a != b
    ensures StrLess(a, b) || StrLess(b, a)
    decreases |a|
  {
    if a != [] && b != [] && a[0] == b[0] {
      assert a == [a[0]] + a[1..] && b == [b[0]] + b[1..];
      StrLessTotal(a[1..], b[1..]);
    }
  }

  /** `a` may precede `b` in a sorted column: text order, null last (`na_position='last'`). */
  predicate CellLe(a: Cell, b: Cell) {
    match b
    case None => true
    case Some(y) => a.Some? && (a.value == y || StrLess(a.value, y))
  }

  lemma CellLeTransitive(a: Cell, b: Cell, c: Cell)
    requires CellLe(a, b) && CellLe(b, c)
    ensures CellLe(a, c)
  {
    if a.Some? && b.Some? && c.Some? && StrLess(a.value, b.value) && StrLess(b.value, c.value) {
      StrLessTransitive(a.value, b.value, c.value);
    }
  }

  lemma CellLeTotal(a: Cell, b: Cell)
    ensures CellLe(a, b) || CellLe(b, a)
  {
    if a.Some? && b.Some? && a.value != b.value {
      StrLessTotal(a.value, b.value);
    }
  }

  /** Every cell may precede every later one. */
  predicate Sorted(s: seq<Cell>) {
    forall i, j :: 0 <= i < j < |s| ==> CellLe(s[i], s[j])
  }

  lemma BelowSortedHead(x: Cell, s: seq<Cell>)
    requires Sorted(s) && s != [] && CellLe(x, s[0])
    ensures forall k :: 0 <= k < |s| ==> CellLe(x, s[k])
  {
    forall k | 0 <= k < |s| ensures CellLe(x, s[k]) {
      if k > 0 {
        CellLeTransitive(x, s[0], s[k]);
      }
    }
  }

  /** `x` placed into the sorted column `s` after every cell that may precede it. */
  function Insert(x: Cell, s: seq<Cell>): (r: seq<Cell>)
    requires Sorted(s)
    ensures Sorted(r)
    ensures multiset(r) == multiset(s) + multiset{x}
    ensures forall e :: e in r <==> e in s || e == x
  {
    if s == [] then [x]
    else if CellLe(x, s[0]) then
      BelowSortedHead(x, s);
      SortedCons(x, s);
      [x] + s
    else
      CellLeTotal(x, s[0]);
      var r' := Insert(x, s[1..]);
      HeadPrecedesRest(s, x, r');
      SortedCons(s[0], r');
      assert s == [s[0]] + s[1..];
      [s[0]] + r'
  }

  /** A cell that may precede every cell of a sorted column may head it. */
  lemma SortedCons(h: Cell, r: seq<Cell>)
    requires Sorted(r)
    requires forall k :: 0 <= k < |r| ==> CellLe(h, r[k])
    ensures Sorted([h] + r)
  {
    var t := [h] + r;
    forall i, j | 0 <= i < j < |t| ensures CellLe(t[i], t[j]) {
      if i == 0 {
        assert t[j] == r[j - 1];
      } else {
        assert t[i] == r[i - 1] && t[j] == r[j - 1];
      }
    }
  }

  /** The head of a sorted column precedes whatever is built from its tail and a later cell. */
  lemma HeadPrecedesRest(s: seq<Cell>, x: Cell, r: seq<Cell>)
    requires Sorted(s) && s != [] && CellLe(s[0], x)
    requires forall e :: e in r ==> e in s[1..] || e == x
    ensures forall k :: 0 <= k < |r| ==> CellLe(s[0], r[k])
  {
    forall k | 0 <= k < |r| ensures CellLe(s[0], r[k]) {
      if r[k] != x {
        assert r[k] in s[1..];
        var m :| 0 <= m < |s[1..]| && s[1..][m] == r[k];
        assert s[m + 1] == r[k];
      }
    }
  }

  /** `sort_values` on one column of text cells: sorted, and the same cells with the same counts. */
  function Sort(s: seq<Cell>): (r: seq<Cell>)
    ensures Sorted(r)
    ensures multiset(r) == multiset(s)
  {
    if s == [] then []
    else
      assert s == [s[0]] + s[1..];
      Insert(s[0], Sort(s[1..]))
  }

  lemma {:induction false} FilterSorted(s: seq<Cell>, p: Cell -> bool)
    requires Sorted(s)
    ensures Sorted(Filter(s, p))
    decreases |s|
  {
    if s != [] {
      FilterSorted(s[1..], p);
      var rest := Filter(s[1..], p);
      forall e | e in rest ensures CellLe(s[0], e) {
        var k :| 0 <= k < |s[1..]| && s[1..][k] == e;
        assert s[k + 1] == e;
      }
    }
  }

  /** Dropping repeated cells from a sorted column leaves it sorted. */
  lemma {:induction false} DedupSorted(s: seq<Cell>)
    requires Sorted(s)
    ensures Sorted(Dedup(s))
    decreases |s|
  {
    if s != [] {
      var init, x := s[..|s| - 1], s[|s| - 1];
      DedupSorted(init);
      var d := Dedup(init);
      forall e | e in d ensures CellLe(e, x) {
        var k :| 0 <= k < |init| && init[k] == e;
      }
      assert Sorted(d + [x]) by {
        forall i, j | 0 <= i < j < |d + [x]| ensures CellLe((d + [x])[i], (d + [x])[j]) {
          if j == |d| {
            assert (d + [x])[i] in d;
          }
        }
      }
    }
  }

  /** Two sorted columns, every cell of the first below every cell of the second, concatenate to a sorted column. */
  lemma SortedConcat(a: seq<Cell>, b: seq<Cell>)
    requires Sorted(a) && Sorted(b)
    requires forall x, y :: x in a && y in b ==> CellLe(x, y)
    ensures Sorted(a + b)
  {
    forall i, j | 0 <= i < j < |a + b| ensures CellLe((a + b)[i], (a + b)[j]) {
      if i < |a| && j >= |a| {
        assert (a + b)[i] == a[i] && (a + b)[j] == b[j - |a|];
      }
    }
  }

  /** Sorting keeps exactly the cells it was given. */
  lemma SortMembers(s: seq<Cell>, x: Cell)
    ensures x in Sort(s) <==> x in s
  {
    assert x in Sort(s) <==> x in multiset(Sort(s));
    assert x in s <==> x in multiset(s);
  }

  /** A column whose cells are all the same non-null cell is sorted. */
  lemma ConstantSorted(s: seq<Cell>, k: Cell)
    requires k.Some? && forall x :: x in s ==> x == k
    ensures Sorted(s)
  {
    forall i, j | 0 <= i < j < |s| ensures CellLe(s[i], s[j]) {
      assert s[i] in s && s[j] in s;
    }
  }
}
