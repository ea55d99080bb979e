/**
 * Tables as sequences of typed rows, and the whole-table operations the
 * reconciliation code performs on pandas DataFrames: boolean-mask filters,
 * `drop_duplicates`, and `merge(how='left')` followed by a null test on the
 * right-hand Id (an anti-join) or a not-null test on a right-hand column (an
 * inner join).
 */
module Tables {
  import opened Wrappers

  /** One cell of a table read from CSV or from the CRM: text, or null (NaN). */
  type Cell = Option<string>

  /** Record-type Id of food-donor accounts, hard-coded in uploadFoodRescues. */
  const DonorTypeId: string := "0123t000000YYv2AAG"
  /** Record-type Id of nonprofit-partner accounts. */
  const PartnerTypeId: string := "0123t000000YYv3AAG"
  /** Id of the account every volunteer contact belongs to. */
  const VolunteersAccountId: string := "0013t00001teMBwAAM"

  /** Applies `f` to every row (a column expression evaluated row by row). */
  function Map<T(!new), U>(s: seq<T>, f: T -> U): (r: seq<U>)
    ensures |r| == |s|
    ensures forall i :: 0 <= i < |s| ==> r[i] == f(s[i])
  {
    seq(|s|, i requires 0 <= i < |s| => f(s[i]))
  }

  /** A value is in the mapped table exactly when some row maps to it. */
  lemma MapMembers<T(!new), U>(s: seq<T>, f: T -> U, y: U)
    ensures y in Map(s, f) <==> exists x :: x in s && f(x) == y
  {
    if y in Map(s, f) {
      var i :| 0 <= i < |s| && Map(s, f)[i] == y;
      assert s[i] in s;
    }
    if exists x :: x in s && f(x) == y {
      var x :| x in s && f(x) == y;
      var i :| 0 <= i < |s| && s[i] == x;
      assert Map(s, f)[i] == y;
    }
  }

  lemma MapAppend<T(!new), U>(a: seq<T>, b: seq<T>, f: T -> U)
    ensures Map(a + b, f) == Map(a, f) + Map(b, f)
  {
    assert forall i :: 0 <= i < |a + b| ==> Map(a + b, f)[i] == (Map(a, f) + Map(b, f))[i];
  }

  /** The rows of `s` that satisfy `p`, in their original order (`df[mask]`). */
  function Filter<T(!new)>(s: seq<T>, p: T -> bool): (r: seq<T>)
    ensures |r| <= |s|
    ensures forall x :: x in r <==> x in s && p(x)
  {
    if s == [] then [] else (if p(s[0]) then [s[0]] else []) + Filter(s[1..], p)
  }

  lemma {:induction false} FilterAppend<T(!new)>(a: seq<T>, b: seq<T>, p: T -> bool)
    ensures Filter(a + b, p) == Filter(a, p) + Filter(b, p)
    decreases |a|
  {
    if a == [] {
      assert a + b == b;
    } else {
      assert (a + b)[1..] == a[1..] + b;
      FilterAppend(a[1..], b, p);
    }
  }

  /** Filtering a table grown by one row. */
  lemma FilterSnoc<T(!new)>(s: seq<T>, x: T, p: T -> bool)
    ensures Filter(s + [x], p) == Filter(s, p) + (if p(x) then [x] else [])
  {
    FilterAppend(s, [x], p);
    assert Filter([x], p) == (if p(x) then [x] else []) + Filter([], p);
  }

  /** A filter keeps how many times each kept row occurs. */
  lemma {:induction false} FilterCount<T(!new)>(s: seq<T>, p: T -> bool, x: T)
    ensures multiset(Filter(s, p))[x] == if p(x) then multiset(s)[x] else 0
    decreases |s|
  {
    if s != [] {
      FilterCount(s[1..], p, x);
      assert s == [s[0]] + s[1..];
    }
  }

  /** No row occurs twice. */
  predicate NoDuplicates<T(==,!new)>(s: seq<T>) {
    forall i, j :: 0 <= i < j < |s| ==> s[i] != s[j]
  }

  /**
   * `drop_duplicates()`: the first occurrence of every distinct row, in the
   * order of first occurrence.
   */
  function Dedup<T(==,!new)>(s: seq<T>): (r: seq<T>)
    ensures NoDuplicates(r)
    ensures forall x :: x in r <==> x in s
    ensures |r| <= |s|
    decreases |s|
  {
    if s == [] then []
    else
      var d := Dedup(s[..|s| - 1]);
      assert s == s[..|s| - 1] + [s[|s| - 1]];
      if s[|s| - 1] in d then d else d + [s[|s| - 1]]
  }

  /** The rows of `right` whose key is `k`, in order: the partners of one left row in a merge. */
  function Lookup<R(!new), K(==)>(k: K, right: seq<R>, rk: R -> K): (ms: seq<R>)
    ensures |ms| <= |right|
    ensures forall r :: r in ms <==> r in right && rk(r) == k
    ensures ms == [] <==> forall r :: r in right ==> rk(r) != k
  {
    if right == [] then []
    else (if rk(right[0]) == k then [right[0]] else []) + Lookup(k, right[1..], rk)
  }

  /** No two rows of `right` carry the same key. */
  predicate KeysUnique<R(!new), K(==)>(right: seq<R>, rk: R -> K) {
    forall i, j :: 0 <= i < j < |right| ==> rk(right[i]) != rk(right[j])
  }

  lemma {:induction false} LookupOfUniqueKeys<R(!new), K>(k: K, right: seq<R>, rk: R -> K)
    requires KeysUnique(right, rk)
    ensures |Lookup(k, right, rk)| <= 1
    decreases |right|
  {
    if right != [] {
      assert KeysUnique(right[1..], rk) by {
        forall i, j | 0 <= i < j < |right[1..]| ensures rk(right[1..][i]) != rk(right[1..][j]) {
          assert right[1..][i] == right[i + 1] && right[1..][j] == right[j + 1];
        }
      }
      LookupOfUniqueKeys(k, right[1..], rk);
      if rk(right[0]) == k {
        forall r | r in right[1..] ensures rk(r) != k {
          var j :| 0 <= j < |right[1..]| && right[1..][j] == r;
          assert right[j + 1] == r;
        }
        assert Lookup(k, right[1..], rk) == [];
      }
    }
  }

  /** The one partner a lookup found, or None when it found none. */
  function FirstOf<R>(ms: seq<R>): Option<R> {
    if ms == [] then None else Some(ms[0])
  }

  /** One left row paired with each of its partners, in order. */
  function PairsWith<L(!new), R(!new)>(l: L, ms: seq<R>): (ps: seq<(L, Option<R>)>)
    ensures |ps| == |ms|
    ensures forall p :: p in ps <==> p.0 == l && p.1.Some? && p.1.value in ms
  {
    if ms == [] then [] else [(l, Some(ms[0]))] + PairsWith(l, ms[1..])
  }

  /** The merge output for one left row: its partners, or one row with a null right side. */
  function Pairs<L(!new), R(!new)>(l: L, ms: seq<R>): (ps: seq<(L, Option<R>)>)
    ensures |ps| == if ms == [] then 1 else |ms|
  {
    if ms == [] then [(l, None)] else PairsWith(l, ms)
  }

  /**
   * pandas' `merge(left, right, how='left')`: every left row, in order, paired
   * with each right row carrying its key (in right order), or with None when
   * no right row does.
   */
  function LeftJoin<L(!new), R(!new), K(==)>(left: seq<L>, right: seq<R>, lk: L -> K, rk: R -> K): (j: seq<(L, Option<R>)>)
    ensures |j| >= |left|
  {
    if left == [] then []
    else Pairs(left[0], Lookup(lk(left[0]), right, rk)) + LeftJoin(left[1..], right, lk, rk)
  }

  /** The merge rows of one left row: its partners, or itself with a null right side. */
  lemma PairedIn<L(!new), R(!new)>(l0: L, ms: seq<R>, l: L, r: R)
    ensures (l, Some(r)) in Pairs(l0, ms) <==> l == l0 && r in ms
  {
  }

  lemma UnpairedIn<L(!new), R(!new)>(l0: L, ms: seq<R>, l: L)
    ensures (l, None) in Pairs(l0, ms) <==> l == l0 && ms == []
  {
  }

  /** A left join pairs a left row with a right row exactly when their keys agree. */
  lemma {:induction false} LeftJoinPairs<L(!new), R(!new), K>(left: seq<L>, right: seq<R>, lk: L -> K, rk: R -> K, l: L, r: R)
    ensures (l, Some(r)) in LeftJoin(left, right, lk, rk) <==> l in left && r in right && rk(r) == lk(l)
    decreases |left|
  {
    if left != [] {
      LeftJoinPairs(left[1..], right, lk, rk, l, r);
      var ms := Lookup(lk(left[0]), right, rk);
      var head := Pairs(left[0], ms);
      var tail := LeftJoin(left[1..], right, lk, rk);
      assert LeftJoin(left, right, lk, rk) == head + tail;
      var p := (l, Some(r));
      PairedIn(left[0], ms, l, r);
      assert p in head + tail <==> p in head || p in tail;
      assert p in head <==> l == left[0] && r in right && rk(r) == lk(l);
      assert l in left <==> l == left[0] || l in left[1..];
    }
  }

  /** A left join leaves a left row unpaired exactly when no right row carries its key. */
  lemma {:induction false} LeftJoinUnpaired<L(!new), R(!new), K>(left: seq<L>, right: seq<R>, lk: L -> K, rk: R -> K, l: L)
    ensures (l, None) in LeftJoin(left, right, lk, rk) <==> l in left && Lookup(lk(l), right, rk) == []
    decreases |left|
  {
    if left != [] {
      LeftJoinUnpaired(left[1..], right, lk, rk, l);
      var ms := Lookup(lk(left[0]), right, rk);
      var head := Pairs(left[0], ms);
      var tail := LeftJoin(left[1..], right, lk, rk);
      assert LeftJoin(left, right, lk, rk) == head + tail;
      var p: (L, Option<R>) := (l, None);
      UnpairedIn(left[0], ms, l);
      assert p in head + tail <==> p in head || p in tail;
      assert l in left <==> l == left[0] || l in left[1..];
    }
  }

  /** Every row of a left join carries a row of the left table. */
  lemma {:induction false} LeftJoinLeftRows<L(!new), R(!new), K>(left: seq<L>, right: seq<R>, lk: L -> K, rk: R -> K)
    ensures forall p :: p in LeftJoin(left, right, lk, rk) ==> p.0 in left
    decreases |left|
  {
    if left != [] {
      LeftJoinLeftRows(left[1..], right, lk, rk);
      var ms := Lookup(lk(left[0]), right, rk);
      var head := Pairs(left[0], ms);
      var tail := LeftJoin(left[1..], right, lk, rk);
      assert LeftJoin(left, right, lk, rk) == head + tail;
      forall p: (L, Option<R>) | p in head + tail ensures p.0 in left {
        if p in head {
          if ms == [] {
            assert head == [(left[0], None)];
          }
          assert p.0 == left[0];
        } else {
          assert p in tail;
          assert p.0 in left[1..];
        }
      }
    }
  }

  /** When every left row has at most one partner, the merge keeps the left rows one for one. */
  lemma {:induction false} LeftJoinAtMostOne<L(!new), R(!new), K>(left: seq<L>, right: seq<R>, lk: L -> K, rk: R -> K)
    requires forall i :: 0 <= i < |left| ==> |Lookup(lk(left[i]), right, rk)| <= 1
    ensures |LeftJoin(left, right, lk, rk)| == |left|
    ensures forall i :: 0 <= i < |left| ==>
      LeftJoin(left, right, lk, rk)[i] == (left[i], FirstOf(Lookup(lk(left[i]), right, rk)))
  {
    LeftJoinOneForOne(left, right, lk, rk);
    forall i | 0 <= i < |left|
      ensures LeftJoin(left, right, lk, rk)[i] == (left[i], FirstOf(Lookup(lk(left[i]), right, rk)))
    {
      LeftJoinAt(left, right, lk, rk, i);
    }
  }

  lemma {:induction false} LeftJoinOneForOne<L(!new), R(!new), K>(left: seq<L>, right: seq<R>, lk: L -> K, rk: R -> K)
    requires forall i :: 0 <= i < |left| ==> |Lookup(lk(left[i]), right, rk)| <= 1
    ensures |LeftJoin(left, right, lk, rk)| == |left|
    decreases |left|
  {
    if left != [] {
      assert forall i :: 0 <= i < |left[1..]| ==> left[1..][i] == left[i + 1];
      LeftJoinOneForOne(left[1..], right, lk, rk);
      PairsOfAtMostOne(left[0], Lookup(lk(left[0]), right, rk));
    }
  }

  lemma {:induction false} LeftJoinAt<L(!new), R(!new), K>(left: seq<L>, right: seq<R>, lk: L -> K, rk: R -> K, i: nat)
    requires forall i :: 0 <= i < |left| ==> |Lookup(lk(left[i]), right, rk)| <= 1
    requires i < |left|
    ensures |LeftJoin(left, right, lk, rk)| == |left|
    ensures LeftJoin(left, right, lk, rk)[i] == (left[i], FirstOf(Lookup(lk(left[i]), right, rk)))
    decreases |left|
  {
    LeftJoinOneForOne(left, right, lk, rk);
    var ms := Lookup(lk(left[0]), right, rk);
    PairsOfAtMostOne(left[0], ms);
    var tail := LeftJoin(left[1..], right, lk, rk);
    assert LeftJoin(left, right, lk, rk) == [(left[0], FirstOf(ms))] + tail;
    if i > 0 {
      assert forall k :: 0 <= k < |left[1..]| ==> left[1..][k] == left[k + 1];
      LeftJoinAt(left[1..], right, lk, rk, i - 1);
      assert left[1..][i - 1] == left[i];
    }
  }

  lemma PairsOfAtMostOne<L(!new), R(!new)>(l: L, ms: seq<R>)
    requires |ms| <= 1
    ensures Pairs(l, ms) == [(l, FirstOf(ms))]
  {
    if ms != [] {
      assert Pairs(l, ms) == PairsWith(l, ms) == [(l, Some(ms[0]))] + PairsWith(l, ms[1..]);
    }
  }

  /**
   * The left rows a left join paired with nothing: `df[df['Id'].isnull()]`
   * after the merge, with the right-hand columns dropped.
   */
  function Unmatched<L(!new), R(!new)>(j: seq<(L, Option<R>)>): (u: seq<L>)
    ensures |u| <= |j|
  {
    if j == [] then [] else (if j[0].1.None? then [j[0].0] else []) + Unmatched(j[1..])
  }

  lemma {:induction false} UnmatchedAppend<L(!new), R(!new)>(a: seq<(L, Option<R>)>, b: seq<(L, Option<R>)>)
    ensures Unmatched(a + b) == Unmatched(a) + Unmatched(b)
    decreases |a|
  {
    if a == [] {
      assert a + b == b;
    } else {
      var h := if a[0].1.None? then [a[0].0] else [];
      assert (a + b)[0] == a[0];
      assert (a + b)[1..] == a[1..] + b;
      assert Unmatched(a + b) == h + Unmatched(a[1..] + b);
      UnmatchedAppend(a[1..], b);
      assert Unmatched(a) == h + Unmatched(a[1..]);
    }
  }

  lemma {:induction false} UnmatchedPairsWith<L(!new), R(!new)>(l: L, ms: seq<R>)
    ensures Unmatched(PairsWith(l, ms)) == []
    decreases |ms|
  {
    if ms != [] {
      UnmatchedPairsWith(l, ms[1..]);
    }
  }

  /** Reference anti-join: the left rows, in order, whose key no right row carries. */
  function WithoutMatch<L(!new), R(!new), K(==)>(left: seq<L>, right: seq<R>, lk: L -> K, rk: R -> K): (u: seq<L>)
    ensures |u| <= |left|
    ensures forall l :: l in u <==> l in left && forall r :: r in right ==> rk(r) != lk(l)
  {
    if left == [] then []
    else
      var ms := Lookup(lk(left[0]), right, rk);
      (if ms == [] then [left[0]] else []) + WithoutMatch(left[1..], right, lk, rk)
  }

  /** A left merge followed by a null test on the right side is exactly an anti-join. */
  lemma {:induction false} UnmatchedIsAntiJoin<L(!new), R(!new), K>(left: seq<L>, right: seq<R>, lk: L -> K, rk: R -> K)
    ensures Unmatched(LeftJoin(left, right, lk, rk)) == WithoutMatch(left, right, lk, rk)
    decreases |left|
  {
    if left != [] {
      var ms := Lookup(lk(left[0]), right, rk);
      UnmatchedAppend(Pairs(left[0], ms), LeftJoin(left[1..], right, lk, rk));
      UnmatchedIsAntiJoin(left[1..], right, lk, rk);
      if ms != [] {
        UnmatchedPairsWith(left[0], ms);
      }
    }
  }

  /** An anti-join is the filter that keeps the left rows whose key no right row carries. */
  lemma {:induction false} WithoutMatchIsFilter<L(!new), R(!new), K>(left: seq<L>, right: seq<R>, lk: L -> K, rk: R -> K, p: L -> bool)
    requires forall l :: l in left ==> (p(l) <==> forall r :: r in right ==> rk(r) != lk(l))
    ensures WithoutMatch(left, right, lk, rk) == Filter(left, p)
    decreases |left|
  {
    if left != [] {
      assert left[0] in left;
      assert forall l :: l in left[1..] ==> l in left;
      WithoutMatchIsFilter(left[1..], right, lk, rk, p);
    }
  }

  /**
   * The pairs a left join found a partner for: the merge followed by a
   * not-null test on a right-hand column that is never null.
   */
  function Matched<L(!new), R(!new)>(j: seq<(L, Option<R>)>): (m: seq<(L, R)>)
    ensures |m| <= |j|
    ensures forall l, r :: (l, r) in m <==> (l, Some(r)) in j
  {
    if j == [] then []
    else
      assert forall p :: p in j <==> p == j[0] || p in j[1..];
      (if j[0].1.Some? then [(j[0].0, j[0].1.value)] else []) + Matched(j[1..])
  }

  /** A left merge followed by a not-null test is an inner join. */
  lemma InnerJoin<L(!new), R(!new), K>(left: seq<L>, right: seq<R>, lk: L -> K, rk: R -> K)
    ensures forall l, r :: (l, r) in Matched(LeftJoin(left, right, lk, rk)) <==>
      l in left && r in right && rk(r) == lk(l)
  {
    forall l, r ensures (l, r) in Matched(LeftJoin(left, right, lk, rk)) <==> l in left && r in right && rk(r) == lk(l) {
      LeftJoinPairs(left, right, lk, rk, l, r);
    }
  }
}
