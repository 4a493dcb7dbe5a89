/** Small shared vocabulary: optional values and the arithmetic of doubling delays. */
module Common {

  datatype Option<+T> = None | Some(value: T)

  function Pow2(n: nat): (p: nat)
    ensures p >= 1
  {
    if n == 0 then 1 else 2 * Pow2(n - 1)
  }

  /** The elements of `xs` that satisfy `keep`, in their original order. */
  function Filter<T(!new)>(keep: T -> bool, xs: seq<T>): (ys: seq<T>)
    ensures |ys| <= |xs|
    ensures forall y :: y in ys <==> y in xs && keep(y)
  {
    if xs == [] then []
    else if keep(xs[0]) then [xs[0]] + Filter(keep, xs[1..])
    else Filter(keep, xs[1..])
  }

  lemma {:induction false} FilterAppend<T(!new)>(keep: T -> bool, xs: seq<T>, ys: seq<T>)
    ensures Filter(keep, xs + ys) == Filter(keep, xs) + Filter(keep, ys)
  {
    if xs == [] {
      assert xs + ys == ys;
    } else {
      assert (xs + ys)[1..] == xs[1..] + ys;
      FilterAppend(keep, xs[1..], ys);
    }
  }

  lemma FilterSnoc<T(!new)>(keep: T -> bool, xs: seq<T>, x: T)
    ensures Filter(keep, xs + [x]) == Filter(keep, xs) + (if keep(x) then [x] else [])
  {
    FilterAppend(keep, xs, [x]);
    assert [x][1..] == [];
  }

  /** The places at which `keep` holds, ascending. */
  function Where<T(!new)>(keep: T -> bool, xs: seq<T>): (r: seq<nat>)
    ensures forall i | 0 <= i < |r| :: r[i] < |xs| && keep(xs[r[i]])
    ensures forall i, j | 0 <= i < j < |r| :: r[i] < r[j]
  {
    if xs == [] then []
    else
      var n := |xs| - 1;
      Where(keep, xs[..n]) + if keep(xs[n]) then [n] else []
  }

  lemma {:induction false} WhereIsAll<T(!new)>(keep: T -> bool, xs: seq<T>, k: nat)
    requires k < |xs| && keep(xs[k])
    ensures k in Where(keep, xs)
  {
    var n := |xs| - 1;
    if k < n {
      WhereIsAll(keep, xs[..n], k);
    }
  }

  lemma {:induction false} WhereIsFilter<T(!new)>(keep: T -> bool, xs: seq<T>)
    ensures |Filter(keep, xs)| == |Where(keep, xs)|
    ensures forall i | 0 <= i < |Where(keep, xs)| :: Filter(keep, xs)[i] == xs[Where(keep, xs)[i]]
  {
    if xs != [] {
      var n := |xs| - 1;
      WhereIsFilter(keep, xs[..n]);
      FilterSnoc(keep, xs[..n], xs[n]);
      assert xs[..n] + [xs[n]] == xs;
      hide Filter;
    }
  }

  /** `keep` holds at place `i` and nowhere else. */
  ghost predicate OnlyAt<T(!new)>(keep: T -> bool, xs: seq<T>, i: nat) {
    i < |xs| && keep(xs[i]) && forall j | 0 <= j < |xs| && j != i :: !keep(xs[j])
  }

  /** One element is left exactly when `keep` holds at one place. */
  lemma FilterLeavesOne<T(!new)>(keep: T -> bool, xs: seq<T>)
    ensures |Filter(keep, xs)| == 1 <==> exists i: nat :: OnlyAt(keep, xs, i)
    ensures forall i: nat :: OnlyAt(keep, xs, i) ==> Filter(keep, xs) == [xs[i]]
  {
    var r := Where(keep, xs);
    WhereIsFilter(keep, xs);
    hide Filter;
    forall i: nat | OnlyAt(keep, xs, i)
      ensures |r| == 1 && r[0] == i && Filter(keep, xs) == [xs[i]]
    {
      WhereIsAll(keep, xs, i);
      if |r| != 1 { NotAllSame(r, i); }
    }
    if |r| == 1 {
      forall j: nat | j < |xs| && keep(xs[j]) ensures j == r[0] { WhereIsAll(keep, xs, j); }
      assert OnlyAt(keep, xs, r[0]);
    }
  }

  lemma NotAllSame(r: seq<nat>, i: nat)
    requires i in r && |r| != 1
    requires forall a, b | 0 <= a < b < |r| :: r[a] < r[b]
    ensures exists a :: 0 <= a < |r| && r[a] != i
  {
    assert r[0] < r[1];
  }

  /** Adding one more element to either side of a partition. */
  lemma OneMore<T>(left: seq<T>, right: seq<T>, all: seq<T>, x: T)
    requires multiset(left) + multiset(right) == multiset(all)
    ensures multiset(left + [x]) + multiset(right) == multiset(all + [x])
    ensures multiset(left) + multiset(right + [x]) == multiset(all + [x])
  {
  }

  /** Two complementary filters share out the elements. */
  lemma {:induction false} FilterPartition<T(!new)>(keep: T -> bool, drop: T -> bool, xs: seq<T>)
    requires forall x | x in xs :: keep(x) != drop(x)
    ensures multiset(Filter(keep, xs)) + multiset(Filter(drop, xs)) == multiset(xs)
    ensures |Filter(keep, xs)| + |Filter(drop, xs)| == |xs|
  {
    if xs != [] {
      var n := |xs| - 1;
      var before, x := xs[..n], xs[n];
      FilterPartition(keep, drop, before);
      FilterSnoc(keep, before, x);
      FilterSnoc(drop, before, x);
      hide *;
      assert xs == before + [x];
      OneMore(Filter(keep, before), Filter(drop, before), before, x);
    }
  }
}
