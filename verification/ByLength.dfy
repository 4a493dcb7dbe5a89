/** Sorting texts longest first, equally long ones in their given order: the result is a list of positions. */
module ByLength {

  predicate Places(order: seq<nat>, n: nat) {
    forall y | 0 <= y < |order| :: order[y] < n
  }

  function Insert(i: nat, order: seq<nat>, texts: seq<string>): (r: seq<nat>)
    requires i < |texts| && Places(order, |texts|)
    ensures Places(r, |texts|)
    ensures forall k :: k in r <==> k == i || k in order
  {
    if order == [] || |texts[order[0]]| <= |texts[i]| then [i] + order
    else [order[0]] + Insert(i, order[1..], texts)
  }

  /** The positions from `n` on, longer texts first, equally long ones as given. */
  function LongestFirst(texts: seq<string>, n: nat): (r: seq<nat>)
    requires n <= |texts|
    ensures Places(r, |texts|)
    ensures forall k :: k in r <==> n <= k < |texts|
    decreases |texts| - n
  {
    if n == |texts| then [] else Insert(n, LongestFirst(texts, n + 1), texts)
  }

  predicate Sooner(texts: seq<string>, a: nat, b: nat)
    requires a < |texts| && b < |texts|
  {
    |texts[a]| > |texts[b]| || (|texts[a]| == |texts[b]| && a < b)
  }

  ghost predicate Ordered(texts: seq<string>, order: seq<nat>) {
    && Places(order, |texts|)
    && (forall x, y | 0 <= x < y < |order| :: Sooner(texts, order[x], order[y]))
  }

  lemma {:induction false} InsertKeepsOrder(i: nat, order: seq<nat>, texts: seq<string>)
    requires i < |texts| && Ordered(texts, order) && forall k | k in order :: i < k
    ensures Ordered(texts, Insert(i, order, texts))
  {
    if order == [] || |texts[order[0]]| <= |texts[i]| {
      forall y | 0 <= y < |order| ensures Sooner(texts, i, order[y]) {
        assert order[y] in order;
        assert y > 0 ==> Sooner(texts, order[0], order[y]);
      }
    } else {
      assert forall k | k in order[1..] :: k in order;
      InsertKeepsOrder(i, order[1..], texts);
      var r := Insert(i, order[1..], texts);
      forall z | 0 <= z < |r| ensures Sooner(texts, order[0], r[z]) {
        assert r[z] in r;
        if r[z] != i {
          var y :| 0 <= y < |order[1..]| && order[1..][y] == r[z];
          assert Sooner(texts, order[0], order[y + 1]);
        } else {
          assert order[0] in order;
        }
      }
    }
  }

  /** The order is the stable one. */
  lemma {:induction false} LongestFirstIsOrdered(texts: seq<string>, n: nat)
    requires n <= |texts|
    ensures Ordered(texts, LongestFirst(texts, n))
    decreases |texts| - n
  {
    if n < |texts| {
      LongestFirstIsOrdered(texts, n + 1);
      InsertKeepsOrder(n, LongestFirst(texts, n + 1), texts);
    }
  }
}
