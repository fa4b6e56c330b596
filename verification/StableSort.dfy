/** Python's `sorted` with a numeric key: ascending, and stable. Positions are permuted rather than
    elements, so that equal rows stay told apart. */
module StableSort {
  import opened FiniteSets

  /** A sort key; `math.inf` ranks after every number. */
  datatype Key = Fin(value: real) | Inf

  predicate Less(a: Key, b: Key) {
    match (a, b)
    case (Fin(x), Fin(y)) => x < y
    case (Fin(_), Inf) => true
    case (Inf, _) => false
  }

  /** Position i goes before position j. */
  predicate Before(keys: seq<Key>, i: nat, j: nat)
    requires i < |keys| && j < |keys|
  {
    Less(keys[i], keys[j]) || (keys[i] == keys[j] && i < j)
  }

  ghost predicate IsStableOrder(keys: seq<Key>, order: seq<nat>) {
    && |order| == |keys|
    && (forall i :: 0 <= i < |order| ==> order[i] < |keys|)
    && (forall i, j :: 0 <= i < j < |order| ==> Before(keys, order[i], order[j]))
  }

  /** Put position n behind every position of `order` whose key is not greater. */
  function Insert(keys: seq<Key>, order: seq<nat>, n: nat): (r: seq<nat>)
    requires n < |keys| && forall i :: 0 <= i < |order| ==> order[i] < n
    ensures |r| == |order| + 1
    ensures forall i :: 0 <= i < |r| ==> r[i] == n || r[i] in order
    decreases |order|
  {
    if order == [] then [n]
    else if Less(keys[n], keys[order[|order| - 1]])
      then Insert(keys, order[..|order| - 1], n) + [order[|order| - 1]]
    else order + [n]
  }

  lemma {:induction false} InsertKeepsOrder(keys: seq<Key>, order: seq<nat>, n: nat)
    requires n < |keys| && forall i :: 0 <= i < |order| ==> order[i] < n
    requires forall i, j :: 0 <= i < j < |order| ==> Before(keys, order[i], order[j])
    ensures forall i, j :: 0 <= i < j <= |order| ==>
      Before(keys, Insert(keys, order, n)[i], Insert(keys, order, n)[j])
    decreases |order|
  {
    if order == [] {
    } else {
      var last := order[|order| - 1];
      var init := order[..|order| - 1];
      if Less(keys[n], keys[last]) {
        InsertKeepsOrder(keys, init, n);
        var r := Insert(keys, init, n);
        forall i | 0 <= i < |r| ensures Before(keys, r[i], last) {
          if r[i] != n {
            var k :| 0 <= k < |init| && init[k] == r[i];
            assert Before(keys, order[k], order[|order| - 1]);
          }
        }
      } else {
        forall i | 0 <= i < |order| ensures Before(keys, order[i], n) {
          assert i == |order| - 1 || Before(keys, order[i], order[|order| - 1]);
        }
      }
    }
  }

  function OrderUpTo(keys: seq<Key>, n: nat): (order: seq<nat>)
    requires n <= |keys|
    ensures |order| == n && forall i :: 0 <= i < n ==> order[i] < n
  {
    if n == 0 then [] else Insert(keys, OrderUpTo(keys, n - 1), n - 1)
  }

  function SortOrder(keys: seq<Key>): (order: seq<nat>)
    ensures |order| == |keys| && forall i :: 0 <= i < |keys| ==> order[i] < |keys|
  {
    OrderUpTo(keys, |keys|)
  }

  lemma {:induction false} OrderUpToIsStable(keys: seq<Key>, n: nat)
    requires n <= |keys|
    ensures forall i, j :: 0 <= i < j < n ==> Before(keys, OrderUpTo(keys, n)[i], OrderUpTo(keys, n)[j])
  {
    if n == 0 {
    } else {
      OrderUpToIsStable(keys, n - 1);
      InsertKeepsOrder(keys, OrderUpTo(keys, n - 1), n - 1);
    }
  }

  lemma SortOrderIsStable(keys: seq<Key>)
    ensures IsStableOrder(keys, SortOrder(keys))
  {
    OrderUpToIsStable(keys, |keys|);
  }

  /** A stable order reaches every position: |keys| distinct positions below |keys|. */
  lemma StableOrderIsOnto(keys: seq<Key>, order: seq<nat>, p: nat)
    requires IsStableOrder(keys, order) && p < |keys|
    ensures p in order
  {
    var all := Range(|keys|);
    var hit := set i | 0 <= i < |order| :: order[i];
    forall i, j | 0 <= i < j < |order| ensures order[i] != order[j] {
      assert Before(keys, order[i], order[j]);
    }
    DistinctImage(order, |order|);
    assert hit == set i | 0 <= i < |order| :: order[i];
    if p !in order {
      assert hit <= all - {p};
      SubsetSize(hit, all - {p});
      assert false;
    }
  }

  /** sorted(xs, key=...) given the keys. */
  function Permute<T>(xs: seq<T>, order: seq<nat>): (r: seq<T>)
    requires forall i :: 0 <= i < |order| ==> order[i] < |xs|
    ensures |r| == |order| && forall i :: 0 <= i < |r| ==> r[i] == xs[order[i]]
  {
    seq(|order|, i requires 0 <= i < |order| => xs[order[i]])
  }

  function Sorted<T>(xs: seq<T>, keys: seq<Key>): (r: seq<T>)
    requires |keys| == |xs|
    ensures |r| == |xs|
  {
    Permute(xs, SortOrder(keys))
  }

  lemma SortedIsPermutation<T>(xs: seq<T>, keys: seq<Key>)
    requires |keys| == |xs|
    ensures multiset(Sorted(xs, keys)) == multiset(xs)
  {
    OrderUpToPermutes(xs, keys, |xs|);
    assert xs[..|xs|] == xs;
  }

  lemma SnocMultiset<T>(xs: seq<T>, n: nat)
    requires n < |xs|
    ensures multiset(xs[..n + 1]) == multiset(xs[..n]) + multiset{xs[n]}
  {
    assert xs[..n + 1] == xs[..n] + [xs[n]];
  }

  lemma {:induction false} OrderUpToPermutes<T>(xs: seq<T>, keys: seq<Key>, n: nat)
    requires |keys| == |xs| && n <= |xs|
    ensures multiset(Permute(xs, OrderUpTo(keys, n))) == multiset(xs[..n])
  {
    if n == 0 {
    } else {
      var before := OrderUpTo(keys, n - 1);
      OrderUpToPermutes(xs, keys, n - 1);
      InsertPermutes(xs, keys, before, n - 1);
      SnocMultiset(xs, n - 1);
    }
  }

  lemma PermuteSnoc<T>(xs: seq<T>, order: seq<nat>, n: nat)
    requires n < |xs| && forall i :: 0 <= i < |order| ==> order[i] < |xs|
    ensures Permute(xs, order + [n]) == Permute(xs, order) + [xs[n]]
  {
  }

  lemma PermutePrefix<T>(xs: seq<T>, order: seq<nat>, n: nat)
    requires n <= |xs| && forall i :: 0 <= i < |order| ==> order[i] < n
    ensures Permute(xs[..n], order) == Permute(xs, order)
  {
  }

  lemma {:induction false} InsertPermutes<T>(xs: seq<T>, keys: seq<Key>, order: seq<nat>, n: nat)
    requires |keys| == |xs| && n < |xs| && forall i :: 0 <= i < |order| ==> order[i] < n
    ensures multiset(Permute(xs, Insert(keys, order, n))) == multiset(Permute(xs, order)) + multiset{xs[n]}
    decreases |order|
  {
    if order != [] && Less(keys[n], keys[order[|order| - 1]]) {
      var init, last := order[..|order| - 1], order[|order| - 1];
      InsertPermutes(xs, keys, init, n);
      assert order == init + [last];
      PermuteSnoc(xs, init, last);
      PermuteSnoc(xs, Insert(keys, init, n), last);
    } else {
      PermuteSnoc(xs, order, n);
    }
  }
}
