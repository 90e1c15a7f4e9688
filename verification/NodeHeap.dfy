/** The heap of tree nodes in trees.c: heap[1..len] with the sons of position i at 2i and 2i + 1. */
module NodeHeap {
  function Key(key: seq<nat>, x: nat): nat { if x < |key| then key[x] else 0 }

  /** The smaller son of position k, the right one if they are equal. */
  function SmallerSon(a: seq<nat>, len: nat, k: nat, key: seq<nat>): (j: nat)
    requires 1 <= k && 2 * k <= len < |a|
    ensures j == 2 * k || j == 2 * k + 1 <= len
  {
    if 2 * k < len && Key(key, a[2 * k + 1]) <= Key(key, a[2 * k]) then 2 * k + 1 else 2 * k
  }

  /** pqdownheap: v sinks from the hole at k until it is no larger than its sons. */
  function SiftDown(a: seq<nat>, len: nat, k: nat, v: nat, key: seq<nat>): (r: seq<nat>)
    requires 1 <= k <= len < |a|
    ensures |r| == |a|
    decreases len - k
  {
    if 2 * k > len then a[k := v]
    else
      var j := SmallerSon(a, len, k, key);
      if Key(key, v) <= Key(key, a[j]) then a[k := v] else SiftDown(a[k := a[j]], len, j, v, key)
  }

  /** From position lo on, fathers are no larger than their sons. */
  ghost predicate HeapFrom(a: seq<nat>, len: nat, lo: nat, key: seq<nat>) {
    len < |a| && forall i | 2 <= i <= len && i / 2 >= lo :: Key(key, a[i / 2]) <= Key(key, a[i])
  }

  /** A heap but for the hole at k, in which v may be put without disturbing its father. */
  ghost predicate HeapWithHole(a: seq<nat>, len: nat, lo: nat, k: nat, v: nat, key: seq<nat>) {
    && 1 <= lo <= k <= len < |a|
    && (forall i | 2 <= i <= len && i / 2 >= lo && i / 2 != k && i != k :: Key(key, a[i / 2]) <= Key(key, a[i]))
    && (k / 2 >= lo ==>
          && Key(key, a[k / 2]) <= Key(key, v)
          && (forall i | 2 <= i <= len && i / 2 == k :: Key(key, a[k / 2]) <= Key(key, a[i])))
  }

  lemma {:induction false} SiftRestores(a: seq<nat>, len: nat, lo: nat, k: nat, v: nat, key: seq<nat>)
    requires HeapWithHole(a, len, lo, k, v, key)
    ensures HeapFrom(SiftDown(a, len, k, v, key), len, lo, key)
    decreases len - k
  {
    if 2 * k <= len {
      var j := SmallerSon(a, len, k, key);
      if Key(key, v) > Key(key, a[j]) {
        HoleMoves(a, len, lo, k, v, key);
        SiftRestores(a[k := a[j]], len, lo, j, v, key);
      } else {
        FillHole(a, len, lo, k, v, key);
      }
    } else {
      FillHole(a, len, lo, k, v, key);
    }
  }

  lemma HoleMoves(a: seq<nat>, len: nat, lo: nat, k: nat, v: nat, key: seq<nat>)
    requires HeapWithHole(a, len, lo, k, v, key) && 2 * k <= len
    requires Key(key, v) > Key(key, a[SmallerSon(a, len, k, key)])
    ensures var j := SmallerSon(a, len, k, key); HeapWithHole(a[k := a[j]], len, lo, j, v, key)
  {
    var j := SmallerSon(a, len, k, key);
    var b := a[k := a[j]];
    assert j / 2 == k;
    forall i | 2 <= i <= len && i / 2 >= lo && i / 2 != j && i != j ensures Key(key, b[i / 2]) <= Key(key, b[i]) {
      if i == k { assert Key(key, a[k / 2]) <= Key(key, a[j]); }
    }
    forall i | 2 <= i <= len && i / 2 == j ensures Key(key, b[k]) <= Key(key, b[i]) {
      assert i / 2 != k && i != k;
    }
  }

  lemma FillHole(a: seq<nat>, len: nat, lo: nat, k: nat, v: nat, key: seq<nat>)
    requires HeapWithHole(a, len, lo, k, v, key)
    requires 2 * k <= len ==> Key(key, v) <= Key(key, a[SmallerSon(a, len, k, key)])
    ensures HeapFrom(a[k := v], len, lo, key)
  {
  }

  /** Sinking the node at k into a heap that starts just after it. */
  lemma SinkRestores(a: seq<nat>, len: nat, k: nat, key: seq<nat>)
    requires HeapFrom(a, len, k + 1, key) && 1 <= k <= len
    ensures HeapFrom(SiftDown(a, len, k, a[k], key), len, k, key)
  {
    SiftRestores(a, len, k, k, a[k], key);
  }

  /** Putting another node in place of the least one. */
  lemma ReplaceRestores(a: seq<nat>, len: nat, v: nat, key: seq<nat>)
    requires 1 <= len < |a| && HeapFrom(a, len, 2, key)
    ensures HeapFrom(SiftDown(a, len, 1, v, key), len, 1, key)
  {
    SiftRestores(a, len, 1, 1, v, key);
  }

  /** The least node of a heap is at position 1. */
  lemma {:induction false} LeastFirst(a: seq<nat>, len: nat, i: nat, key: seq<nat>)
    requires HeapFrom(a, len, 1, key) && 1 <= i <= len
    ensures Key(key, a[1]) <= Key(key, a[i])
    decreases i
  {
    if i > 1 { LeastFirst(a, len, i / 2, key); }
  }

  // -- What the heap holds --------------------------------------------------------------------------------------

  ghost predicate Distinct(a: seq<nat>, len: nat) {
    len < |a| && forall i, j | 1 <= i < j <= len :: a[i] != a[j]
  }

  ghost predicate Holds(a: seq<nat>, len: nat, nodes: set<nat>) {
    && len < |a| && (forall i | 1 <= i <= len :: a[i] in nodes)
    && (forall x | x in nodes :: x in a[1..len + 1])
  }

  lemma HoldsAt(a: seq<nat>, len: nat, nodes: set<nat>, x: nat) returns (i: nat)
    requires Holds(a, len, nodes) && x in nodes
    ensures 1 <= i <= len && a[i] == x
  {
    var j :| 0 <= j < |a[1..len + 1]| && a[1..len + 1][j] == x;
    i := j + 1;
  }

  lemma HoldsIs(a: seq<nat>, len: nat, nodes: set<nat>)
    requires len < |a| && (forall i | 1 <= i <= len :: a[i] in nodes)
    requires forall x | x in nodes :: exists i :: 1 <= i <= len && a[i] == x
    ensures Holds(a, len, nodes)
  {
    forall x | x in nodes ensures x in a[1..len + 1] {
      var i :| 1 <= i <= len && a[i] == x;
      assert a[1..len + 1][i - 1] == x;
    }
  }

  /** Exchanging two positions. */
  lemma SwapHolds(a: seq<nat>, len: nat, k: nat, j: nat, nodes: set<nat>)
    requires Distinct(a, len) && Holds(a, len, nodes) && 1 <= k <= len && 1 <= j <= len
    ensures Distinct(a[k := a[j]][j := a[k]], len) && Holds(a[k := a[j]][j := a[k]], len, nodes)
  {
    var b := a[k := a[j]][j := a[k]];
    forall x | x in nodes ensures exists i :: 1 <= i <= len && b[i] == x {
      var i := HoldsAt(a, len, nodes, x);
      assert b[if i == k then j else if i == j then k else i] == x;
    }
    HoldsIs(b, len, nodes);
  }

  /** Sinking only permutes the heap, and touches nothing beyond it. */
  lemma {:induction false} SiftHolds(a: seq<nat>, len: nat, k: nat, v: nat, key: seq<nat>, nodes: set<nat>)
    requires 1 <= k <= len < |a| && Distinct(a[k := v], len) && Holds(a[k := v], len, nodes)
    ensures var r := SiftDown(a, len, k, v, key);
      Distinct(r, len) && Holds(r, len, nodes) && r[len + 1..] == a[len + 1..]
    decreases len - k
  {
    if 2 * k <= len {
      var j := SmallerSon(a, len, k, key);
      if Key(key, v) > Key(key, a[j]) {
        SwapHolds(a[k := v], len, k, j, nodes);
        assert a[k := v][k := a[j]][j := v] == a[k := a[j]][j := v];
        SiftHolds(a[k := a[j]], len, j, v, key, nodes);
      }
    }
  }
}
