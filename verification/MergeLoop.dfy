/** The loop of build_tree that merges the two least roots, seen through the arrays it reads and writes. */
module MergeLoop {
  import opened Kraft
  import opened HuffmanOptimal
  import opened NodeHeap
  import opened HuffmanTree

  /** The roots: numbered below `bound`, with positive frequencies and one-byte depths. */
  ghost predicate GoodNodes(nodes: set<nat>, w: seq<nat>, depth: seq<nat>, bound: nat) {
    bound <= |w| <= |depth| && forall x | x in nodes :: x < bound && w[x] > 0 && depth[x] < 256
  }

  /** The heap holds the given nodes. */
  ghost predicate HeapOf(hp: seq<nat>, len: nat, nodes: set<nat>, w: seq<nat>, depth: seq<nat>) {
    && |w| <= |depth| && Distinct(hp, len) && Holds(hp, len, nodes) && HeapFrom(hp, len, 1, Keys(w, depth))
  }

  // -- The heap's side --------------------------------------------------------------------------------------------

  lemma KeyOrder(w: seq<nat>, depth: seq<nat>, x: nat, y: nat)
    requires x < |w| <= |depth| && y < |w| && Key(Keys(w, depth), x) <= Key(Keys(w, depth), y)
    ensures w[x] <= w[y]
  {
  }

  /** The node at the top has the least frequency. */
  lemma TopIsLeast(hp: seq<nat>, len: nat, nodes: set<nat>, w: seq<nat>, depth: seq<nat>, bound: nat)
    requires HeapOf(hp, len, nodes, w, depth) && GoodNodes(nodes, w, depth, bound) && 1 <= len
    ensures hp[1] in nodes && forall x | x in nodes :: w[hp[1]] <= w[x]
  {
    forall x | x in nodes ensures w[hp[1]] <= w[x] {
      var i := HoldsAt(hp, len, nodes, x);
      LeastFirst(hp, len, i, Keys(w, depth));
      KeyOrder(w, depth, hp[1], x);
    }
  }

  /** Replacing the top by the last node. */
  lemma PopHolds(hp: seq<nat>, len: nat, nodes: set<nat>)
    requires Distinct(hp, len) && Holds(hp, len, nodes) && 2 <= len
    ensures Distinct(hp[1 := hp[len]], len - 1) && Holds(hp[1 := hp[len]], len - 1, nodes - {hp[1]})
  {
    var b := hp[1 := hp[len]];
    forall x | x in nodes - {hp[1]} ensures exists i :: 1 <= i <= len - 1 && b[i] == x {
      var i := HoldsAt(hp, len, nodes, x);
      assert b[if i == len then 1 else i] == x;
    }
    HoldsIs(b, len - 1, nodes - {hp[1]});
  }

  /** pqremove. */
  lemma PopHeap(hp: seq<nat>, len: nat, nodes: set<nat>, w: seq<nat>, depth: seq<nat>)
    requires HeapOf(hp, len, nodes, w, depth) && 2 <= len
    ensures var r := SiftDown(hp[1 := hp[len]], len - 1, 1, hp[len], Keys(w, depth));
      HeapOf(r, len - 1, nodes - {hp[1]}, w, depth) && r[len..] == hp[len..]
  {
    var key, b := Keys(w, depth), hp[1 := hp[len]];
    PopHolds(hp, len, nodes);
    assert b[1 := hp[len]] == b;
    hide Distinct, Holds, Keys;
    SiftHolds(b, len - 1, 1, hp[len], key, nodes - {hp[1]});
    ReplaceRestores(b, len - 1, hp[len], key);
  }

  lemma PushHolds(hp: seq<nat>, len: nat, nodes: set<nat>, v: nat)
    requires Distinct(hp, len) && Holds(hp, len, nodes) && 1 <= len && v !in nodes
    ensures Distinct(hp[1 := v], len) && Holds(hp[1 := v], len, nodes - {hp[1]} + {v})
  {
    var b := hp[1 := v];
    forall x | x in nodes - {hp[1]} + {v} ensures exists i :: 1 <= i <= len && b[i] == x {
      if x == v {
        assert b[1] == x;
      } else {
        var i := HoldsAt(hp, len, nodes, x);
        assert b[i] == x;
      }
    }
    HoldsIs(b, len, nodes - {hp[1]} + {v});
  }

  /** The keys of the nodes in the heap may not change; that of the new one may. */
  lemma SameHeap(hp: seq<nat>, hp': seq<nat>, len: nat, nodes: set<nat>, key: seq<nat>, key': seq<nat>)
    requires HeapFrom(hp, len, 1, key) && Holds(hp, len, nodes) && |hp'| == |hp| && forall i | 2 <= i <= len ::
             hp'[i] == hp[i]
    requires forall x | x in nodes :: Key(key', x) == Key(key, x)
    ensures HeapFrom(hp', len, 2, key')
  {
  }

  /** Putting the new node in place of the top. */
  lemma PushHeap(hp: seq<nat>, hp': seq<nat>, len: nat, nodes: set<nat>, w: seq<nat>, depth: seq<nat>, w': seq<nat>,
                 depth': seq<nat>, v: nat)
    requires HeapOf(hp, len, nodes, w, depth) && 1 <= len && v !in nodes && |w'| == |w| && |depth'| == |depth|
    requires forall x | x in nodes :: x < |w| && w'[x] == w[x] && depth'[x] == depth[x]
    requires |hp'| == |hp| && forall i | 1 <= i <= len :: hp'[i] == hp[i]
    ensures var r := SiftDown(hp'[1 := v], len, 1, v, Keys(w', depth'));
      HeapOf(r, len, nodes - {hp[1]} + {v}, w', depth') && r[len + 1..] == hp'[len + 1..]
  {
    var key, key' := Keys(w, depth), Keys(w', depth');
    SameHeap(hp, hp'[1 := v], len, nodes, key, key');
    assert Distinct(hp', len);
    HoldsPrefix(hp, hp', len, nodes);
    PushHolds(hp', len, nodes, v);
    assert hp'[1 := v][1 := v] == hp'[1 := v];
    hide Distinct, Holds, Keys, HeapFrom;
    SiftHolds(hp'[1 := v], len, 1, v, key', nodes - {hp[1]} + {v});
    ReplaceRestores(hp'[1 := v], len, v, key');
  }

  lemma HoldsPrefix(hp: seq<nat>, hp': seq<nat>, len: nat, nodes: set<nat>)
    requires Holds(hp, len, nodes) && |hp'| == |hp| && forall i | 1 <= i <= len :: hp'[i] == hp[i]
    ensures Holds(hp', len, nodes)
  {
    assert hp'[1..len + 1] == hp[1..len + 1];
  }

  // -- The tree's side --------------------------------------------------------------------------------------------

  lemma {:induction false} RootsPrefix(leaves: set<nat>, popped: seq<nat>, popped': seq<nat>, first: nat, k: nat)
    requires 2 * k <= |popped| && popped <= popped'
    ensures Roots(leaves, popped', first, k) == Roots(leaves, popped, first, k)
  {
    if k > 0 { RootsPrefix(leaves, popped, popped', first, k - 1); }
  }

  lemma LeastSame(a: set<nat>, w: seq<nat>, w': seq<nat>, n: nat, m: nat)
    requires Least(a, w, n, m) && |w'| == |w| && forall x | x in a && x < |w| :: w'[x] == w[x]
    ensures Least(a, w', n, m)
  {
  }

  /** One more merge. */
  lemma MergesExtend(leaves: set<nat>, popped: seq<nat>, w: seq<nat>, w': seq<nat>, first: nat, k: nat, n: nat, m: nat)
    requires Merges(leaves, popped, w, first, k) && |popped| == 2 * k && first + k < |w| == |w'|
    requires forall x: nat | x < first + k :: w'[x] == w[x]
    requires Least(Roots(leaves, popped, first, k), w, n, m) && w'[first + k] == w[n] + w[m]
    ensures Merges(leaves, popped + [n, m], w', first, k + 1)
    ensures Roots(leaves, popped + [n, m], first, k + 1) == Roots(leaves, popped, first, k) - {n, m} + {first + k}
  {
    var popped' := popped + [n, m];
    RootsPrefix(leaves, popped, popped', first, k);
    forall j | 0 <= j < k + 1 ensures MergesAt(leaves, popped', w', first, j) {
      RootsBelow(leaves, popped', first, j);
      if j < k {
        assert MergesAt(leaves, popped, w, first, j);
        RootsPrefix(leaves, popped, popped', first, j);
      }
      var a := Roots(leaves, popped', first, j);
      hide Roots;
      LeastSame(a, w, w', popped'[2 * j], popped'[2 * j + 1]);
    }
  }
}
