/** build_tree: from frequencies to the lengths of a full code. */
module BuildTree {
  import opened Kraft
  import opened HuffmanOptimal
  import opened TreeLengths
  import opened TreeDepth
  import opened BitLengths
  import opened NodeHeap
  import opened HuffmanTree
  import opened MergeLoop
  import opened TreeCodes
  import C = CanonicalCode
  import G = GenCodes

  // -- The merge loop -------------------------------------------------------------------------------------------

  /** After k merges: the heap holds the roots, the nodes popped so far fill the heap array from its end. */
  ghost predicate MergeState(hp: seq<nat>, len: nat, heapMax: nat, leaves: set<nat>, popped: seq<nat>, w: seq<nat>,
                             depth: seq<nat>,
                             dl: seq<nat>, first: nat, k: nat, total: int) {
    && |hp| == HEAP_SIZE == heapMax + 2 * k && popped == Popped(hp, heapMax)
    && |leaves| == len + k && 1 <= len && |leaves| <= 286 && first + |leaves| <= |w| == |dl| <= |depth|
    && Merges(leaves, popped, w, first, k)
    && HeapOf(hp, len, Roots(leaves, popped, first, k), w, depth)
    && GoodNodes(Roots(leaves, popped, first, k), w, depth, first + k)
    && Sum(Roots(leaves, popped, first, k), w) == total
    && Dads(popped, dl, first)
    && (forall x | x in leaves :: x < first && w[x] > 0)
  }

  /** The arrays after one more merge. */
  function PoppedHeap(hp: seq<nat>, len: nat, w: seq<nat>, depth: seq<nat>): (r: seq<nat>)
    requires 2 <= len < |hp| && |w| <= |depth|
    ensures |r| == |hp|
  {
    SiftDown(hp[1 := hp[len]], len - 1, 1, hp[len], Keys(w, depth))
  }

  lemma MergeHeap(hp: seq<nat>, len: nat, heapMax: nat, leaves: set<nat>, popped: seq<nat>, w: seq<nat>,
                  depth: seq<nat>,
                  dl: seq<nat>, first: nat, k: nat, total: int)
    requires MergeState(hp, len, heapMax, leaves, popped, w, depth, dl, first, k, total) && 2 <= len
    ensures var a := Roots(leaves, popped, first, k); var r := PoppedHeap(hp, len, w, depth);
      && HeapOf(r, len - 1, a - {hp[1]}, w, depth) && r[len..] == hp[len..]
      && Least(a, w, hp[1], r[1]) && r[1] in a - {hp[1]}
  {
    var a := Roots(leaves, popped, first, k);
    assert HeapOf(hp, len, a, w, depth) && GoodNodes(a, w, depth, first + k);
    hide MergeState, Roots;
    PopHeap(hp, len, a, w, depth);
    TopIsLeast(hp, len, a, w, depth, first + k);
    var r := PoppedHeap(hp, len, w, depth);
    TopIsLeast(r, len - 1, a - {hp[1]}, w, depth, first + k);
  }

  lemma MergeDads(leaves: set<nat>, popped: seq<nat>, w: seq<nat>, dl: seq<nat>, first: nat, k: nat, n: nat, m: nat)
    requires Dads(popped, dl, first) && Merges(leaves, popped, w, first, k) && |popped| == 2 * k && n < |dl| && m < |dl|
    requires n in Roots(leaves, popped, first, k) && m in Roots(leaves, popped, first, k)
    ensures Dads(popped + [n, m], dl[n := first + k][m := first + k], first)
  {
    PoppedFacts(leaves, popped, w, first, k, k);
  }

  lemma MergeSum(a: set<nat>, w: seq<nat>, n: nat, m: nat, p: nat)
    requires n in a && m in a && n != m && p !in a && p < |w| && forall x | x in a :: x < |w|
    ensures Sum(a - {n, m} + {p}, w[p := w[n] + w[m]]) == Sum(a, w)
  {
    var w' := w[p := w[n] + w[m]];
    assert a - {n, m} == a - {n} - {m};
    SumSame(a, a, w, w');
    SumRemove(a, w', n);
    SumRemove(a - {n}, w', m);
    SumAdd(a - {n} - {m}, w', p);
  }

  lemma PairBelowSum(a: set<nat>, w: seq<nat>, n: nat, m: nat)
    requires n in a && m in a && n != m && forall x | x in a :: x < |w|
    ensures w[n] + w[m] <= Sum(a, w)
  {
    SumRemove(a, w, n);
    SumRemove(a - {n}, w, m);
    SumAtLeast(a - {n} - {m}, w);
  }

  lemma MergePopped(hp: seq<nat>, r: seq<nat>, len: nat, heapMax: nat, popped: seq<nat>, n: nat, m: nat)
    requires |r| == |hp| && 2 <= heapMax <= |hp| && popped == Popped(hp, heapMax) && len < heapMax - 1
    requires r[len..] == hp[len..][heapMax - 1 - len := n][heapMax - 2 - len := m]
    ensures Popped(r, heapMax - 2) == popped + [n, m]
  {
    forall i | 0 <= i < |popped| + 2 ensures Popped(r, heapMax - 2)[i] == (popped + [n, m])[i] {
      var j := |r| - 1 - i;
      assert r[j] == r[len..][j - len];
      assert j >= heapMax ==> hp[j] == hp[len..][j - len];
    }
  }

  lemma MergeTail(hp: seq<nat>, r: seq<nat>, hp': seq<nat>, top: seq<nat>, len: nat, heapMax: nat, n: nat, m: nat)
    requires |hp| == |r| == |top| && len + 2 <= heapMax <= |hp| && r[len..] == hp[len..]
    requires hp' == r[heapMax - 1 := n][heapMax - 2 := m] && top[len..] == hp'[len..]
    ensures top[len..] == hp[len..][heapMax - 1 - len := n][heapMax - 2 - len := m]
  {
  }

  lemma MergeNodes(a: set<nat>, w: seq<nat>, depth: seq<nat>, n: nat, m: nat, p: nat, d: nat)
    requires GoodNodes(a, w, depth, p) && n in a && m in a && p < |w| && d < 256
    ensures GoodNodes(a - {n, m} + {p}, w[p := w[n] + w[m]], depth[p := d], p + 1)
  {
  }

  lemma MergePartsTree(hp: seq<nat>, len: nat, heapMax: nat, leaves: set<nat>, popped: seq<nat>, w: seq<nat>,
                       depth: seq<nat>,
                       dl: seq<nat>, first: nat, k: nat, total: int, n: nat, m: nat, d: nat)
    requires MergeState(hp, len, heapMax, leaves, popped, w, depth, dl, first, k, total) && 2 <= len && d < 256
    requires n == hp[1] && m == PoppedHeap(hp, len, w, depth)[1] && n < |w| && m < |w|
             && first + k < |w| == |dl| <= |depth|
    ensures var node := first + k; var w' := w[node := w[n] + w[m]];
            var a := Roots(leaves, popped, first, k) - {n, m} + {node};
      && Roots(leaves, popped + [n, m], first, k + 1) == a && Merges(leaves, popped + [n, m], w', first, k + 1)
      && GoodNodes(a, w', depth[node := d], node + 1) && Sum(a, w') == total
      && Dads(popped + [n, m], dl[n := node][m := node], first)
  {
    hide HeapOf, Popped, Keys, PoppedHeap, Roots, Merges, Dads, GoodNodes, Least, Sum;
    MergeHeap(hp, len, heapMax, leaves, popped, w, depth, dl, first, k, total);
    MergeFacts(hp, len, heapMax, leaves, popped, w, depth, dl, first, k, total);
    hide MergeState;
    MergePair(Roots(leaves, popped, first, k), w, n, m);
    MergeTree(leaves, popped, w, dl, first, k, n, m);
    MergeNodes(Roots(leaves, popped, first, k), w, depth, n, m, first + k, d);
  }

  lemma MergePartsHeap(hp: seq<nat>, len: nat, heapMax: nat, leaves: set<nat>, popped: seq<nat>, w: seq<nat>,
                       depth: seq<nat>,
                       dl: seq<nat>, first: nat, k: nat, total: int, n: nat, m: nat, d: nat, hp': seq<nat>)
    requires MergeState(hp, len, heapMax, leaves, popped, w, depth, dl, first, k, total) && 2 <= len && d < 256
    requires n == hp[1] && m == PoppedHeap(hp, len, w, depth)[1] && n < |w| && m < |w| && first + k < |w| <= |depth|
    requires heapMax >= 2 && hp' == PoppedHeap(hp, len, w, depth)[heapMax - 1 := n][heapMax - 2 := m]
             && len + 3 <= heapMax <= |hp|
    ensures var node := first + k; var w' := w[node := w[n] + w[m]];
            var a := Roots(leaves, popped, first, k) - {n, m} + {node};
      var top := SiftDown(hp'[1 := node], len - 1, 1, node, Keys(w', depth[node := d]));
      HeapOf(top, len - 1, a, w', depth[node := d]) && Popped(top, heapMax - 2) == popped + [n, m]
  {
    hide HeapOf, Popped, Keys, PoppedHeap, Roots, Merges, Dads, GoodNodes, Least, Sum;
    MergeHeap(hp, len, heapMax, leaves, popped, w, depth, dl, first, k, total);
    MergeFacts(hp, len, heapMax, leaves, popped, w, depth, dl, first, k, total);
    hide MergeState;
    MergePair(Roots(leaves, popped, first, k), w, n, m);
    RootsBelow(leaves, popped, first, k) by { MergesLeaves(leaves, popped, w, first, k); }
    MergeHeapStep(hp, PoppedHeap(hp, len, w, depth), hp', len, heapMax, popped, Roots(leaves, popped, first, k), w,
                  depth, n, m, first + k, d);
  }

  lemma MergesLeaves(leaves: set<nat>, popped: seq<nat>, w: seq<nat>, first: nat, k: nat)
    requires Merges(leaves, popped, w, first, k)
    ensures 2 * k <= |popped| && forall x | x in leaves :: x < first
  {
  }

  /** One merge, in all the arrays. */
  lemma MergeStep(hp: seq<nat>, len: nat, heapMax: nat, leaves: set<nat>, popped: seq<nat>, w: seq<nat>,
                  depth: seq<nat>,
                  dl: seq<nat>, first: nat, k: nat, total: int, n: nat, m: nat, d: nat, hp': seq<nat>)
    requires MergeState(hp, len, heapMax, leaves, popped, w, depth, dl, first, k, total) && 2 <= len && d < 256
    requires n == hp[1] && m == PoppedHeap(hp, len, w, depth)[1] && n < |w| && m < |w| && first + k < |w|
    requires heapMax >= 2 && hp' == PoppedHeap(hp, len, w, depth)[heapMax - 1 := n][heapMax - 2 := m]
    ensures len + 3 <= heapMax && |w| == |dl| <= |depth| &&
      var node := first + k; var w' := w[node := w[n] + w[m]]; var depth' := depth[node := d];
      MergeState(SiftDown(hp'[1 := node], len - 1, 1, node, Keys(w', depth')), len - 1, heapMax - 2, leaves,
                 popped + [n, m], w', depth',
                 dl[n := node][m := node], first, k + 1, total)
  {
    hide HeapOf, Popped, Keys, PoppedHeap, Roots, Merges, Dads, GoodNodes, Least, Sum, MergeState;
    MergeFacts(hp, len, heapMax, leaves, popped, w, depth, dl, first, k, total);
    MergePartsTree(hp, len, heapMax, leaves, popped, w, depth, dl, first, k, total, n, m, d);
    MergePartsHeap(hp, len, heapMax, leaves, popped, w, depth, dl, first, k, total, n, m, d, hp');
    var node := first + k;
    var w', depth', dl' := w[node := w[n] + w[m]], depth[node := d], dl[n := node][m := node];
    var top := SiftDown(hp'[1 := node], len - 1, 1, node, Keys(w', depth'));
    assert forall x | x in leaves :: x < first && w'[x] > 0;
    MergeStateIs(top, len - 1, heapMax - 2, leaves, popped + [n, m], w', depth', dl', first, k + 1, total);
  }

  lemma MergePair(a: set<nat>, w: seq<nat>, n: nat, m: nat)
    requires Least(a, w, n, m)
    ensures n in a && m in a && n != m
  {
  }

  lemma MergeFacts(hp: seq<nat>, len: nat, heapMax: nat, leaves: set<nat>, popped: seq<nat>, w: seq<nat>,
                   depth: seq<nat>,
                   dl: seq<nat>, first: nat, k: nat, total: int)
    requires MergeState(hp, len, heapMax, leaves, popped, w, depth, dl, first, k, total) && 2 <= len
    ensures |hp| == HEAP_SIZE == heapMax + 2 * k && |popped| == 2 * k && popped == Popped(hp, heapMax)
            && len + 3 <= heapMax
    ensures |leaves| == len + k && |leaves| <= 286 && first + |leaves| <= |w| == |dl| <= |depth|
    ensures Merges(leaves, popped, w, first, k) && Dads(popped, dl, first)
            && Sum(Roots(leaves, popped, first, k), w) == total
    ensures GoodNodes(Roots(leaves, popped, first, k), w, depth, first + k) && forall x | x in leaves ::
            x < first && w[x] > 0
  {
    hide HeapOf, Roots, Merges, Dads, GoodNodes, Sum;
  }

  lemma MergeStateIs(hp: seq<nat>, len: nat, heapMax: nat, leaves: set<nat>, popped: seq<nat>, w: seq<nat>,
                     depth: seq<nat>,
                     dl: seq<nat>, first: nat, k: nat, total: int)
    requires |hp| == HEAP_SIZE == heapMax + 2 * k && popped == Popped(hp, heapMax)
    requires |leaves| == len + k && 1 <= len && |leaves| <= 286 && first + |leaves| <= |w| == |dl| <= |depth|
    requires Merges(leaves, popped, w, first, k) && HeapOf(hp, len, Roots(leaves, popped, first, k), w, depth)
    requires GoodNodes(Roots(leaves, popped, first, k), w, depth, first + k)
    requires Sum(Roots(leaves, popped, first, k), w) == total && Dads(popped, dl, first) && forall x | x in leaves ::
             x < first && w[x] > 0
    ensures MergeState(hp, len, heapMax, leaves, popped, w, depth, dl, first, k, total)
  {
  }

  /** The tree's side of one merge. */
  lemma MergeTree(leaves: set<nat>, popped: seq<nat>, w: seq<nat>, dl: seq<nat>, first: nat, k: nat, n: nat, m: nat)
    requires Merges(leaves, popped, w, first, k) && |popped| == 2 * k && first + k < |w| == |dl|
             && Dads(popped, dl, first)
    requires Least(Roots(leaves, popped, first, k), w, n, m)
    ensures var a := Roots(leaves, popped, first, k); var w' := w[first + k := w[n] + w[m]];
      && Merges(leaves, popped + [n, m], w', first, k + 1)
      && Roots(leaves, popped + [n, m], first, k + 1) == a - {n, m} + {first + k}
      && Sum(a - {n, m} + {first + k}, w') == Sum(a, w)
      && Dads(popped + [n, m], dl[n := first + k][m := first + k], first)
      && first + k !in a
  {
    var a := Roots(leaves, popped, first, k);
    RootsBelow(leaves, popped, first, k);
    MergesExtend(leaves, popped, w, w[first + k := w[n] + w[m]], first, k, n, m);
    MergeDads(leaves, popped, w, dl, first, k, n, m);
    hide Merges, Dads, Roots;
    MergeSum(a, w, n, m, first + k);
  }

  /** The heap's side of one merge. */
  lemma MergeHeapStep(hp: seq<nat>, r: seq<nat>, hp': seq<nat>, len: nat, heapMax: nat, popped: seq<nat>, a: set<nat>,
                      w: seq<nat>,
                      depth: seq<nat>, n: nat, m: nat, node: nat, d: nat)
    requires 2 <= len && |hp| == |r| && len + 2 <= heapMax <= |hp| && r[len..] == hp[len..]
             && HeapOf(r, len - 1, a - {n}, w, depth)
    requires m == r[1] && n in a && n != m && node !in a && node < |w| && GoodNodes(a, w, depth, node)
    requires hp' == r[heapMax - 1 := n][heapMax - 2 := m] && popped == Popped(hp, heapMax)
    ensures var w' := w[node := w[n] + w[m]]; var depth' := depth[node := d];
      var top := SiftDown(hp'[1 := node], len - 1, 1, node, Keys(w', depth'));
      HeapOf(top, len - 1, a - {n, m} + {node}, w', depth') && Popped(top, heapMax - 2) == popped + [n, m]
  {
    var w', depth' := w[node := w[n] + w[m]], depth[node := d];
    assert n < |w| && m in a && m < |w| by { assert Holds(r, len - 1, a - {n}); }
    assert forall x | x in a - {n} :: x < |w| && w'[x] == w[x] && depth'[x] == depth[x];
    hide GoodNodes;
    PushHeap(r, hp', len - 1, a - {n}, w, depth, w', depth', node);
    hide HeapOf, Keys;
    assert a - {n} - {m} + {node} == a - {n, m} + {node};
    var top := SiftDown(hp'[1 := node], len - 1, 1, node, Keys(w', depth'));
    MergeTail(hp, r, hp', top, len, heapMax, n, m);
    MergePopped(hp, top, len, heapMax, popped, n, m);
  }

  lemma NodesOfHeap(hp: seq<nat>, len: nat, nodes: set<nat>, w: seq<nat>, depth: seq<nat>, bound: nat)
    requires HeapOf(hp, len, nodes, w, depth) && GoodNodes(nodes, w, depth, bound)
    ensures HeapNodes(hp, len, |w|, depth)
    ensures 2 <= len ==> HeapNodes(hp[1 := hp[len]], len - 1, |w|, depth) && hp[1] < |w|
  {
    forall i | 1 <= i <= len ensures hp[i] < |w| && depth[hp[i]] < 256 { assert hp[i] in nodes; }
    hide HeapOf, GoodNodes;
  }

  /** pqremove. */
  method PqRemove(s: Deflate, t: Tree, ghost hp: seq<nat>, ghost w: seq<nat>, ghost depth: seq<nat>,
                  ghost nodes: set<nat>, ghost bound: nat)
    returns (top: nat)
    requires Separate(s, t) && hp == s.heap[..] && w == t.fc[..] && depth == s.depth[..]
    requires HeapOf(hp, s.heapLen, nodes, w, depth) && GoodNodes(nodes, w, depth, bound) && 2 <= s.heapLen
    modifies s`heapLen, s.heap
    ensures top == hp[1] && top < |w| && s.heapLen == old(s.heapLen) - 1
    ensures s.heap[..] == PoppedHeap(hp, old(s.heapLen), w, depth)
  {
    NodesOfHeap(hp, s.heapLen, nodes, w, depth, bound);
    assert s.heapLen < |hp|;
    hide HeapOf, GoodNodes, GoodStatic, Keys, HeapNodes;
    top := s.heap[1];
    s.heap[1] := s.heap[s.heapLen];
    s.heapLen := s.heapLen - 1;
    ghost var moved := hp[1 := hp[s.heapLen + 1]];
    assert s.heap[..] == moved;
    PqDownHeap(s, t, 1, moved, Keys(w, depth));
  }

  /** What the loop body relies on. */
  lemma MergeReady(hp: seq<nat>, len: nat, heapMax: nat, leaves: set<nat>, popped: seq<nat>, w: seq<nat>,
                   depth: seq<nat>,
                   dl: seq<nat>, first: nat, k: nat, total: int)
    requires MergeState(hp, len, heapMax, leaves, popped, w, depth, dl, first, k, total) && 2 <= len
    ensures 2 * k == |popped| &&
      var r := PoppedHeap(hp, len, w, depth);
      && HeapOf(hp, len, Roots(leaves, popped, first, k), w, depth)
      && GoodNodes(Roots(leaves, popped, first, k), w, depth, first + k)
      && len + 3 <= heapMax <= |hp| && first + k < |w| == |dl| <= |depth|
      && hp[1] < |w| && r[1] < |w| && hp[1] != r[1] && w[hp[1]] + w[r[1]] <= total
      && hp[1] < first + k && r[1] < first + k
      && HeapNodes(r, len - 1, |w|, depth)
      && (hp[1] in leaves || hp[1] >= first) && (r[1] in leaves || r[1] >= first)
  {
    var a := Roots(leaves, popped, first, k);
    hide Keys, Popped, Dads, Sum;
    MergeHeap(hp, len, heapMax, leaves, popped, w, depth, dl, first, k, total);
    LeavesOrFathers(leaves, popped, w, first, k, k);
    hide PoppedHeap, Roots, Merges;
    PairBelowSum(a, w, hp[1], PoppedHeap(hp, len, w, depth)[1]);
    hide HeapOf, MergeState;
    NodesOfHeap(PoppedHeap(hp, len, w, depth), len - 1, a - {hp[1]}, w, depth, first + k);
  }

  lemma NodesWithNew(r: seq<nat>, hp': seq<nat>, len: nat, size: nat, depth: seq<nat>, node: nat, d: nat)
    requires HeapNodes(r, len, size, depth) && |hp'| == |r| && node < size && d < 256 && 1 <= len
    requires forall i | 1 <= i <= len :: hp'[i] == r[i]
    ensures HeapNodes(hp'[1 := node], len, size, depth[node := d])
  {
  }

  /** Makes `node` the father of n and m. */
  method MakeFather(s: Deflate, t: Tree, node: nat, n: nat, m: nat, ghost w: seq<nat>, ghost depth: seq<nat>,
                    ghost dl: seq<nat>)
    returns (ghost d: nat)
    requires Separate(s, t) && w == t.fc[..] && depth == s.depth[..] && dl == t.dl[..]
    requires node < |w| && n < |w| && m < |w| && w[n] + w[m] < 0x10000
    modifies t.fc, s.depth, t.dl
    ensures d < 256 && t.fc[..] == w[node := w[n] + w[m]] && s.depth[..] == depth[node := d]
            && t.dl[..] == dl[n := node][m := node]
  {
    t.fc[node] := (t.fc[n] + t.fc[m]) % 0x10000;
    s.depth[node] := ((if s.depth[n] >= s.depth[m] then s.depth[n] else s.depth[m]) + 1) % 256;
    d := s.depth[node];
    t.dl[m] := node;
    t.dl[n] := node;
    assert t.dl[..] == dl[n := node][m := node];
  }

  /** Moves the two least roots from the heap to the end of its array. */
  method TakeTwo(s: Deflate, t: Tree, ghost hp: seq<nat>, ghost w: seq<nat>, ghost depth: seq<nat>,
                 ghost nodes: set<nat>, ghost bound: nat)
    returns (n: nat, m: nat)
    requires Separate(s, t) && hp == s.heap[..] && w == t.fc[..] && depth == s.depth[..]
    requires HeapOf(hp, s.heapLen, nodes, w, depth) && GoodNodes(nodes, w, depth, bound) && 2 <= s.heapLen
             && 2 <= s.heapMax <= |hp|
    modifies s`heapLen, s`heapMax, s.heap
    ensures s.heapLen == old(s.heapLen) - 1 && s.heapMax == old(s.heapMax) - 2
    ensures n == hp[1] && m == PoppedHeap(hp, old(s.heapLen), w, depth)[1]
    ensures s.heap[..] == PoppedHeap(hp, old(s.heapLen), w, depth)[s.heapMax + 1 := n][s.heapMax := m]
  {
    ghost var len := s.heapLen;
    assert len < |hp| && |w| <= |depth|;
    hide HeapOf, GoodNodes, GoodStatic, Keys, HeapNodes, PoppedHeap;
    n := PqRemove(s, t, hp, w, depth, nodes, bound);
    m := s.heap[1];
    s.heapMax := s.heapMax - 1;
    s.heap[s.heapMax] := n;
    s.heapMax := s.heapMax - 1;
    s.heap[s.heapMax] := m;
    assert s.heap[..] == PoppedHeap(hp, len, w, depth)[s.heapMax + 1 := n][s.heapMax := m];
  }

  /** Puts the new node at the top and lets it sink. */
  method PushNode(s: Deflate, t: Tree, node: nat, ghost hp: seq<nat>, ghost w: seq<nat>, ghost depth: seq<nat>)
    returns (ghost hp': seq<nat>)
    requires Separate(s, t) && hp == s.heap[..] && w == t.fc[..] && depth == s.depth[..]
    requires 1 <= s.heapLen && HeapNodes(hp[1 := node], s.heapLen, |w|, depth)
    modifies s.heap
    ensures hp' == s.heap[..] == SiftDown(hp[1 := node], s.heapLen, 1, node, Keys(w, depth))
  {
    hide GoodStatic, Keys;
    s.heap[1] := node;
    assert s.heap[..] == hp[1 := node];
    PqDownHeap(s, t, 1, hp[1 := node], Keys(w, depth));
    hp' := SiftDown(hp[1 := node], s.heapLen, 1, node, Keys(w, depth));
  }

  /** The arrays between taking two nodes and putting back their father, whose depth is d. */
  ghost predicate Between(hp: seq<nat>, len: nat, heapMax: nat, w: seq<nat>, depth: seq<nat>, dl: seq<nat>, node: nat,
                          mid: seq<nat>, w': seq<nat>, depth': seq<nat>, dl': seq<nat>, n: nat, m: nat, d: nat) {
    && 2 <= len < |hp| && 2 <= heapMax <= |hp| && |w| == |dl| <= |depth| && n < |w| && m < |w| && node < |w| && d < 256
    && n == hp[1] && m == PoppedHeap(hp, len, w, depth)[1]
    && mid == PoppedHeap(hp, len, w, depth)[heapMax - 1 := n][heapMax - 2 := m]
    && w' == w[node := w[n] + w[m]] && depth' == depth[node := d] && dl' == dl[n := node][m := node]
  }

  method Combine(s: Deflate, t: Tree, node: nat, ghost hp: seq<nat>, ghost w: seq<nat>, ghost depth: seq<nat>,
                 ghost dl: seq<nat>,
                 ghost nodes: set<nat>, ghost total: int)
    returns (ghost mid: seq<nat>, ghost w': seq<nat>, ghost depth': seq<nat>, ghost dl': seq<nat>, ghost n: nat,
             ghost m: nat, ghost d: nat)
    requires Separate(s, t) && hp == s.heap[..] && w == t.fc[..] && depth == s.depth[..] && dl == t.dl[..]
    requires HeapOf(hp, s.heapLen, nodes, w, depth) && GoodNodes(nodes, w, depth, node) && 2 <= s.heapLen
             && 2 <= s.heapMax <= |hp|
    requires node < |w| == |dl| <= |depth| && s.heapLen < |hp| && total <= 0xffff
    requires var r := PoppedHeap(hp, s.heapLen, w, depth); r[1] < |w| && hp[1] < |w| && w[hp[1]] + w[r[1]] <= total
    modifies s`heapLen, s`heapMax, s.heap, s.depth, t.fc, t.dl
    ensures mid == s.heap[..] && w' == t.fc[..] && depth' == s.depth[..] && dl' == t.dl[..]
    ensures s.heapLen == old(s.heapLen) - 1 && s.heapMax == old(s.heapMax) - 2
    ensures Between(hp, old(s.heapLen), old(s.heapMax), w, depth, dl, node, mid, w', depth', dl', n, m, d)
  {
    hide HeapOf, GoodNodes, GoodStatic, Keys, HeapNodes, PoppedHeap, SiftDown;
    ghost var len, heapMax := s.heapLen, s.heapMax;
    var x, y := TakeTwo(s, t, hp, w, depth, nodes, node);
    mid := s.heap[..];
    d := MakeFather(s, t, node, x, y, w, depth, dl);
    n, m := x, y;
    w', depth', dl' := w[node := w[n] + w[m]], depth[node := d], dl[n := node][m := node];
  }

  /** The counts of the symbols stay, and the fields of those not used. */
  ghost predicate SymbolsKept(w: seq<nat>, w': seq<nat>, dl: seq<nat>, dl': seq<nat>, first: nat, leaves: set<nat>) {
    |w'| == |w| == |dl'| == |dl| && forall x: nat | x < first && x < |w| ::
      w'[x] == w[x] && (x !in leaves ==> dl'[x] == dl[x])
  }

  lemma BetweenStep(hp: seq<nat>, len: nat, heapMax: nat, leaves: set<nat>, popped: seq<nat>, w: seq<nat>,
                    depth: seq<nat>,
                    dl: seq<nat>, first: nat, k: nat, total: int, node: nat,
                    mid: seq<nat>, w': seq<nat>, depth': seq<nat>, dl': seq<nat>, n: nat, m: nat, d: nat)
    requires MergeState(hp, len, heapMax, leaves, popped, w, depth, dl, first, k, total) && node == first + k
    requires Between(hp, len, heapMax, w, depth, dl, node, mid, w', depth', dl', n, m, d)
    ensures |mid| == |hp| && |w'| == |w| == |dl'| == |dl| && |w'| <= |depth'|
            && HeapNodes(mid[1 := node], len - 1, |w'|, depth')
    ensures MergeState(SiftDown(mid[1 := node], len - 1, 1, node, Keys(w', depth')), len - 1, heapMax - 2, leaves,
                       popped + [n, m], w', depth',
                       dl', first, k + 1, total)
    ensures SymbolsKept(w, w', dl, dl', first, leaves)
  {
    hide MergeState, HeapOf, GoodNodes, Keys, HeapNodes, PoppedHeap, Roots, SiftDown;
    MergeReady(hp, len, heapMax, leaves, popped, w, depth, dl, first, k, total);
    NodesWithNew(PoppedHeap(hp, len, w, depth), mid, len - 1, |w|, depth, node, d);
    MergeStep(hp, len, heapMax, leaves, popped, w, depth, dl, first, k, total, n, m, d, mid);
  }

  /** One turn of the merge loop. */
  method MergeTwo(s: Deflate, t: Tree, node: nat, ghost leaves: set<nat>, ghost popped: seq<nat>, ghost hp: seq<nat>,
                  ghost w: seq<nat>,
                  ghost depth: seq<nat>, ghost dl: seq<nat>, ghost k: nat, ghost total: int)
    returns (ghost popped': seq<nat>, ghost hp': seq<nat>, ghost w': seq<nat>, ghost depth': seq<nat>,
             ghost dl': seq<nat>)
    requires Separate(s, t) && hp == s.heap[..] && w == t.fc[..] && depth == s.depth[..] && dl == t.dl[..]
    requires MergeState(hp, s.heapLen, s.heapMax, leaves, popped, w, depth, dl, t.stat.elems, k, total)
             && total <= 0xffff
    requires 2 <= s.heapLen && node == t.stat.elems + k
    modifies s`heapLen, s`heapMax, s.heap, s.depth, t.fc, t.dl
    ensures hp' == s.heap[..] && w' == t.fc[..] && depth' == s.depth[..] && dl' == t.dl[..]
            && s.heapLen == old(s.heapLen) - 1
    ensures MergeState(hp', s.heapLen, s.heapMax, leaves, popped', w', depth', dl', t.stat.elems, k + 1, total)
    ensures SymbolsKept(w, w', dl, dl', t.stat.elems, leaves)
  {
    hide SymbolsKept, MergeState, HeapOf, GoodNodes, GoodStatic, Keys, HeapNodes, PoppedHeap, Roots, SiftDown, Between;
    ghost var len, heapMax := s.heapLen, s.heapMax;
    MergeReady(hp, len, heapMax, leaves, popped, w, depth, dl, t.stat.elems, k, total);
    ghost var mid, n, m, d;
    mid, w', depth', dl', n, m, d := Combine(s, t, node, hp, w, depth, dl, Roots(leaves, popped, t.stat.elems, k),
                                             total);
    popped', hp' := PushFather(s, t, node, leaves, popped, hp, w, depth, dl, k, total, len, heapMax, mid, w', depth',
                               dl', n, m, d);
  }

  /** The father put back in the heap. */
  method PushFather(s: Deflate, t: Tree, node: nat, ghost leaves: set<nat>, ghost popped: seq<nat>, ghost hp: seq<nat>,
                    ghost w: seq<nat>,
                    ghost depth: seq<nat>, ghost dl: seq<nat>, ghost k: nat, ghost total: int, ghost len: nat,
                      ghost heapMax: nat,
                    ghost mid: seq<nat>, ghost w': seq<nat>, ghost depth': seq<nat>, ghost dl': seq<nat>, ghost n: nat,
                      ghost m: nat, ghost d: nat)
    returns (ghost popped': seq<nat>, ghost hp': seq<nat>)
    requires Separate(s, t) && mid == s.heap[..] && w' == t.fc[..] && depth' == s.depth[..]
    requires MergeState(hp, len, heapMax, leaves, popped, w, depth, dl, t.stat.elems, k, total)
             && node == t.stat.elems + k
    requires Between(hp, len, heapMax, w, depth, dl, node, mid, w', depth', dl', n, m, d) && s.heapLen == len - 1 >= 1
    modifies s.heap
    ensures hp' == s.heap[..]
    ensures MergeState(hp', len - 1, heapMax - 2, leaves, popped', w', depth', dl', t.stat.elems, k + 1, total)
    ensures SymbolsKept(w, w', dl, dl', t.stat.elems, leaves)
  {
    hide MergeState, Between, HeapNodes, SiftDown, SymbolsKept, GoodStatic, Keys;
    BetweenStep(hp, len, heapMax, leaves, popped, w, depth, dl, t.stat.elems, k, total, node, mid, w', depth', dl', n,
                m, d);
    popped' := popped + [n, m];
    hp' := PushNode(s, t, node, mid, w', depth');
  }

  // -- Before the loop ------------------------------------------------------------------------------------------

  /** The symbols below n that occur. */
  function Used(w: seq<nat>, n: nat): (r: set<nat>)
    requires n <= |w|
    ensures forall x: nat :: x in r <==> x < n && w[x] != 0
  {
    set x: nat | x < n && w[x] != 0
  }

  lemma UsedStep(w: seq<nat>, n: nat)
    requires n < |w|
    ensures Used(w, n + 1) == Used(w, n) + if w[n] != 0 then {n} else {}
  {
  }

  lemma {:induction false} UsedSize(w: seq<nat>, n: nat)
    requires n <= |w|
    ensures |Used(w, n)| <= n
  {
    if n == 0 { assert Used(w, 0) == {}; } else { UsedSize(w, n - 1); UsedStep(w, n - 1); }
  }

  /** The heap array lists the given leaves, maxCode is the largest of them, and the other symbols below n have length
      0. */
  ghost predicate Collected(hp: seq<nat>, len: nat, leaves: set<nat>, n: nat, depth: seq<nat>, dl: seq<nat>,
                            maxCode: int) {
    && len < |hp| && n <= |depth| && n <= |dl| && len == |leaves|
    && Distinct(hp, len) && Holds(hp, len, leaves)
    && (forall x | x in leaves :: x < n && x <= maxCode && depth[x] == 0)
    && (forall x: nat | x < n && x !in leaves :: dl[x] == 0)
    && -1 <= maxCode < n && (maxCode >= 0 ==> maxCode in leaves)
  }

  lemma AppendHolds(hp: seq<nat>, len: nat, nodes: set<nat>, v: nat)
    requires len + 1 < |hp| && Distinct(hp, len) && Holds(hp, len, nodes) && v !in nodes
    ensures Distinct(hp[len + 1 := v], len + 1) && Holds(hp[len + 1 := v], len + 1, nodes + {v})
  {
    var b := hp[len + 1 := v];
    forall x | x in nodes + {v} ensures exists i :: 1 <= i <= len + 1 && b[i] == x {
      if x == v {
        assert b[len + 1] == x;
      } else {
        var i := HoldsAt(hp, len, nodes, x);
        assert b[i] == x;
      }
    }
    HoldsIs(b, len + 1, nodes + {v});
  }

  lemma CollectLeaf(hp: seq<nat>, len: nat, leaves: set<nat>, n: nat, depth: seq<nat>, dl: seq<nat>, maxCode: int,
                    v: nat, n': nat, max': int)
    requires Collected(hp, len, leaves, n, depth, dl, maxCode) && v !in leaves && len + 1 < |hp|
    requires n' <= |depth| && n' <= |dl| && v < n' && (n' == n || (n' == n + 1 && v == n))
    requires max' == if v > maxCode then v else maxCode
    ensures Collected(hp[len + 1 := v], len + 1, leaves + {v}, n', depth[v := 0], dl, max')
  {
    AppendHolds(hp, len, leaves, v);
  }

  lemma CollectOther(hp: seq<nat>, len: nat, leaves: set<nat>, n: nat, depth: seq<nat>, dl: seq<nat>, maxCode: int)
    requires Collected(hp, len, leaves, n, depth, dl, maxCode) && n < |depth| && n < |dl|
    ensures Collected(hp, len, leaves, n + 1, depth, dl[n := 0], maxCode)
  {
    hide Distinct, Holds;
  }

  lemma CollectTurn(hp: seq<nat>, len: nat, w: seq<nat>, n: nat, depth: seq<nat>, dl: seq<nat>, maxCode: int)
    requires n < |w| && n < |depth| && n < |dl| && len + 1 < |hp|
             && Collected(hp, len, Used(w, n), n, depth, dl, maxCode)
    ensures w[n] != 0 ==> Collected(hp[len + 1 := n], len + 1, Used(w, n + 1), n + 1, depth[n := 0], dl, n)
    ensures w[n] == 0 ==> Collected(hp, len, Used(w, n + 1), n + 1, depth, dl[n := 0], maxCode)
  {
    UsedStep(w, n);
    assert maxCode < n;
    hide Collected;
    if w[n] != 0 {
      CollectLeaf(hp, len, Used(w, n), n, depth, dl, maxCode, n, n + 1, n);
    } else {
      CollectOther(hp, len, Used(w, n), n, depth, dl, maxCode);
    }
  }

  lemma CollectNone(hp: seq<nat>, w: seq<nat>, depth: seq<nat>, dl: seq<nat>)
    requires |hp| > 0
    ensures Collected(hp, 0, Used(w, 0), 0, depth, dl, -1)
  {
    assert Used(w, 0) == {};
  }

  /** The first loop of build_tree. */
  method Collect(s: Deflate, t: Tree, ghost w: seq<nat>)
    returns (maxCode: int, ghost hp: seq<nat>, ghost depth: seq<nat>, ghost dl: seq<nat>)
    requires Separate(s, t) && w == t.fc[..]
    modifies s`heapLen, s`heapMax, s.heap, s.depth, t.dl
    ensures hp == s.heap[..] && depth == s.depth[..] && dl == t.dl[..] && s.heapMax == HEAP_SIZE
    ensures Collected(hp, s.heapLen, Used(w, t.stat.elems), t.stat.elems, depth, dl, maxCode)
  {
    hide Collected, Used, GoodStatic;
    StaticFacts(t.stat);
    s.heapLen, s.heapMax, maxCode := 0, HEAP_SIZE, -1;
    hp, depth, dl := s.heap[..], s.depth[..], t.dl[..];
    CollectNone(hp, w, depth, dl);
    for n := 0 to t.stat.elems
      invariant hp == s.heap[..] && depth == s.depth[..] && dl == t.dl[..] && s.heapMax == HEAP_SIZE && s.heapLen <= n
      invariant Collected(hp, s.heapLen, Used(w, n), n, depth, dl, maxCode)
    {
      CollectTurn(hp, s.heapLen, w, n, depth, dl, maxCode);
      if t.fc[n] != 0 {
        s.heapLen := s.heapLen + 1;
        s.heap[s.heapLen] := n;
        maxCode := n;
        s.depth[n] := 0;
        hp, depth := hp[s.heapLen := n], depth[n := 0];
      } else {
        t.dl[n] := 0;
        dl := dl[n := 0];
      }
    }
  }

  /** w is f but that the symbols in `forced`, all without extra bits, occur once although f has none of them. */
  ghost predicate Forces(f: seq<nat>, w: seq<nat>, elems: nat, forced: set<nat>, stat: Static) {
    && |w| == |f| && elems <= |w|
    && (forall x | x in forced :: x < 3 && x < elems && f[x] == 0 && w[x] == 1 && XBits(stat, x) == 0)
    && (forall x: nat | x < elems && x !in forced :: w[x] == f[x])
    && (forced == {} || |Used(w, elems)| <= 2)
  }

  lemma ForceOne(f: seq<nat>, w: seq<nat>, elems: nat, forced: set<nat>, stat: Static, v: nat)
    requires Forces(f, w, elems, forced, stat) && elems <= |w| && v < 3 && v < elems && v !in Used(w, elems)
    requires XBits(stat, v) == 0 && |Used(w, elems)| < 2
    ensures Forces(f, w[v := 1], elems, forced + {v}, stat) && Used(w[v := 1], elems) == Used(w, elems) + {v}
    ensures v !in forced
  {
    assert Used(w[v := 1], elems) == Used(w, elems) + {v};
  }

  lemma OnlyLeaf(hp: seq<nat>, len: nat, leaves: set<nat>, n: nat, depth: seq<nat>, dl: seq<nat>, maxCode: int)
    requires Collected(hp, len, leaves, n, depth, dl, maxCode) && len < 2
    ensures maxCode < 2 ==> maxCode + 1 !in leaves
    ensures maxCode >= 2 ==> 0 !in leaves
  {
    if maxCode >= 2 && 0 in leaves {
      var i := HoldsAt(hp, len, leaves, 0);
      var j := HoldsAt(hp, len, leaves, maxCode);
      assert false;
    }
  }

  /** What forcing takes off the count of static bits beforehand. */
  function Debit(stat: Static, forced: set<nat>, size: nat): int {
    if stat.lens.Some? then Sum(forced, StaticLens(stat, size)) else 0
  }

  method ForceNode(s: Deflate, t: Tree, node: nat, ghost hp: seq<nat>, ghost w: seq<nat>, ghost depth: seq<nat>,
                   ghost forced: set<nat>)
    requires Separate(s, t) && hp == s.heap[..] && w == t.fc[..] && depth == s.depth[..] && node < t.stat.elems
             && node !in forced
    requires s.heapLen + 1 < HEAP_SIZE
    modifies s`heapLen, s`optLen, s`staticLen, s.heap, s.depth, t.fc
    ensures old(s.heapLen) + 1 < |hp| && s.heap[..] == hp[old(s.heapLen) + 1 := node] && t.fc[..] == w[node := 1]
            && s.depth[..] == depth[node := 0]
    ensures s.heapLen == old(s.heapLen) + 1 && s.optLen == old(s.optLen) - 1
    ensures s.staticLen - old(s.staticLen) == Debit(t.stat, forced, |w|) - Debit(t.stat, forced + {node}, |w|)
  {
    s.heapLen := s.heapLen + 1;
    s.heap[s.heapLen] := node;
    t.fc[node] := 1;
    s.depth[node] := 0;
    s.optLen := s.optLen - 1;
    if t.stat.lens.Some? {
      s.staticLen := s.staticLen - t.stat.lens.value[node];
    }
    SumAdd(forced, StaticLens(t.stat, |w|), node);
  }

  ghost predicate ForceInv(f: seq<nat>, hp: seq<nat>, len: nat, w: seq<nat>, depth: seq<nat>, dl: seq<nat>,
                           forced: set<nat>, stat: Static, maxCode: int) {
    && |w| == |f| && stat.elems <= |w| && stat.elems <= |depth|
    && Collected(hp, len, Used(w, stat.elems), stat.elems, depth, dl, maxCode) && Forces(f, w, stat.elems, forced, stat)
  }

  /** The node that is forced after max_code. */
  function Forced(maxCode: int): int { if maxCode < 2 then maxCode + 1 else 0 }

  /** It can be 2: when 1 is the one symbol in use. */
  lemma ForcedTwo(elems: nat)
    requires 3 <= elems
    ensures var f: seq<nat> := seq(elems, (x: nat) => if x == 1 then 1 else 0);
            Used(f, elems) == {1} && Forced(1) == 2 && f[2] == 0
  {
  }

  /** The symbol to force next. */
  lemma ForceTurn(f: seq<nat>, hp: seq<nat>, len: nat, w: seq<nat>, depth: seq<nat>, dl: seq<nat>, forced: set<nat>,
                  stat: Static, maxCode: int, node: nat)
    requires ForceInv(f, hp, len, w, depth, dl, forced, stat, maxCode) && len < 2 && GoodStatic(stat) && 3 < |hp|
    requires node == Forced(maxCode)
    ensures node < stat.elems && node < |w| && node < |depth| && node !in forced && -1 <= maxCode
    ensures ForceInv(f, hp[len + 1 := node], len + 1, w[node := 1], depth[node := 0], dl, forced + {node}, stat,
                     if maxCode < 2 then maxCode + 1 else maxCode)
  {
    OnlyLeaf(hp, len, Used(w, stat.elems), stat.elems, depth, dl, maxCode);
    assert -1 <= maxCode && |Used(w, stat.elems)| == len;
    hide Collected, Forces;
    assert XBits(stat, node) == 0;
    hide GoodStatic, XBits;
    CollectLeaf(hp, len, Used(w, stat.elems), stat.elems, depth, dl, maxCode, node, stat.elems, if maxCode < 2
                then maxCode + 1 else maxCode);
    ForceOne(f, w, stat.elems, forced, stat, node);
  }

  lemma ForceCode(f: seq<nat>, hp: seq<nat>, len: nat, w: seq<nat>, depth: seq<nat>, dl: seq<nat>, forced: set<nat>,
                  stat: Static, maxCode: int)
    requires ForceInv(f, hp, len, w, depth, dl, forced, stat, maxCode)
    ensures -1 <= maxCode
  {
  }

  /** One code forced. */
  method ForceNext(s: Deflate, t: Tree, max0: int, ghost f: seq<nat>, ghost hp0: seq<nat>, ghost w0: seq<nat>,
                   ghost depth0: seq<nat>,
                   ghost dl: seq<nat>, ghost forced0: set<nat>)
    returns (maxCode: int, ghost hp: seq<nat>, ghost w: seq<nat>, ghost depth: seq<nat>, ghost forced: set<nat>)
    requires Separate(s, t) && hp0 == s.heap[..] && w0 == t.fc[..] && depth0 == s.depth[..] && s.heapLen < 2
    requires ForceInv(f, hp0, s.heapLen, w0, depth0, dl, forced0, t.stat, max0)
    modifies s`heapLen, s`optLen, s`staticLen, s.heap, s.depth, t.fc
    ensures hp == s.heap[..] && w == t.fc[..] && depth == s.depth[..] && s.heapLen == old(s.heapLen) + 1 && |w| == |w0|
    ensures ForceInv(f, hp, s.heapLen, w, depth, dl, forced, t.stat, maxCode)
    ensures forced == forced0 + {Forced(max0)} && maxCode == if max0 < 2 then max0 + 1 else max0
    ensures s.optLen - old(s.optLen) == |forced0| - |forced|
    ensures s.staticLen - old(s.staticLen) == Debit(t.stat, forced0, |w|) - Debit(t.stat, forced, |w|)
  {
    hide ForceInv, Debit, GoodStatic;
    ForceCode(f, hp0, s.heapLen, w0, depth0, dl, forced0, t.stat, max0);
    ForceTurn(f, hp0, s.heapLen, w0, depth0, dl, forced0, t.stat, max0, Forced(max0));
    maxCode := max0;
    var node: nat;
    if maxCode < 2 {
      maxCode := maxCode + 1;
      node := maxCode;
    } else {
      node := 0;
    }
    ForceNode(s, t, node, hp0, w0, depth0, forced0);
    hp, w, depth, forced := hp0[s.heapLen := node], w0[node := 1], depth0[node := 0], forced0 + {node};
  }

  /** The loop that forces two codes, so that at least one bit is sent for each symbol. */
  method ForceTwo(s: Deflate, t: Tree, max0: int, ghost f: seq<nat>, ghost hp0: seq<nat>, ghost depth0: seq<nat>,
                  ghost dl: seq<nat>)
    returns (maxCode: int, ghost hp: seq<nat>, ghost w: seq<nat>, ghost depth: seq<nat>, ghost forced: set<nat>)
    requires Separate(s, t) && hp0 == s.heap[..] && f == t.fc[..] && depth0 == s.depth[..] && dl == t.dl[..]
    requires Collected(hp0, s.heapLen, Used(f, t.stat.elems), t.stat.elems, depth0, dl, max0)
    modifies s`heapLen, s`optLen, s`staticLen, s.heap, s.depth, t.fc
    ensures hp == s.heap[..] && w == t.fc[..] && depth == s.depth[..] && 2 <= s.heapLen
    ensures ForceInv(f, hp, s.heapLen, w, depth, dl, forced, t.stat, maxCode)
    ensures s.optLen == old(s.optLen) - |forced| && s.staticLen == old(s.staticLen) - Debit(t.stat, forced, |w|)
    ensures old(s.heapLen) == 1 ==> forced == {Forced(max0)}
  {
    maxCode, hp, w, depth, forced := max0, hp0, f, depth0, {};
    assert ForceInv(f, hp, s.heapLen, w, depth, dl, forced, t.stat, maxCode);
    hide GoodStatic, ForceInv, Debit, Collected;
    assert Debit(t.stat, {}, |f|) == 0 by { NoDebit(t.stat, |f|); }
    while s.heapLen < 2
      invariant hp == s.heap[..] && w == t.fc[..] && depth == s.depth[..] && |w| == |f|
      invariant ForceInv(f, hp, s.heapLen, w, depth, dl, forced, t.stat, maxCode)
      invariant old(s.heapLen) == 1 ==> if s.heapLen == 1 then forced == {} && maxCode == max0
                else forced == {Forced(max0)}
      invariant s.optLen == old(s.optLen) - |forced| && s.staticLen == old(s.staticLen) - Debit(t.stat, forced, |f|)
      decreases 2 - s.heapLen
    {
      maxCode, hp, w, depth, forced := ForceNext(s, t, maxCode, f, hp, w, depth, dl, forced);
    }
  }

  lemma NoDebit(stat: Static, size: nat)
    ensures Debit(stat, {}, size) == 0
  {
    SumEmpty(StaticLens(stat, size));
  }

  // -- The heap, and the loop -----------------------------------------------------------------------------------

  ghost predicate HeapingAt(hp: seq<nat>, len: nat, leaves: set<nat>, lo: nat, w: seq<nat>, depth: seq<nat>) {
    && |w| <= |depth| && 1 <= lo && Distinct(hp, len) && Holds(hp, len, leaves) && HeapFrom(hp, len, lo, Keys(w, depth))
    && HeapNodes(hp, len, |w|, depth)
  }

  lemma HeapingStart(hp: seq<nat>, len: nat, leaves: set<nat>, n: nat, w: seq<nat>, depth: seq<nat>, dl: seq<nat>,
                     maxCode: int)
    requires Collected(hp, len, leaves, n, depth, dl, maxCode) && n <= |w| <= |depth|
    ensures HeapingAt(hp, len, leaves, len / 2 + 1, w, depth)
  {
    forall i | 1 <= i <= len ensures hp[i] < |w| && depth[hp[i]] < 256 { assert hp[i] in leaves; }
    hide Holds, Distinct;
  }

  lemma HeapingTurn(hp: seq<nat>, len: nat, leaves: set<nat>, k: nat, w: seq<nat>, depth: seq<nat>)
    requires HeapingAt(hp, len, leaves, k + 1, w, depth) && 1 <= k <= len && forall x | x in leaves ::
             x < |w| && depth[x] < 256
    ensures HeapingAt(SiftDown(hp, len, k, hp[k], Keys(w, depth)), len, leaves, k, w, depth)
  {
    var key := Keys(w, depth);
    var r := SiftDown(hp, len, k, hp[k], key);
    assert hp[k := hp[k]] == hp;
    SiftHolds(hp, len, k, hp[k], key, leaves);
    SinkRestores(hp, len, k, key);
    forall i | 1 <= i <= len ensures r[i] < |w| && depth[r[i]] < 256 { assert r[i] in leaves; }
    hide Holds, Distinct, HeapFrom, SiftDown, Keys;
  }

  /** The loop that establishes the heap. */
  method Heapify(s: Deflate, t: Tree, ghost hp0: seq<nat>, ghost leaves: set<nat>, ghost w: seq<nat>,
                 ghost depth: seq<nat>)
    returns (ghost hp: seq<nat>)
    requires Separate(s, t) && hp0 == s.heap[..] && w == t.fc[..] && depth == s.depth[..] && 2 <= s.heapLen
    requires HeapingAt(hp0, s.heapLen, leaves, s.heapLen / 2 + 1, w, depth) && forall x | x in leaves ::
             x < |w| && depth[x] < 256
    modifies s.heap
    ensures hp == s.heap[..] && HeapingAt(hp, s.heapLen, leaves, 1, w, depth)
  {
    hp := hp0;
    hide GoodStatic, Keys;
    for i := s.heapLen / 2 + 1 downto 1
      invariant hp == s.heap[..] && HeapingAt(hp, s.heapLen, leaves, i, w, depth)
    {
      HeapingTurn(hp, s.heapLen, leaves, i, w, depth);
      hide HeapingAt;
      PqDownHeap(s, t, i, hp, Keys(w, depth)) by { HeapingNodes(hp, s.heapLen, leaves, i + 1, w, depth); }
      hp := SiftDown(hp, s.heapLen, i, hp[i], Keys(w, depth));
    }
  }

  lemma HeapingNodes(hp: seq<nat>, len: nat, leaves: set<nat>, lo: nat, w: seq<nat>, depth: seq<nat>)
    requires HeapingAt(hp, len, leaves, lo, w, depth)
    ensures HeapNodes(hp, len, |w|, depth) && len < |hp|
  {
  }

  /** The state before the first merge. */
  lemma MergeStarts(hp: seq<nat>, len: nat, leaves: set<nat>, w: seq<nat>, depth: seq<nat>, dl: seq<nat>, first: nat,
                    total: int)
    requires HeapingAt(hp, len, leaves, 1, w, depth) && |hp| == HEAP_SIZE && len == |leaves| && 1 <= len <= 286
    requires first + |leaves| <= |w| == |dl| && Sum(leaves, w) == total
    requires forall x | x in leaves :: x < first && w[x] > 0 && depth[x] < 256
    ensures MergeState(hp, len, HEAP_SIZE, leaves, [], w, depth, dl, first, 0, total)
  {
    hide Distinct, Holds, HeapFrom, Keys, HeapNodes, Sum;
  }

  /** The state after the last merge, the root having been moved to the end of the heap array. */
  lemma MergeEnds(hp: seq<nat>, heapMax: nat, leaves: set<nat>, popped: seq<nat>, w: seq<nat>, depth: seq<nat>,
                  dl: seq<nat>,
                  k: nat, total: int, stat: Static, maxCode: int)
    requires MergeState(hp, 1, heapMax, leaves, popped, w, depth, dl, stat.elems, k, total) && 0 < k
    requires (forall x | x in leaves :: x <= maxCode) && maxCode < stat.elems
    ensures 0 < heapMax <= |hp| && Ready(hp[heapMax - 1 := hp[1]], heapMax - 1, stat, maxCode, leaves, popped, w, dl, k)
  {
    var a := Roots(leaves, popped, stat.elems, k);
    RootLeft(hp, leaves, popped, w, depth, stat.elems, k);
    var hp' := hp[heapMax - 1 := hp[1]];
    assert Popped(hp', heapMax) == popped;
    hide HeapOf, GoodNodes, Merges, Dads, Roots, Sum;
  }

  lemma RootLeft(hp: seq<nat>, leaves: set<nat>, popped: seq<nat>, w: seq<nat>, depth: seq<nat>, first: nat, k: nat)
    requires 0 < k && 2 * k <= |popped| && HeapOf(hp, 1, Roots(leaves, popped, first, k), w, depth)
    ensures hp[1] == first + k - 1 && Roots(leaves, popped, first, k) == {first + k - 1}
  {
    var a := Roots(leaves, popped, first, k);
    assert first + k - 1 in a;
    forall x | x in a ensures x == hp[1] { var i := HoldsAt(hp, 1, a, x); }
  }

  /** The do-while loop. */
  method MergeAll(s: Deflate, t: Tree, ghost leaves: set<nat>, ghost hp0: seq<nat>, ghost w0: seq<nat>,
                  ghost depth0: seq<nat>,
                  ghost dl0: seq<nat>, ghost total: int)
    returns (ghost popped: seq<nat>, ghost hp: seq<nat>, ghost w: seq<nat>, ghost depth: seq<nat>, ghost dl: seq<nat>,
             ghost k: nat)
    requires Separate(s, t) && hp0 == s.heap[..] && w0 == t.fc[..] && depth0 == s.depth[..] && dl0 == t.dl[..]
    requires MergeState(hp0, s.heapLen, s.heapMax, leaves, [], w0, depth0, dl0, t.stat.elems, 0, total)
             && 2 <= s.heapLen && total <= 0xffff
    modifies s`heapLen, s`heapMax, s.heap, s.depth, t.fc, t.dl
    ensures hp == s.heap[..] && w == t.fc[..] && dl == t.dl[..] && 0 < k
    ensures MergeState(hp, 1, s.heapMax, leaves, popped, w, depth, dl, t.stat.elems, k, total) && s.heapLen == 1
    ensures |w| == |w0| == |dl| == |dl0| && forall x: nat | x < t.stat.elems && x < |w| ::
            w[x] == w0[x] && (x !in leaves ==> dl[x] == dl0[x])
  {
    hide MergeState, GoodStatic;
    popped, hp, w, depth, dl, k := [], hp0, w0, depth0, dl0, 0;
    assert |w| == |dl|;
    var node := t.stat.elems;
    while s.heapLen >= 2
      invariant hp == s.heap[..] && w == t.fc[..] && depth == s.depth[..] && dl == t.dl[..] && 1 <= s.heapLen
                && node == t.stat.elems + k
      invariant k == 0 ==> s.heapLen >= 2
      invariant MergeState(hp, s.heapLen, s.heapMax, leaves, popped, w, depth, dl, t.stat.elems, k, total)
      invariant |w| == |w0| == |dl| == |dl0|
      invariant forall x: nat | x < t.stat.elems && x < |w| :: w[x] == w0[x] && (x !in leaves ==> dl[x] == dl0[x])
      decreases s.heapLen
    {
      popped, hp, w, depth, dl := MergeTwo(s, t, node, leaves, popped, hp, w, depth, dl, k, total);
      node := node + 1;
      k := k + 1;
    }
  }

  // -- The bits counted -----------------------------------------------------------------------------------------

  lemma {:induction false} SumOnes(a: set<nat>, f: seq<int>)
    requires forall x | x in a :: x < |f| && f[x] == 1
    ensures Sum(a, f) == |a|
    decreases a
  {
    if a == {} {
      SumEmpty(f);
    } else {
      var x :| x in a;
      SumRemove(a, f, x);
      SumOnes(a - {x}, f);
    }
  }

  /** The bits of the symbols that occur: their code words and their extra bits. */
  function BitsOf(stat: Static, f: seq<nat>, n: nat, lens: seq<nat>): int
    requires |f| == |lens| && n <= |f|
  {
    Cost(Used(f, n), f, lens) + Cost(Used(f, n), f, Extras(stat, |f|))
  }

  lemma ForcedSplit(f: seq<nat>, w: seq<nat>, elems: nat, forced: set<nat>, stat: Static, lens: seq<nat>)
    requires Forces(f, w, elems, forced, stat) && |lens| == |w|
    ensures Used(f, elems) !! forced && Used(w, elems) == Used(f, elems) + forced
    ensures Cost(Used(w, elems), w, lens) == Cost(Used(f, elems), f, lens) + Sum(forced, Products(w, lens))
  {
    assert Used(w, elems) == Used(f, elems) + forced && Used(f, elems) !! forced;
    SumDisjoint(Used(f, elems), forced, Products(w, lens));
    SumSame(Used(f, elems), Used(f, elems), Products(w, lens), Products(f, lens));
  }

  /** Forcing is made up for: a forced code costs its one bit, and nothing with the static tree. */
  lemma ForcedBits(f: seq<nat>, w: seq<nat>, elems: nat, forced: set<nat>, stat: Static, lens: seq<nat>)
    requires Forces(f, w, elems, forced, stat) && |lens| == |w| && forall x | x in forced :: lens[x] == 1
    ensures Cost(Used(w, elems), w, lens) + Cost(Used(w, elems), w, Extras(stat, |w|)) == BitsOf(stat, f, elems, lens)
            + |forced|
    ensures StaticCost(stat, Used(w, elems), w) == StaticCost(stat, Used(f, elems), f) + Debit(stat, forced, |w|)
  {
    var x, s := Extras(stat, |w|), StaticLens(stat, |w|);
    ForcedSplit(f, w, elems, forced, stat, lens);
    ForcedSplit(f, w, elems, forced, stat, x);
    ForcedSplit(f, w, elems, forced, stat, s);
    SumOnes(forced, Products(w, lens));
    var zeros := seq(|w|, _ => 0);
    SumSame(forced, forced, Products(w, x), zeros);
    SumZeros(forced, zeros);
    SumSame(forced, forced, Products(w, s), s);
    hide Cost, Forces;
  }

  // -- build_tree -----------------------------------------------------------------------------------------------

  /** The symbols that occur are in the heap, which is established from position lo on. */
  ghost predicate LeavesAt(f: seq<nat>, hp: seq<nat>, len: nat, lo: nat, w: seq<nat>, depth: seq<nat>, dl: seq<nat>,
                           forced: set<nat>,
                           stat: Static, maxCode: int) {
    && |w| == |f| && stat.elems <= |w| && stat.elems <= |dl| && |w| <= |depth|
    && HeapingAt(hp, len, Used(w, stat.elems), lo, w, depth) && len == |Used(w, stat.elems)|
    && Forces(f, w, stat.elems, forced, stat)
    && (forall x | x in Used(w, stat.elems) :: depth[x] < 256 && x <= maxCode)
    && (forall x: nat | x < stat.elems && x !in Used(w, stat.elems) :: dl[x] == 0)
    && -1 <= maxCode < stat.elems && (maxCode >= 0 ==> maxCode in Used(w, stat.elems))
  }

  lemma LeavesFound(f: seq<nat>, hp: seq<nat>, len: nat, w: seq<nat>, depth: seq<nat>, dl: seq<nat>, forced: set<nat>,
                    stat: Static, maxCode: int)
    requires ForceInv(f, hp, len, w, depth, dl, forced, stat, maxCode) && |w| <= |depth|
    ensures LeavesAt(f, hp, len, len / 2 + 1, w, depth, dl, forced, stat, maxCode)
  {
    HeapingStart(hp, len, Used(w, stat.elems), stat.elems, w, depth, dl, maxCode);
    hide HeapingAt, Forces, Distinct, Holds;
  }

  method FindLeaves(s: Deflate, t: Tree, ghost f: seq<nat>)
    returns (ghost hp: seq<nat>, ghost w: seq<nat>, ghost depth: seq<nat>, ghost dl: seq<nat>, ghost forced: set<nat>)
    requires Separate(s, t) && f == t.fc[..]
    modifies s`heapLen, s`heapMax, s`optLen, s`staticLen, s.heap, s.depth, t.fc, t.dl, t`maxCode
    ensures hp == s.heap[..] && w == t.fc[..] && depth == s.depth[..] && dl == t.dl[..] && 2 <= s.heapLen
            && s.heapMax == HEAP_SIZE
    ensures LeavesAt(f, hp, s.heapLen, s.heapLen / 2 + 1, w, depth, dl, forced, t.stat, t.maxCode)
    ensures s.optLen == old(s.optLen) - |forced| && s.staticLen == old(s.staticLen) - Debit(t.stat, forced, |w|)
  {
    hide GoodStatic, ForceInv, LeavesAt, Debit, Collected;
    var max0, maxCode;
    ghost var hp0, depth0;
    max0, hp0, depth0, dl := Collect(s, t, f);
    maxCode, hp, w, depth, forced := ForceTwo(s, t, max0, f, hp0, depth0, dl);
    t.maxCode := maxCode;
    LeavesFound(f, hp, s.heapLen, w, depth, dl, forced, t.stat, maxCode);
  }

  /** From frequencies to a heap of leaves. */
  method MakeLeaves(s: Deflate, t: Tree, ghost f: seq<nat>)
    returns (ghost hp: seq<nat>, ghost w: seq<nat>, ghost depth: seq<nat>, ghost dl: seq<nat>, ghost forced: set<nat>)
    requires Separate(s, t) && f == t.fc[..]
    modifies s`heapLen, s`heapMax, s`optLen, s`staticLen, s.heap, s.depth, t.fc, t.dl, t`maxCode
    ensures hp == s.heap[..] && w == t.fc[..] && depth == s.depth[..] && dl == t.dl[..] && 2 <= s.heapLen
            && s.heapMax == HEAP_SIZE
    ensures LeavesAt(f, hp, s.heapLen, 1, w, depth, dl, forced, t.stat, t.maxCode)
    ensures s.optLen == old(s.optLen) - |forced| && s.staticLen == old(s.staticLen) - Debit(t.stat, forced, |w|)
  {
    hide GoodStatic, Forces, HeapingAt, Debit;
    ghost var hp0;
    hp0, w, depth, dl, forced := FindLeaves(s, t, f);
    hp := Heapify(s, t, hp0, Used(w, t.stat.elems), w, depth);
  }

  // -- build_tree -----------------------------------------------------------------------------------------------

  /** The outcome of build_tree for the frequencies f: w is f with at least two symbols made to occur, `lens` their
      lengths, at most the maximum, those of a code that leaves no word unused. */
  ghost predicate Built(stat: Static, f: seq<nat>, w: seq<nat>, lens: seq<nat>, maxCode: int) {
    && stat.elems == |f| == |w| == |lens|
    && (exists forced: set<nat> :: Forces(f, w, stat.elems, forced, stat))
    && BuiltCode(Used(w, |w|), w, lens, stat.maxLength)
    && 0 <= maxCode < stat.elems && maxCode in Used(w, |w|) && forall x | x in Used(w, |w|) :: x <= maxCode
  }

  ghost predicate BuiltCode(a: set<nat>, w: seq<nat>, lens: seq<nat>, max: nat)
    requires |w| == |lens|
  {
    && Words(a, lens) && C.Subscribed(lens) && C.Taken(lens, C.MAX_BITS + 1, C.MAX_BITS) == Pow2(C.MAX_BITS)
    && (forall x | 0 <= x < |lens| :: lens[x] <= max) && KraftSum(a, lens, max) == Pow2(max)
    && Monotone(a, w, lens)
  }

  // -- From the arrays to the symbols ---------------------------------------------------------------------------

  lemma CostRestrict(a: set<nat>, w: seq<nat>, lens: seq<nat>, n: nat)
    requires |w| == |lens| && n <= |w| && forall x | x in a :: x < n
    ensures Cost(a, w[..n], lens[..n]) == Cost(a, w, lens)
  {
    SumBeyond(a, Products(w, lens), n);
    assert Products(w[..n], lens[..n]) == Products(w, lens)[..n];
  }

  lemma BoundRestrict(a: set<nat>, w: seq<nat>, n: nat, c: int)
    requires LowerBound(a, w, c) && n <= |w| && forall x | x in a :: x < n
    ensures LowerBound(a, w[..n], c)
  {
    forall lens: seq<nat>, scale: nat | |lens| == n && Fits(a, lens, scale) ensures c <= Cost(a, w[..n], lens) {
      var more := lens + seq(|w| - n, _ => 0);
      assert more[..n] == lens;
      SumBeyond(a, Shares(more, scale), n);
      assert Shares(more, scale)[..n] == Shares(lens, scale);
      CostRestrict(a, w, more, n);
      assert Fits(a, more, scale);
    }
  }

  lemma UsedRestrict(w: seq<nat>, n: nat)
    requires n <= |w|
    ensures Used(w[..n], n) == Used(w, n)
  {
  }

  lemma BitsRestrict(stat: Static, f: seq<nat>, n: nat, lens: seq<nat>)
    requires |f| == |lens| && n <= |f|
    ensures BitsOf(stat, f[..n], n, lens[..n]) == BitsOf(stat, f, n, lens)
    ensures StaticCost(stat, Used(f[..n], n), f[..n]) == StaticCost(stat, Used(f, n), f)
  {
    UsedRestrict(f, n);
    CostRestrict(Used(f, n), f, lens, n);
    CostRestrict(Used(f, n), f, Extras(stat, |f|), n);
    CostRestrict(Used(f, n), f, StaticLens(stat, |f|), n);
    assert Extras(stat, |f|)[..n] == Extras(stat, n) && StaticLens(stat, |f|)[..n] == StaticLens(stat, n);
  }

  /** The total fits 16 bits, and still does when a second symbol has to be forced. */
  ghost predicate FitsShort(f: seq<nat>, elems: nat) {
    elems <= |f| && Sum(Used(f, elems), f) <= 0xffff && (|Used(f, elems)| == 1 ==> Sum(Used(f, elems), f) < 0xffff)
  }

  /** Even with the forced codes the frequencies fit 16 bits. */
  lemma ForcedTotal(f: seq<nat>, w: seq<nat>, elems: nat, forced: set<nat>, stat: Static)
    requires Forces(f, w, elems, forced, stat) && FitsShort(f, elems)
    ensures Sum(Used(w, elems), w) <= 0xffff
  {
    assert Used(w, elems) == Used(f, elems) + forced && Used(f, elems) !! forced;
    SumDisjoint(Used(f, elems), forced, w);
    SumSame(Used(f, elems), Used(f, elems), w, f);
    SumOnes(forced, w);
    assert |Used(w, elems)| == |Used(f, elems)| + |forced|;
    if |forced| >= 2 {
      assert |Used(f, elems)| == 0;
      assert Used(f, elems) == {};
      SumEmpty(f);
    }
  }

  /** A forced code has one bit. */
  lemma ForcedShort(f: seq<nat>, w: seq<nat>, elems: nat, forced: set<nat>, stat: Static, lens: seq<nat>,
                    counts: seq<nat>)
    requires Forces(f, w, elems, forced, stat) && |lens| == |w| && 2 <= |Used(w, elems)|
    requires FullCode(Used(w, elems), lens, counts, stat.maxLength)
    ensures forall x | x in forced :: lens[x] == 1
  {
    var a := Used(w, elems);
    forall x | x in forced ensures lens[x] == 1 {
      assert x in a && |a| == 2;
      assert |a - {x}| == 1;
      var y :| y in a - {x};
      OneOther(a - {x}, y);
      assert a == a - {x} + {x} == {x, y};
      TwoWords(a, lens, counts, stat.maxLength, x, y);
    }
  }

  lemma OneOther(a: set<nat>, y: nat)
    requires |a| == 1 && y in a
    ensures a == {y}
  {
    assert |a - {y}| == 0;
  }

  lemma CodeOf(a: set<nat>, lens: seq<nat>, counts: seq<nat>, max: nat)
    requires FullCode(a, lens, counts, max) && max <= MAX_BITS == C.MAX_BITS && |counts| == MAX_BITS + 1
    requires forall b | max < b < |counts| :: counts[b] == 0
    requires forall x: nat | x < |lens| && x !in a :: lens[x] == 0
    ensures Words(a, lens) && C.Subscribed(lens) && C.Taken(lens, C.MAX_BITS + 1, C.MAX_BITS) == Pow2(C.MAX_BITS)
    ensures G.CountsOf(lens, counts) && (forall x | 0 <= x < |lens| :: lens[x] <= max)
            && KraftSum(a, lens, max) == Pow2(max)
  {
    FullLengths(a, lens, counts, max);
    assert Words(a, lens);
    hide KraftSum, FullCode, Pow2, C.Subscribed, C.Taken, G.CountsOf, Words;
    FullSubscribed(a, lens, counts, max);
  }

  lemma BuiltIs(stat: Static, w: seq<nat>, lens: seq<nat>, counts: seq<nat>)
    requires GoodStatic(stat) && stat.elems <= |w| == |lens|
             && FullCode(Used(w, stat.elems), lens, counts, stat.maxLength)
    requires |counts| == MAX_BITS + 1 && forall b | stat.maxLength < b < |counts| :: counts[b] == 0
    requires Monotone(Used(w, stat.elems), w, lens)
    requires forall x: nat | x < stat.elems && x !in Used(w, stat.elems) :: lens[x] == 0
    ensures var n := stat.elems;
      BuiltCode(Used(w[..n], n), w[..n], lens[..n], stat.maxLength) && G.CountsOf(lens[..n], counts)
  {
    var n, a := stat.elems, Used(w, stat.elems);
    assert stat.maxLength <= MAX_BITS;
    UsedRestrict(w, n);
    MonotoneRestrict(a, w, lens, n);
    hide Cost, LowerBound, KraftSum, FullCode, GoodStatic, Pow2, C.Subscribed, C.Taken, G.CountsOf, Words, Monotone;
    FullRestrict(a, lens, n, counts, stat.maxLength);
    CodeOf(a, lens[..n], counts, stat.maxLength);
  }

  /** Lengths that no others beat on the nodes are optimal on the symbols. */
  lemma OptimalRestrict(a: set<nat>, w: seq<nat>, lens: seq<nat>, n: nat)
    requires n <= |w| == |lens| && (forall x | x in a :: x < n) && LowerBound(a, w, Cost(a, w, lens))
    ensures Optimal(a, w[..n], lens[..n])
  {
    CostRestrict(a, w, lens, n);
    BoundRestrict(a, w, n, Cost(a, w, lens));
    hide Cost, LowerBound;
    BoundIsOptimal(a, w[..n], lens[..n]);
  }

  lemma MonotoneRestrict(a: set<nat>, w: seq<nat>, lens: seq<nat>, n: nat)
    requires Monotone(a, w, lens) && n <= |w| == |lens|
    ensures Monotone(a, w[..n], lens[..n])
  {
  }

  lemma FullLengths(a: set<nat>, lens: seq<nat>, counts: seq<nat>, max: nat)
    requires FullCode(a, lens, counts, max)
    ensures KraftSum(a, lens, max) == Pow2(max) && forall x | x in a :: x < |lens| && 0 < lens[x] <= max
  {
  }

  lemma LeavesMerge(f: seq<nat>, hp: seq<nat>, len: nat, w: seq<nat>, depth: seq<nat>, dl: seq<nat>, forced: set<nat>,
                    stat: Static, maxCode: int)
    requires LeavesAt(f, hp, len, 1, w, depth, dl, forced, stat, maxCode) && |hp| == HEAP_SIZE && |w| == |dl|
    requires GoodStatic(stat) && 2 * stat.elems < |w| && 2 <= len && FitsShort(f, stat.elems)
    ensures var a := Used(w, stat.elems);
      && MergeState(hp, len, HEAP_SIZE, a, [], w, depth, dl, stat.elems, 0, Sum(a, w)) && Sum(a, w) <= 0xffff
      && |a| <= stat.elems && (forall x | x in a :: x <= maxCode) && maxCode < stat.elems && 0 <= maxCode
      && maxCode in a && |a| == len
  {
    var a := Used(w, stat.elems);
    UsedSize(w, stat.elems);
    ForcedTotal(f, w, stat.elems, forced, stat);
    assert stat.elems <= 286;
    hide GoodStatic, Forces, HeapingAt;
    assert a != {};
    var x :| x in a;
    MergeStarts(hp, len, a, w, depth, dl, stat.elems, Sum(a, w));
  }

  /** The merge loop, and the root put at the end of the list. */
  method MakeTree(s: Deflate, t: Tree, ghost leaves: set<nat>, ghost hp0: seq<nat>, ghost w0: seq<nat>,
                  ghost depth0: seq<nat>,
                  ghost dl0: seq<nat>, ghost total: int)
    returns (ghost popped: seq<nat>, ghost w: seq<nat>, ghost dl: seq<nat>, ghost n: nat)
    requires Separate(s, t) && hp0 == s.heap[..] && w0 == t.fc[..] && depth0 == s.depth[..] && dl0 == t.dl[..]
    requires MergeState(hp0, s.heapLen, s.heapMax, leaves, [], w0, depth0, dl0, t.stat.elems, 0, total)
             && 2 <= s.heapLen && total <= 0xffff
    requires (forall x | x in leaves :: x <= t.maxCode) && t.maxCode < t.stat.elems
    modifies s`heapLen, s`heapMax, s.heap, s.depth, t.fc, t.dl
    ensures w == t.fc[..] && dl == t.dl[..] && Ready(s.heap[..], s.heapMax, t.stat, t.maxCode, leaves, popped, w, dl, n)
    ensures |w| == |w0| == |dl| == |dl0| && forall x: nat | x < t.stat.elems && x < |w| ::
            w[x] == w0[x] && (x !in leaves ==> dl[x] == dl0[x])
  {
    hide MergeState, GoodStatic, Ready;
    ghost var hp, depth;
    popped, hp, w, depth, dl, n := MergeAll(s, t, leaves, hp0, w0, depth0, dl0, total);
    MergeEnds(hp, s.heapMax, leaves, popped, w, depth, dl, n, total, t.stat, t.maxCode);
    s.heapMax := s.heapMax - 1;
    s.heap[s.heapMax] := s.heap[1];
    assert s.heap[..] == hp[s.heapMax := hp[1]];
  }

  /** The code that comes out. */
  lemma BuiltCodeIs(stat: Static, f: seq<nat>, w: seq<nat>, forced: set<nat>, lens: seq<nat>, counts: seq<nat>,
                    maxCode: int)
    requires GoodStatic(stat) && Forces(f, w, stat.elems, forced, stat) && |w| == |lens|
    requires FullCode(Used(w, stat.elems), lens, counts, stat.maxLength) && |counts| == MAX_BITS + 1
    requires forall b | stat.maxLength < b < |counts| :: counts[b] == 0
    requires Monotone(Used(w, stat.elems), w, lens)
    requires forall x: nat | x < stat.elems && x !in Used(w, stat.elems) :: lens[x] == 0
    requires 0 <= maxCode < stat.elems && maxCode in Used(w, stat.elems) && forall x | x in Used(w, stat.elems) ::
             x <= maxCode
    ensures var n := stat.elems; Built(stat, f[..n], w[..n], lens[..n], maxCode) && G.CountsOf(lens[..n], counts)
  {
    var n := stat.elems;
    ForcesRestrict(f, w, n, forced, stat);
    UsedRestrict(w, n);
    hide Cost, LowerBound, FullCode, GoodStatic, Monotone, BuiltCode, G.CountsOf;
    BuiltIs(stat, w, lens, counts);
    assert n <= |f| && n <= |w|;
    hide Forces;
  }

  /** The bits it will take. */
  lemma BuiltBits(stat: Static, f: seq<nat>, w: seq<nat>, forced: set<nat>, lens: seq<nat>, counts: seq<nat>)
    requires Forces(f, w, stat.elems, forced, stat) && |w| == |lens| && 2 <= |Used(w, stat.elems)|
    requires FullCode(Used(w, stat.elems), lens, counts, stat.maxLength)
    ensures var n := stat.elems; var a := Used(w, n);
      && Cost(a, w, lens) + Cost(a, w, Extras(stat, |w|)) - |forced| == BitsOf(stat, f[..n], n, lens[..n])
      && StaticCost(stat, a, w) - Debit(stat, forced, |w|) == StaticCost(stat, Used(f[..n], n), f[..n])
  {
    var n := stat.elems;
    ForcedShort(f, w, n, forced, stat, lens, counts);
    ForcedBits(f, w, n, forced, stat, lens);
    assert n <= |f| == |w|;
    hide Cost, FullCode, StaticCost, Debit, BitsOf, Forces;
    BitsRestrict(stat, f, n, lens);
  }

  lemma ForcesSame(f: seq<nat>, w1: seq<nat>, w: seq<nat>, n: nat, forced: set<nat>, stat: Static)
    requires Forces(f, w1, n, forced, stat) && |w| == |w1| && forall x: nat | x < n && x < |w| :: w[x] == w1[x]
    ensures Forces(f, w, n, forced, stat) && Used(w, n) == Used(w1, n)
  {
    assert Used(w, n) == Used(w1, n);
  }

  lemma ForcesRestrict(f: seq<nat>, w: seq<nat>, n: nat, forced: set<nat>, stat: Static)
    requires Forces(f, w, n, forced, stat)
    ensures Forces(f[..n], w[..n], n, forced, stat)
  {
    UsedRestrict(w, n);
  }

  /** The merges that `popped` lists, of nodes with the given weights, make a Huffman tree for w. */
  ghost predicate TreeFor(popped: seq<nat>, weights: seq<nat>, w: seq<nat>, n: nat) {
    |w| <= |weights| && w == weights[..|w|] && Merged(Used(w, |w|), popped, weights, |w|, n)
  }

  /** build_tree, for frequencies whose total fits 16 bits even when one more is forced: a full canonical code of words
      no longer than the maximum, stored as sent, and the exact number of bits the symbols and their extra bits take,
      with this code and with the static one.  The heap holds the Huffman tree: when none of its leaves is deeper than
      the maximum, and so whenever the total is small enough, no prefix code takes fewer bits. */
  method Build(s: Deflate, t: Tree, ghost f: seq<nat>)
    returns (ghost w: seq<nat>, ghost lens: seq<nat>, ghost weights: seq<nat>, ghost n: nat)
    requires Separate(s, t) && f == t.fc[..] && FitsShort(f, t.stat.elems)
    modifies s, s.heap, s.depth, s.blCount, t.fc, t.dl, t`maxCode
    ensures lens == t.dl[..t.stat.elems] && Built(t.stat, f[..t.stat.elems], w, lens, t.maxCode)
    ensures s.heapMax < |s.heap[..]| && TreeFor(Popped(s.heap[..], s.heapMax + 1), weights, w, n)
    ensures !Deeper(Used(w, |w|), Popped(s.heap[..], s.heapMax + 1), |w|, n, t.stat.maxLength)
            ==> Optimal(Used(w, |w|), w, lens)
    ensures Sum(Used(f, t.stat.elems), f) < Fib(t.stat.maxLength + 3) ==> Optimal(Used(w, |w|), w, lens)
    ensures forall x | 0 <= x < t.stat.elems && lens[x] > 0 :: G.Coded(lens, x, t.fc[x])
    ensures s.optLen == old(s.optLen) + BitsOf(t.stat, f[..t.stat.elems], t.stat.elems, lens)
    ensures s.staticLen == old(s.staticLen)
            + StaticCost(t.stat, Used(f[..t.stat.elems], t.stat.elems), f[..t.stat.elems])
  {
    hide GoodStatic, Built, BitsOf, StaticCost, G.CountsOf, C.Subscribed, G.Coded, TreeFor, Optimal, Deeper, Fib,
         FitsShort;
    ghost var counts;
    w, lens, counts, weights, n := Lengths(s, t, f);
    BuiltSubscribed(t.stat, f[..t.stat.elems], w, lens, t.maxCode);
    G.Generate(t.fc, t.dl, t.maxCode, s.blCount[..], lens);
  }

  lemma BuiltSubscribed(stat: Static, f: seq<nat>, w: seq<nat>, lens: seq<nat>, maxCode: int)
    requires Built(stat, f, w, lens, maxCode)
    ensures C.Subscribed(lens) && 0 <= maxCode < |lens| == stat.elems && forall x | maxCode < x < |lens| :: lens[x] == 0
  {
    hide C.Subscribed;
  }

  lemma LeavesKept(f: seq<nat>, hp: seq<nat>, len: nat, w1: seq<nat>, depth: seq<nat>, dl1: seq<nat>, forced: set<nat>,
                   stat: Static,
                   maxCode: int, w2: seq<nat>, dl2: seq<nat>)
    requires LeavesAt(f, hp, len, 1, w1, depth, dl1, forced, stat, maxCode) && |w2| == |w1| == |dl2| == |dl1|
    requires forall x: nat | x < stat.elems && x < |w1| ::
             w2[x] == w1[x] && (x !in Used(w1, stat.elems) ==> dl2[x] == dl1[x])
    ensures Forces(f, w2, stat.elems, forced, stat) && Used(w2, stat.elems) == Used(w1, stat.elems)
    ensures forall x: nat | x < stat.elems && x !in Used(w2, stat.elems) :: dl2[x] == 0
  {
    ForcesSame(f, w1, w2, stat.elems, forced, stat);
    hide Forces, HeapingAt;
  }

  /** A small total makes no tree too deep, with or without forced codes. */
  lemma SmallEnough(f: seq<nat>, w: seq<nat>, elems: nat, forced: set<nat>, stat: Static, popped: seq<nat>,
                    weights: seq<nat>, n: nat)
    requires Forces(f, w, elems, forced, stat) && Merged(Used(w, elems), popped, weights, elems, n)
             && 0 < stat.maxLength
    requires elems <= |weights| && |weights| == |w| && forall x: nat | x < elems && x < |w| :: weights[x] == w[x]
    requires Sum(Used(f, elems), f) < Fib(stat.maxLength + 3)
    ensures !Deeper(Used(w, elems), popped, elems, n, stat.maxLength)
  {
    hide Merged, Deeper, Fib;
    var a := Used(w, elems);
    SumSame(a, a, weights, w);
    if forced == {} {
      assert Used(f, elems) == a;
      SumSame(a, a, w, f);
    } else {
      ForcedPair(f, w, elems, forced, stat);
      FibThree(stat.maxLength);
    }
    if forced == {} { SmallTotal(a, popped, weights, elems, n, stat.maxLength); } else {
      PairShallow(a, popped, weights, elems, n, stat.maxLength);
    }
  }

  lemma FibThree(n: nat)
    ensures Fib(n + 3) >= 2
  {
    FibGrows(3, n + 3);
    assert Fib(3) == 2;
  }

  lemma ForcedPair(f: seq<nat>, w: seq<nat>, elems: nat, forced: set<nat>, stat: Static)
    requires Forces(f, w, elems, forced, stat) && forced != {}
    ensures |Used(w, elems)| <= 2
  {
  }

  /** A tree of two leaves. */
  lemma PairShallow(a: set<nat>, popped: seq<nat>, weights: seq<nat>, first: nat, n: nat, max: nat)
    requires Merged(a, popped, weights, first, n) && |a| <= 2 && 0 < max
    ensures !Deeper(a, popped, first, n, max)
  {
    assert n == 1;
    forall i: nat | i < 2 * n && i < |popped| && popped[i] in a
      ensures PoppedDepth(popped, first, n, i) <= max
    {
      assert i / 2 == 0;
      var j := FatherPopped(a, popped, weights, first, n, 0);
    }
  }

  lemma TreeForIs(popped: seq<nat>, weights: seq<nat>, elems: nat, n: nat)
    requires elems <= |weights| && Merged(Used(weights, elems), popped, weights, elems, n)
    ensures TreeFor(popped, weights, weights[..elems], n)
  {
    UsedRestrict(weights, elems);
    hide Merged;
  }

  /** What is known of the code if no leaf is too deep, and that none is if the total is small. */
  lemma TreeBest(f: seq<nat>, weights: seq<nat>, elems: nat, forced: set<nat>, stat: Static, popped: seq<nat>, n: nat,
                 lens: seq<nat>)
    requires Forces(f, weights, elems, forced, stat) && elems <= |weights| == |lens| && 0 < stat.maxLength
    requires Merged(Used(weights, elems), popped, weights, elems, n)
    requires !Deeper(Used(weights, elems), popped, elems, n, stat.maxLength) ==>
               LowerBound(Used(weights, elems), weights, Cost(Used(weights, elems), weights, lens))
    ensures TreeFor(popped, weights, weights[..elems], n)
    ensures var w, l := weights[..elems], lens[..elems]; var a := Used(w, |w|);
      && (!Deeper(a, popped, |w|, n, stat.maxLength) ==> Optimal(a, w, l))
      && (Sum(Used(f, elems), f) < Fib(stat.maxLength + 3) ==> Optimal(a, w, l))
  {
    hide Merged, Deeper, Optimal, Fib, TreeFor, LowerBound, Cost;
    assert |f| == |weights|;
    hide Forces;
    TreeForIs(popped, weights, elems, n);
    UsedRestrict(weights, elems);
    if !Deeper(Used(weights, elems), popped, elems, n, stat.maxLength) {
      OptimalRestrict(Used(weights, elems), weights, lens, elems);
    }
    if Sum(Used(f, elems), f) < Fib(stat.maxLength + 3) {
      SmallEnough(f, weights, elems, forced, stat, popped, weights, n);
    }
  }

  /** build_tree up to gen_bitlen. */
  method Lengths(s: Deflate, t: Tree, ghost f: seq<nat>)
    returns (ghost w: seq<nat>, ghost lens: seq<nat>, ghost counts: seq<nat>, ghost weights: seq<nat>, ghost n: nat)
    requires Separate(s, t) && f == t.fc[..] && FitsShort(f, t.stat.elems)
    modifies s, s.heap, s.depth, s.blCount, t.fc, t.dl, t`maxCode
    ensures lens == t.dl[..t.stat.elems] && Built(t.stat, f[..t.stat.elems], w, lens, t.maxCode)
    ensures counts == s.blCount[..] && G.CountsOf(lens, counts)
    ensures s.heapMax < |s.heap[..]| && TreeFor(Popped(s.heap[..], s.heapMax + 1), weights, w, n)
    ensures !Deeper(Used(w, |w|), Popped(s.heap[..], s.heapMax + 1), |w|, n, t.stat.maxLength)
            ==> Optimal(Used(w, |w|), w, lens)
    ensures Sum(Used(f, t.stat.elems), f) < Fib(t.stat.maxLength + 3) ==> Optimal(Used(w, |w|), w, lens)
    ensures s.optLen == old(s.optLen) + BitsOf(t.stat, f[..t.stat.elems], t.stat.elems, lens)
    ensures s.staticLen == old(s.staticLen)
            + StaticCost(t.stat, Used(f[..t.stat.elems], t.stat.elems), f[..t.stat.elems])
  {
    ghost var hp, w1, depth, dl1, dl2, forced, popped, all;
    hide Built, BitsOf, StaticCost, LeavesAt, Debit, Ready, FullCode, Monotone, LowerBound, Cost, Optimal, Deeper,
         TreeFor, Merged, Fib, FitsShort, GoodStatic, Forces, Used, G.CountsOf;
    hp, w1, depth, dl1, forced := MakeLeaves(s, t, f);
    LeavesMerge(f, hp, s.heapLen, w1, depth, dl1, forced, t.stat, t.maxCode);
    ghost var leaves := Used(w1, t.stat.elems);
    popped, weights, dl2, n := MakeTree(s, t, leaves, hp, w1, depth, dl1, Sum(leaves, w1));
    all, counts := GenBitLen(s, t, leaves, popped, weights, dl2, n);
    lens, w := all[..t.stat.elems], weights[..t.stat.elems];
    LeavesKept(f, hp, |leaves|, w1, depth, dl1, forced, t.stat, t.maxCode, weights, dl2);
    ReadyTree(s.heap[..], s.heapMax, t.stat, t.maxCode, leaves, popped, weights, dl2, n);
    StaticFacts(t.stat);
    TreeBest(f, weights, t.stat.elems, forced, t.stat, popped, n, all);
    BuiltCodeIs(t.stat, f, weights, forced, all, counts, t.maxCode);
    BuiltBits(t.stat, f, weights, forced, all, counts);
  }

  lemma ReadyTree(hp: seq<nat>, heapMax: nat, stat: Static, maxCode: int, leaves: set<nat>, popped: seq<nat>,
                  w: seq<nat>, dl: seq<nat>, n: nat)
    requires Ready(hp, heapMax, stat, maxCode, leaves, popped, w, dl, n)
    ensures heapMax < |hp| && popped == Popped(hp, heapMax + 1) && Merged(leaves, popped, w, stat.elems, n)
  {
    hide Merged, Dads;
  }
}
