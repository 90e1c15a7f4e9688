/** build_tree of trees.c, with pqdownheap and gen_bitlen, on the arrays of deflate_state and its tree descriptors. The
    fields that share storage do so here: `fc` holds frequencies and then codes, `dl` fathers and then lengths. opt_len
    and static_len are unbounded integers; the source's wrap below zero while a code is being forced, and back. */
module HuffmanTree {
  import opened Wrappers
  import opened Kraft
  import opened HuffmanOptimal
  import opened TreeLengths
  import opened TreeDepth
  import opened LengthLimit
  import opened BitLengths
  import opened NodeHeap

  const HEAP_SIZE: nat := 573
  const MAX_BITS: nat := 15

  /** static_tree_desc. */
  datatype Static = Static(lens: Option<seq<nat>>, extra: seq<nat>, base: nat, elems: nat, maxLength: nat)

  /** The part of deflate_state that the trees share. */
  class Deflate {
    const heap: array<nat>
    const depth: array<nat>
    const blCount: array<nat>
    var heapLen: nat
    var heapMax: nat
    var optLen: int
    var staticLen: int

    constructor ()
      ensures fresh(heap) && fresh(depth) && fresh(blCount) && optLen == staticLen == 0
      ensures heap.Length == depth.Length == HEAP_SIZE && blCount.Length == MAX_BITS + 1
      ensures heap != depth && heap != blCount && depth != blCount
    {
      heap := new nat[HEAP_SIZE](_ => 0);
      depth := new nat[HEAP_SIZE](_ => 0);
      blCount := new nat[MAX_BITS + 1](_ => 0);
      heapLen, heapMax, optLen, staticLen := 0, HEAP_SIZE, 0, 0;
    }
  }

  /** tree_desc with its dyn_tree. */
  class Tree {
    const fc: array<nat>
    const dl: array<nat>
    var maxCode: int
    const stat: Static

    constructor (stat: Static, size: nat)
      ensures fresh(fc) && fresh(dl) && fc != dl && fc.Length == dl.Length == size && this.stat == stat
    {
      fc := new nat[size](_ => 0);
      dl := new nat[size](_ => 0);
      maxCode := 0;
      this.stat := stat;
    }
  }

  /** The three kinds of tree: 3 to 286 symbols, no more than there are codes of the maximum length, no extra bits for
      the first three symbols. */
  ghost predicate GoodStatic(stat: Static) {
    && 3 <= stat.elems <= 286 && 0 < stat.maxLength <= MAX_BITS && stat.elems <= Pow2(stat.maxLength)
    && stat.elems <= stat.base + |stat.extra|
    && (stat.lens.Some? ==> stat.elems <= |stat.lens.value|)
    && (forall x | 0 <= x < 3 :: XBits(stat, x) == 0)
  }

  lemma StaticFacts(stat: Static)
    requires GoodStatic(stat)
    ensures stat.elems <= 286 && 0 < stat.maxLength <= MAX_BITS && (stat.lens.Some? ==> stat.elems <= |stat.lens.value|)
  {
  }

  ghost predicate Separate(s: Deflate, t: Tree) {
    && s.heap.Length == s.depth.Length == HEAP_SIZE && s.blCount.Length == MAX_BITS + 1
    && GoodStatic(t.stat) && 2 * t.stat.elems < t.fc.Length == t.dl.Length <= HEAP_SIZE
    && s.heap != s.depth && s.heap != s.blCount && s.depth != s.blCount && t.fc != t.dl
    && t.fc != s.heap && t.fc != s.depth && t.fc != s.blCount
    && t.dl != s.heap && t.dl != s.depth && t.dl != s.blCount
  }

  function XBits(stat: Static, x: nat): nat {
    if stat.base <= x < stat.base + |stat.extra| then stat.extra[x - stat.base] else 0
  }

  function Extras(stat: Static, size: nat): (r: seq<nat>)
    ensures |r| == size && forall x: nat | x < size :: r[x] == XBits(stat, x)
  {
    seq(size, (x: nat) => XBits(stat, x))
  }

  function StaticLens(stat: Static, size: nat): (r: seq<nat>)
    ensures |r| == size
  {
    seq(size, (x: nat) => if stat.lens.Some? && x < |stat.lens.value| then stat.lens.value[x] else 0)
  }

  // -- pqdownheap -----------------------------------------------------------------------------------------------

  /** Frequencies decide, depths break ties; depths are bytes. */
  function Keys(fc: seq<nat>, depth: seq<nat>): (r: seq<nat>)
    requires |fc| <= |depth|
    ensures |r| == |fc| && forall x: nat | x < |fc| :: r[x] == fc[x] * 256 + depth[x] % 256
  {
    seq(|fc|, (x: nat) requires x < |fc| <= |depth| => fc[x] * 256 + depth[x] % 256)
  }

  predicate Smaller(fc: seq<nat>, depth: seq<nat>, n: nat, m: nat)
    requires n < |fc| <= |depth| && m < |fc|
  {
    fc[n] < fc[m] || (fc[n] == fc[m] && depth[n] <= depth[m])
  }

  lemma SmallerIsKey(fc: seq<nat>, depth: seq<nat>, n: nat, m: nat)
    requires n < |fc| <= |depth| && m < |fc| && depth[n] < 256 && depth[m] < 256
    ensures Smaller(fc, depth, n, m) <==> Key(Keys(fc, depth), n) <= Key(Keys(fc, depth), m)
  {
  }

  /** Every node in the heap has a frequency and a one-byte depth. */
  ghost predicate HeapNodes(hp: seq<nat>, len: nat, size: nat, depth: seq<nat>) {
    len < |hp| && size <= |depth| && forall i | 1 <= i <= len :: hp[i] < size && depth[hp[i]] < 256
  }

  lemma NodeAt(hp: seq<nat>, len: nat, size: nat, depth: seq<nat>, i: nat)
    requires HeapNodes(hp, len, size, depth) && 1 <= i <= len
    ensures len < |hp| && size <= |depth| && hp[i] < size && depth[hp[i]] < 256
  {
  }

  lemma NodeMoves(hp: seq<nat>, len: nat, size: nat, depth: seq<nat>, k: nat, i: nat)
    requires HeapNodes(hp, len, size, depth) && 1 <= i <= len && 1 <= k <= len
    ensures HeapNodes(hp[k := hp[i]], len, size, depth)
  {
  }

  /** One turn of the loop of pqdownheap. */
  lemma SiftTurn(hp: seq<nat>, len: nat, k: nat, v: nat, key: seq<nat>)
    requires 1 <= k && 2 * k <= len < |hp|
    ensures var j := SmallerSon(hp, len, k, key);
      SiftDown(hp, len, k, v, key)
      == if Key(key, v) <= Key(key, hp[j]) then hp[k := v] else SiftDown(hp[k := hp[j]], len, j, v, key)
  {
    hide SmallerSon, Key;
  }

  lemma SiftEnds(hp: seq<nat>, len: nat, k: nat, v: nat, key: seq<nat>)
    requires 1 <= k <= len < |hp| && 2 * k > len
    ensures SiftDown(hp, len, k, v, key) == hp[k := v]
  {
  }

  method PqDownHeap(s: Deflate, t: Tree, start: nat, ghost hp: seq<nat>, ghost key: seq<nat>)
    requires Separate(s, t) && hp == s.heap[..] && key == Keys(t.fc[..], s.depth[..])
    requires 1 <= start <= s.heapLen && HeapNodes(hp, s.heapLen, t.fc.Length, s.depth[..])
    modifies s.heap
    ensures s.heap[..] == SiftDown(hp, s.heapLen, start, hp[start], key)
  {
    hide GoodStatic, SiftDown, HeapNodes;
    NodeAt(hp, s.heapLen, t.fc.Length, s.depth[..], start);
    var k := start;
    var v := s.heap[k];
    var j := 2 * k;
    while j <= s.heapLen
      invariant 1 <= k <= s.heapLen && j == 2 * k
      invariant HeapNodes(s.heap[..], s.heapLen, t.fc.Length, s.depth[..])
      invariant SiftDown(s.heap[..], s.heapLen, k, v, key) == SiftDown(hp, s.heapLen, start, v, key)
      decreases s.heapLen - k
    {
      SiftTurn(s.heap[..], s.heapLen, k, v, key);
      NodeAt(s.heap[..], s.heapLen, t.fc.Length, s.depth[..], j);
      if j < s.heapLen {
        NodeAt(s.heap[..], s.heapLen, t.fc.Length, s.depth[..], j + 1);
        SmallerIsKey(t.fc[..], s.depth[..], s.heap[j + 1], s.heap[j]);
      }
      if j < s.heapLen && Smaller(t.fc[..], s.depth[..], s.heap[j + 1], s.heap[j]) {
        j := j + 1;
      }
      SmallerIsKey(t.fc[..], s.depth[..], v, s.heap[j]);
      assert j == SmallerSon(s.heap[..], s.heapLen, k, key);
      if Smaller(t.fc[..], s.depth[..], v, s.heap[j]) {
        break;
      }
      NodeMoves(s.heap[..], s.heapLen, t.fc.Length, s.depth[..], k, j);
      s.heap[k] := s.heap[j];
      k := j;
      j := 2 * j;
    }
    if j > s.heapLen { SiftEnds(s.heap[..], s.heapLen, k, v, key); }
    s.heap[k] := v;
  }

  // -- gen_bitlen -----------------------------------------------------------------------------------------------

  /** heap[top..], from its end: the nodes in the order they were popped. */
  function Popped(hp: seq<nat>, top: nat): (r: seq<nat>)
    requires top <= |hp|
    ensures |r| == |hp| - top && forall i: nat | i < |r| :: r[i] == hp[|hp| - 1 - i]
  {
    seq(|hp| - top, (i: nat) requires i < |hp| - top => hp[|hp| - 1 - i])
  }

  /** The sons popped as the j-th pair have father `first + j`. */
  ghost predicate Dads(popped: seq<nat>, dl: seq<nat>, first: nat) {
    forall i | 0 <= i < |popped| :: popped[i] < |dl| && dl[popped[i]] == first + i / 2
  }

  /** The state in which build_tree calls gen_bitlen: n merges have been made, and `dl` holds the fathers. */
  ghost predicate Ready(hp: seq<nat>, heapMax: nat, stat: Static, maxCode: int, leaves: set<nat>, popped: seq<nat>,
                        w: seq<nat>, dl: seq<nat>, n: nat) {
    && |hp| == HEAP_SIZE == heapMax + 2 * n + 1 && hp[heapMax] == stat.elems + n - 1
    && popped == Popped(hp, heapMax + 1) && |w| == |dl|
    && Merged(leaves, popped, w, stat.elems, n) && Dads(popped, dl, stat.elems)
    && (forall x | x in leaves :: x <= maxCode) && maxCode < stat.elems
  }

  /** Bits sent with the static tree. */
  function StaticCost(stat: Static, a: set<nat>, w: seq<nat>): int {
    if stat.lens.Some? then Cost(a, w, StaticLens(stat, |w|)) + Cost(a, w, Extras(stat, |w|)) else 0
  }

  lemma StaticVisit(stat: Static, a: set<nat>, w: seq<nat>, x: nat)
    requires x !in a && x < |w|
    ensures Cost(a + {x}, w, Extras(stat, |w|)) == Cost(a, w, Extras(stat, |w|)) + w[x] * XBits(stat, x)
    ensures stat.lens.Some? && x < |stat.lens.value| ==>
      StaticCost(stat, a + {x}, w) == StaticCost(stat, a, w) + w[x] * (stat.lens.value[x] + XBits(stat, x))
    ensures stat.lens.None? ==> StaticCost(stat, a + {x}, w) == 0
  {
    SumAdd(a, Products(w, Extras(stat, |w|)), x);
    SumAdd(a, Products(w, StaticLens(stat, |w|)), x);
  }

  method ClearCounts(blCount: array<nat>)
    modifies blCount
    ensures forall b | 0 <= b < blCount.Length :: blCount[b] == 0
  {
    for bits := 0 to blCount.Length
      invariant forall b | 0 <= b < bits :: blCount[b] == 0
    {
      blCount[bits] := 0;
    }
  }

  lemma EmptyCosts(stat: Static, w: seq<nat>, lens: seq<nat>)
    requires |w| == |lens|
    ensures Cost({}, w, lens) == 0 && Cost({}, w, Extras(stat, |w|)) == 0 && StaticCost(stat, {}, w) == 0
  {
    SumEmpty(Products(w, lens));
    SumEmpty(Products(w, Extras(stat, |w|)));
    SumEmpty(Products(w, StaticLens(stat, |w|)));
  }

  /** What counting leaf x adds. */
  function OptBits(stat: Static, w: seq<nat>, x: nat, bits: nat): nat
    requires x < |w|
  {
    w[x] * (bits + XBits(stat, x))
  }

  function StaticBits(stat: Static, w: seq<nat>, x: nat): nat
    requires x < |w|
  {
    if stat.lens.Some? && x < |stat.lens.value| then w[x] * (stat.lens.value[x] + XBits(stat, x)) else 0
  }

  /** The bits counted so far, for the leaves in a. */
  ghost predicate CostsAt(stat: Static, a: set<nat>, w: seq<nat>, lens: seq<nat>, opt: int, sent: int) {
    |w| == |lens| && opt == Cost(a, w, lens) + Cost(a, w, Extras(stat, |w|)) && sent == StaticCost(stat, a, w)
  }

  lemma CostsVisit(stat: Static, a: set<nat>, w: seq<nat>, lens: seq<nat>, opt: int, sent: int, x: nat, bits: nat)
    requires CostsAt(stat, a, w, lens, opt, sent) && x !in a && x < |lens|
    requires stat.lens.Some? ==> x < |stat.lens.value|
    ensures CostsAt(stat, a + {x}, w, lens[x := bits], opt + OptBits(stat, w, x, bits), sent + StaticBits(stat, w, x))
  {
    CostVisit(a, w, lens, x, bits);
    StaticVisit(stat, a, w, x);
    hide Cost;
    assert w[x] * (bits + XBits(stat, x)) == w[x] * bits + w[x] * XBits(stat, x);
  }

  lemma CostsSkip(stat: Static, a: set<nat>, w: seq<nat>, lens: seq<nat>, opt: int, sent: int, x: nat, bits: nat)
    requires CostsAt(stat, a, w, lens, opt, sent) && x !in a && x < |lens|
    ensures CostsAt(stat, a, w, lens[x := bits], opt, sent)
  {
    CostVisit(a, w, lens, x, bits);
  }

  /** Where the first loop stands: node popped[i - 1] is next. */
  ghost predicate PassInv(stat: Static, leaves: set<nat>, popped: seq<nat>, w: seq<nat>, lens: seq<nat>, n: nat, i: nat,
                          counts: seq<nat>,
                          overflow: nat, opt: int, sent: int) {
    && |w| == |lens| && i <= |popped| && stat.maxLength < |counts|
    && PassAt(leaves, popped, lens, stat.elems, n, stat.maxLength, i, counts, overflow)
    && CostsAt(stat, PoppedFrom(leaves, popped, i), w, lens, opt, sent)
    && (forall b | stat.maxLength < b < |counts| :: counts[b] == 0)
  }

  lemma PassFirst(stat: Static, leaves: set<nat>, popped: seq<nat>, w: seq<nat>, lens: seq<nat>, n: nat,
                  counts: seq<nat>)
    requires Merged(leaves, popped, w, stat.elems, n) && |w| == |lens| && stat.maxLength < |counts|
             && forall b | 0 <= b < |counts| :: counts[b] == 0
    requires Dads(popped, lens, stat.elems)
    ensures PassInv(stat, leaves, popped, w, lens[stat.elems + n - 1 := 0], n, 2 * n, counts, 0, 0, 0)
  {
    PassStarts(leaves, popped, w, lens, stat.elems, n, stat.maxLength, counts);
    EmptyCosts(stat, w, lens[stat.elems + n - 1 := 0]);
    hide PassAt, Cost, StaticCost, PoppedFrom;
  }

  /** What the loop body relies on. */
  lemma PassNext(stat: Static, leaves: set<nat>, popped: seq<nat>, w: seq<nat>, lens: seq<nat>, n: nat, i: nat,
                 counts: seq<nat>,
                 overflow: nat, opt: int, sent: int)
    requires Merged(leaves, popped, w, stat.elems, n) && 0 < i
             && PassInv(stat, leaves, popped, w, lens, n, i, counts, overflow, opt, sent)
    ensures i <= |popped| &&
      var x := popped[i - 1];
      x < |lens| && lens[x] < |lens| && lens[lens[x]] <= stat.maxLength && (x in leaves <==> x < stat.elems)
  {
    hide Merged, PassAt, CostsAt;
    PassFacts(leaves, popped, w, lens, stat.elems, n, stat.maxLength, i, counts, overflow);
  }

  lemma PassSets(leaves: set<nat>, popped: seq<nat>, w: seq<nat>, first: nat, n: nat, i: nat)
    requires Merged(leaves, popped, w, first, n) && 0 < i <= |popped|
    ensures var x := popped[i - 1];
      && x !in PoppedFrom(leaves, popped, i)
      && PoppedFrom(leaves, popped, i - 1)
         == (if x in leaves then PoppedFrom(leaves, popped, i) + {x} else PoppedFrom(leaves, popped, i))
  {
    PoppedKinds(leaves, popped, w, first, n);
    assert |popped| == 2 * n;
    hide Merged;
    PoppedFromStep(leaves, popped, i - 1);
    hide PoppedFrom;
  }

  ghost predicate Turn(stat: Static, popped: seq<nat>, lens: seq<nat>, i: nat, overflow: nat, x: nat, bits: nat,
                       overflow': nat) {
    && 0 < i <= |popped| && x == popped[i - 1] && x < |lens| && lens[x] < |lens|
    && bits == Min(stat.maxLength, lens[lens[x]] + 1)
    && overflow' == if lens[lens[x]] + 1 > stat.maxLength then overflow + 1 else overflow
  }

  lemma TurnFacts(stat: Static, leaves: set<nat>, popped: seq<nat>, w: seq<nat>, lens: seq<nat>, n: nat, i: nat,
                  counts: seq<nat>,
                  overflow: nat, opt: int, sent: int, x: nat, bits: nat, overflow': nat)
    requires Merged(leaves, popped, w, stat.elems, n)
             && PassInv(stat, leaves, popped, w, lens, n, i, counts, overflow, opt, sent)
    requires Turn(stat, popped, lens, i, overflow, x, bits, overflow')
    ensures stat.maxLength < |counts| && bits <= stat.maxLength && |w| == |lens| && (x in leaves <==> x < stat.elems)
    ensures CostsAt(stat, PoppedFrom(leaves, popped, i), w, lens, opt, sent)
            && forall b | stat.maxLength < b < |counts| :: counts[b] == 0
    ensures PassAt(leaves, popped, lens[x := bits], stat.elems, n, stat.maxLength, i - 1,
                   if x in leaves then counts[bits := counts[bits] + 1] else counts, overflow')
  {
    PassNext(stat, leaves, popped, w, lens, n, i, counts, overflow, opt, sent);
    PassStep(leaves, popped, w, lens, stat.elems, n, stat.maxLength, i, counts, overflow, x, bits);
    MinIs(stat.maxLength, lens[lens[x]] + 1);
    hide Merged, PassAt, CostsAt, PoppedFrom, Min;
  }

  lemma LeafTurn(stat: Static, leaves: set<nat>, popped: seq<nat>, w: seq<nat>, lens: seq<nat>, n: nat, i: nat,
                 counts: seq<nat>,
                 overflow: nat, opt: int, sent: int, x: nat, bits: nat, overflow': nat)
    requires Merged(leaves, popped, w, stat.elems, n)
             && PassInv(stat, leaves, popped, w, lens, n, i, counts, overflow, opt, sent)
    requires (stat.lens.Some? ==> stat.elems <= |stat.lens.value|)
    requires Turn(stat, popped, lens, i, overflow, x, bits, overflow') && x < stat.elems && bits < |counts|
    ensures PassInv(stat, leaves, popped, w, lens[x := bits], n, i - 1, counts[bits := counts[bits] + 1], overflow',
                    opt + OptBits(stat, w, x, bits), sent + StaticBits(stat, w, x))
  {
    TurnFacts(stat, leaves, popped, w, lens, n, i, counts, overflow, opt, sent, x, bits, overflow');
    PassSets(leaves, popped, w, stat.elems, n, i);
    hide Merged, PassAt, CostsAt, PoppedFrom, Min, OptBits, StaticBits;
    CostsVisit(stat, PoppedFrom(leaves, popped, i), w, lens, opt, sent, x, bits);
  }

  lemma NodeTurn(stat: Static, leaves: set<nat>, popped: seq<nat>, w: seq<nat>, lens: seq<nat>, n: nat, i: nat,
                 counts: seq<nat>,
                 overflow: nat, opt: int, sent: int, x: nat, bits: nat, overflow': nat)
    requires Merged(leaves, popped, w, stat.elems, n)
             && PassInv(stat, leaves, popped, w, lens, n, i, counts, overflow, opt, sent)
    requires Turn(stat, popped, lens, i, overflow, x, bits, overflow') && x >= stat.elems
    ensures PassInv(stat, leaves, popped, w, lens[x := bits], n, i - 1, counts, overflow', opt, sent)
  {
    TurnFacts(stat, leaves, popped, w, lens, n, i, counts, overflow, opt, sent, x, bits, overflow');
    PassSets(leaves, popped, w, stat.elems, n, i);
    hide Merged, PassAt, CostsAt, PoppedFrom, Min;
    CostsSkip(stat, PoppedFrom(leaves, popped, i), w, lens, opt, sent, x, bits);
  }

  lemma MergedSizes(leaves: set<nat>, popped: seq<nat>, w: seq<nat>, first: nat, n: nat)
    requires Merged(leaves, popped, w, first, n)
    ensures 0 < n && first + n <= |w| && |popped| == 2 * n && |leaves| == n + 1
  {
  }

  lemma ReadyFacts(hp: seq<nat>, heapMax: nat, stat: Static, maxCode: int, leaves: set<nat>, popped: seq<nat>,
                   w: seq<nat>, dl: seq<nat>, n: nat)
    requires Ready(hp, heapMax, stat, maxCode, leaves, popped, w, dl, n)
    ensures |popped| == 2 * n && heapMax + 2 * n + 1 == HEAP_SIZE == |hp| && Merged(leaves, popped, w, stat.elems, n)
            && Dads(popped, dl, stat.elems)
    ensures forall h | heapMax < h < HEAP_SIZE :: hp[h] == popped[HEAP_SIZE - 1 - h]
    ensures maxCode < stat.elems && forall x | x in leaves :: x <= maxCode
    ensures stat.elems <= hp[heapMax] == stat.elems + n - 1 < |dl|
  {
    MergedSizes(leaves, popped, w, stat.elems, n);
    hide Merged;
  }

  /** Counts leaf x, of length `bits`. */
  method TallyLeaf(s: Deflate, t: Tree, x: nat, bits: nat, ghost w: seq<nat>, ghost counts: seq<nat>, ghost opt: int,
                   ghost sent: int)
    returns (ghost counts': seq<nat>, ghost opt': int, ghost sent': int)
    requires Separate(s, t) && x < t.stat.elems && bits <= MAX_BITS && w == t.fc[..] && counts == s.blCount[..]
    modifies s`optLen, s`staticLen, s.blCount
    ensures s.blCount[..] == counts' == counts[bits := counts[bits] + 1]
    ensures s.optLen - opt' == old(s.optLen) - opt && opt' == opt + OptBits(t.stat, w, x, bits)
    ensures s.staticLen - sent' == old(s.staticLen) - sent && sent' == sent + StaticBits(t.stat, w, x)
  {
    counts', opt', sent' := counts[bits := counts[bits] + 1], opt + OptBits(t.stat, w, x, bits),
      sent + StaticBits(t.stat, w, x);
    s.blCount[bits] := s.blCount[bits] + 1;
    var xbits := 0;
    if x >= t.stat.base {
      xbits := t.stat.extra[x - t.stat.base];
    }
    var f := t.fc[x];
    s.optLen := s.optLen + f * (bits + xbits);
    if t.stat.lens.Some? {
      s.staticLen := s.staticLen + f * (t.stat.lens.value[x] + xbits);
    }
  }

  /** The length of node x, one more than its father's. */
  method SetLength(t: Tree, x: nat, overflow: nat, ghost lens: seq<nat>, ghost popped: seq<nat>, ghost i: nat)
      returns (bits: nat, overflow': nat)
    requires x < t.dl.Length && t.dl[x] < t.dl.Length && lens == t.dl[..] && 0 < i <= |popped| && x == popped[i - 1]
    modifies t.dl
    ensures bits <= t.stat.maxLength && t.dl[..] == lens[x := bits]
            && Turn(t.stat, popped, lens, i, overflow, x, bits, overflow')
  {
    bits, overflow' := t.dl[t.dl[x]] + 1, overflow;
    if bits > t.stat.maxLength {
      bits := t.stat.maxLength;
      overflow' := overflow' + 1;
    }
    t.dl[x] := bits;
  }

  /** One turn of the first loop, for node x. */
  method VisitNode(s: Deflate, t: Tree, x: nat, overflow: nat, ghost leaves: set<nat>, ghost popped: seq<nat>,
                   ghost n: nat, ghost i: nat,
                   ghost w: seq<nat>, ghost lens: seq<nat>, ghost counts: seq<nat>, ghost opt: int, ghost sent: int)
    returns (overflow': nat, ghost lens': seq<nat>, ghost counts': seq<nat>, ghost opt': int, ghost sent': int)
    requires Separate(s, t) && w == t.fc[..] && lens == t.dl[..] && counts == s.blCount[..]
    requires Merged(leaves, popped, w, t.stat.elems, n)
    requires t.maxCode < t.stat.elems && forall y | y in leaves :: y <= t.maxCode
    requires 0 < i && PassInv(t.stat, leaves, popped, w, lens, n, i, counts, overflow, opt, sent) && x == popped[i - 1]
    modifies s`optLen, s`staticLen, s.blCount, t.dl
    ensures t.dl[..] == lens' && s.blCount[..] == counts'
    ensures PassInv(t.stat, leaves, popped, w, lens', n, i - 1, counts', overflow', opt', sent')
    ensures s.optLen - opt' == old(s.optLen) - opt && s.staticLen - sent' == old(s.staticLen) - sent
    ensures x < |lens| && (x in leaves <==> x < t.stat.elems) && |lens'| == |lens| && lens' == lens[x := lens'[x]]
  {
    hide Merged, PassInv, GoodStatic, Keys, Min, OptBits, StaticBits, Turn;
    StaticFacts(t.stat);
    PassNext(t.stat, leaves, popped, w, lens, n, i, counts, overflow, opt, sent);
    var bits;
    bits, overflow' := SetLength(t, x, overflow, lens, popped, i);
    lens', counts', opt', sent' := lens[x := bits], counts, opt, sent;
    if x > t.maxCode {
      NodeTurn(t.stat, leaves, popped, w, lens, n, i, counts, overflow, opt, sent, x, bits, overflow');
      return;
    }
    LeafTurn(t.stat, leaves, popped, w, lens, n, i, counts, overflow, opt, sent, x, bits, overflow');
    counts', opt', sent' := TallyLeaf(s, t, x, bits, w, counts, opt, sent);
  }

  lemma MinIs(a: nat, b: nat)
    ensures Min(a, b) == if b > a then a else b
  {
  }

  /** Before the first loop: the root. */
  method StartPass(s: Deflate, t: Tree, ghost leaves: set<nat>, ghost popped: seq<nat>, ghost w: seq<nat>,
                   ghost dl: seq<nat>, ghost n: nat)
    returns (ghost lens: seq<nat>, ghost counts: seq<nat>)
    requires Separate(s, t) && w == t.fc[..] && dl == t.dl[..]
             && Ready(s.heap[..], s.heapMax, t.stat, t.maxCode, leaves, popped, w, dl, n)
    modifies s.blCount, t.dl
    ensures t.dl[..] == lens && s.blCount[..] == counts
    ensures PassInv(t.stat, leaves, popped, w, lens, n, 2 * n, counts, 0, 0, 0)
    ensures lens == dl[t.stat.elems + n - 1 := 0]
  {
    hide Merged, PassInv, Keys, Popped, Dads;
    ReadyFacts(s.heap[..], s.heapMax, t.stat, t.maxCode, leaves, popped, w, dl, n);
    ClearCounts(s.blCount);
    counts := s.blCount[..];
    PassFirst(t.stat, leaves, popped, w, dl, n, counts);
    t.dl[s.heap[s.heapMax]] := 0;
    lens := dl[t.stat.elems + n - 1 := 0];
  }

  /** The first loop: lengths from the root down, clamped; `overflow` nodes did not fit. */
  method FirstPass(s: Deflate, t: Tree, ghost leaves: set<nat>, ghost popped: seq<nat>, ghost w: seq<nat>,
                   ghost dl: seq<nat>, ghost n: nat)
    returns (overflow: nat, ghost lens: seq<nat>, ghost counts: seq<nat>, ghost opt: int, ghost sent: int)
    requires Separate(s, t) && w == t.fc[..] && dl == t.dl[..]
             && Ready(s.heap[..], s.heapMax, t.stat, t.maxCode, leaves, popped, w, dl, n)
    modifies s`optLen, s`staticLen, s.blCount, t.dl
    ensures t.dl[..] == lens && s.blCount[..] == counts
    ensures PassInv(t.stat, leaves, popped, w, lens, n, 0, counts, overflow, opt, sent)
    ensures s.optLen == old(s.optLen) + opt && s.staticLen == old(s.staticLen) + sent
    ensures |lens| == |dl| && forall x | 0 <= x < t.stat.elems && x !in leaves && x < |dl| :: lens[x] == dl[x]
  {
    hide Merged, PassInv, Keys, Popped, Dads;
    ReadyFacts(s.heap[..], s.heapMax, t.stat, t.maxCode, leaves, popped, w, dl, n);
    lens, counts := StartPass(s, t, leaves, popped, w, dl, n);
    hide Ready, GoodStatic;
    overflow, opt, sent := 0, 0, 0;
    for h := s.heapMax + 1 to HEAP_SIZE
      invariant t.dl[..] == lens && s.blCount[..] == counts
      invariant PassInv(t.stat, leaves, popped, w, lens, n, HEAP_SIZE - h, counts, overflow, opt, sent)
      invariant s.optLen == old(s.optLen) + opt && s.staticLen == old(s.staticLen) + sent
      invariant |lens| == |dl| && forall x | 0 <= x < t.stat.elems && x !in leaves && x < |dl| :: lens[x] == dl[x]
    {
      overflow, lens, counts, opt, sent :=
        VisitNode(s, t, s.heap[h], overflow, leaves, popped, n, HEAP_SIZE - h, w, lens, counts, opt, sent);
    }
  }

  // -- gen_bitlen after an overflow -----------------------------------------------------------------------------

  /** Where the last loop stands: popped[i] is next, k more leaves get the length `bits`. */
  ghost predicate AssignInv(leaves: set<nat>, popped: seq<nat>, w: seq<nat>, before: seq<nat>, lens: seq<nat>, max: nat,
                            i: nat,
                            counts: seq<nat>, given: seq<nat>, bits: nat, k: nat, opt: int) {
    && |w| == |lens| == |before| && AssignAt(leaves, popped, lens, max, i, counts, given, bits, k)
    && opt == Cost(leaves, w, lens) - Cost(leaves, w, before)
    && (forall x: nat | x < |lens| && x !in leaves :: lens[x] == before[x])
  }

  /** What giving leaf x the length `bits` adds. */
  function Change(w: seq<nat>, lens: seq<nat>, x: nat, bits: nat): int
    requires x < |w| == |lens|
  {
    (bits - lens[x]) * w[x]
  }

  lemma ChangeCost(leaves: set<nat>, w: seq<nat>, lens: seq<nat>, x: nat, bits: nat)
    requires x in leaves && x < |w| == |lens|
    ensures Cost(leaves, w, lens[x := bits]) == Cost(leaves, w, lens) + Change(w, lens, x, bits)
  {
    CostUpdate(leaves, w, lens, x, bits);
    hide Cost;
    assert (bits - lens[x]) * w[x] == w[x] * bits - w[x] * lens[x];
  }

  lemma AssignLeaf(leaves: set<nat>, popped: seq<nat>, w: seq<nat>, before: seq<nat>, lens: seq<nat>, max: nat, i: nat,
                   counts: seq<nat>, given: seq<nat>, bits: nat, k: nat, opt: int)
    requires AssignInv(leaves, popped, w, before, lens, max, i, counts, given, bits, k, opt) && k > 0
    requires i < |popped| && popped[i] in leaves && popped[i] < |lens| && forall j | 0 <= j < i ::
             popped[j] != popped[i]
    ensures bits < |given| &&
      AssignInv(leaves, popped, w, before, lens[popped[i] := bits], max, i + 1, counts, given[bits := given[bits] + 1],
                bits, k - 1,
                opt + Change(w, lens, popped[i], bits))
  {
    assert bits < |given|;
    AssignStep(leaves, popped, lens, max, i, counts, given, bits, k);
    hide AssignAt, Cost, Change;
    ChangeCost(leaves, w, lens, popped[i], bits);
  }

  lemma AssignNode(leaves: set<nat>, popped: seq<nat>, w: seq<nat>, before: seq<nat>, lens: seq<nat>, max: nat, i: nat,
                   counts: seq<nat>, given: seq<nat>, bits: nat, k: nat, opt: int)
    requires AssignInv(leaves, popped, w, before, lens, max, i, counts, given, bits, k, opt)
    requires i < |popped| && popped[i] !in leaves && forall j | 0 <= j < i :: popped[j] != popped[i]
    ensures AssignInv(leaves, popped, w, before, lens, max, i + 1, counts, given, bits, k, opt)
  {
    AssignSkips(leaves, popped, lens, max, i, counts, given, bits, k);
    hide AssignAt, Cost;
  }

  lemma AssignMore(leaves: set<nat>, popped: seq<nat>, w: seq<nat>, before: seq<nat>, lens: seq<nat>, first: nat,
                   n: nat, max: nat, i: nat,
                   counts: seq<nat>, given: seq<nat>, bits: nat, k: nat, opt: int)
    requires AssignInv(leaves, popped, w, before, lens, max, i, counts, given, bits, k, opt) && k > 0
    requires Merged(leaves, popped, w, first, n) && CountSum(counts, max) == |leaves|
    ensures i < |popped| == 2 * n && popped[i] < |lens| && (popped[i] in leaves <==> popped[i] < first)
    ensures forall j | 0 <= j < i :: popped[j] != popped[i]
  {
    AllPopped(leaves, popped, w, first, n);
    PoppedKinds(leaves, popped, w, first, n);
    assert |popped| == 2 * n;
    hide Merged, CountSum, Cost;
    AssignGoesOn(leaves, popped, lens, max, i, counts, given, bits, k);
  }

  lemma AssignShorter(leaves: set<nat>, popped: seq<nat>, w: seq<nat>, before: seq<nat>, lens: seq<nat>, max: nat,
                      i: nat,
                      counts: seq<nat>, given: seq<nat>, bits: nat, opt: int)
    requires AssignInv(leaves, popped, w, before, lens, max, i, counts, given, bits, 0, opt) && bits > 0
    ensures bits - 1 < |counts| && AssignInv(leaves, popped, w, before, lens, max, i, counts, given, bits - 1,
                                             counts[bits - 1], opt)
  {
    hide Counts, Cost, PoppedBefore;
  }

  lemma AssignFirst(leaves: set<nat>, popped: seq<nat>, w: seq<nat>, lens: seq<nat>, max: nat, counts: seq<nat>)
      returns (given: seq<nat>)
    requires |w| == |lens| && max < |counts|
    ensures AssignInv(leaves, popped, w, lens, lens, max, 0, counts, given, max, counts[max], 0)
  {
    given := seq(|counts|, _ => 0);
    AssignStarts(leaves, popped, lens, max, counts, given);
    hide AssignAt, Cost;
  }

  method SetLeaf(s: Deflate, t: Tree, x: nat, bits: nat, ghost w: seq<nat>, ghost lens: seq<nat>)
    requires Separate(s, t) && x < t.fc.Length && w == t.fc[..] && lens == t.dl[..]
    modifies s`optLen, t.dl
    ensures t.dl[..] == lens[x := bits] && s.optLen == old(s.optLen) + Change(w, lens, x, bits)
  {
    if t.dl[x] != bits {
      s.optLen := s.optLen + (bits - t.dl[x]) * t.fc[x];
      t.dl[x] := bits;
    }
    assert t.dl[..] == lens[x := bits];
  }

  /** The nodes below the root in the heap array, from its end, are those popped. */
  ghost predicate Listed(hp: seq<nat>, heapMax: nat, stat: Static, maxCode: int, leaves: set<nat>, popped: seq<nat>,
                         w: seq<nat>, n: nat) {
    && |hp| == HEAP_SIZE == heapMax + 2 * n + 1 && |popped| == 2 * n && Merged(leaves, popped, w, stat.elems, n)
    && (forall h | heapMax < h < HEAP_SIZE :: hp[h] == popped[HEAP_SIZE - 1 - h])
    && maxCode < stat.elems && (forall x | x in leaves :: x <= maxCode)
  }

  /** One turn of the inner loop: the node at heap[h - 1]. */
  method GiveNext(s: Deflate, t: Tree, h: nat, bits: nat, k: nat, ghost leaves: set<nat>, ghost popped: seq<nat>,
                  ghost w: seq<nat>,
                  ghost before: seq<nat>, ghost i: nat, ghost counts: seq<nat>, ghost lens: seq<nat>,
                    ghost given: seq<nat>, ghost opt: int)
    returns (k': nat, ghost lens': seq<nat>, ghost given': seq<nat>, ghost opt': int)
    requires Separate(s, t) && w == t.fc[..] && lens == t.dl[..] && 0 < k && 0 < h <= HEAP_SIZE
    requires AssignInv(leaves, popped, w, before, lens, t.stat.maxLength, i, counts, given, bits, k, opt)
    requires i < |popped| && s.heap[h - 1] == popped[i] < |lens| && (popped[i] in leaves <==> popped[i] <= t.maxCode)
    requires forall j | 0 <= j < i :: popped[j] != popped[i]
    modifies s`optLen, t.dl
    ensures t.dl[..] == lens' && s.optLen - opt' == old(s.optLen) - opt && k' <= k
    ensures AssignInv(leaves, popped, w, before, lens', t.stat.maxLength, i + 1, counts, given', bits, k', opt')
  {
    hide GoodStatic, AssignInv, Change, Keys;
    var x := s.heap[h - 1];
    k', lens', given', opt' := k, lens, given, opt;
    if x > t.maxCode {
      AssignNode(leaves, popped, w, before, lens, t.stat.maxLength, i, counts, given, bits, k, opt);
      return;
    }
    AssignLeaf(leaves, popped, w, before, lens, t.stat.maxLength, i, counts, given, bits, k, opt);
    SetLeaf(s, t, x, bits, w, lens);
    opt', lens', given' := opt + Change(w, lens, x, bits), lens[x := bits], given[bits := given[bits] + 1];
    k' := k - 1;
  }

  /** The next node in the list. */
  lemma ListedMore(hp: seq<nat>, heapMax: nat, stat: Static, maxCode: int, leaves: set<nat>, popped: seq<nat>,
                   w: seq<nat>, n: nat,
                   before: seq<nat>, lens: seq<nat>, h: nat, counts: seq<nat>, given: seq<nat>, bits: nat, k: nat,
                     opt: int)
    requires Listed(hp, heapMax, stat, maxCode, leaves, popped, w, n)
    requires stat.maxLength < |counts| && CountSum(counts, stat.maxLength) == |leaves| && heapMax < h <= HEAP_SIZE
             && k > 0
    requires AssignInv(leaves, popped, w, before, lens, stat.maxLength, HEAP_SIZE - h, counts, given, bits, k, opt)
    ensures heapMax < h - 1 && h - 1 < |hp| && HEAP_SIZE - h < |popped|
    ensures hp[h - 1] == popped[HEAP_SIZE - h] < |lens|
            && (popped[HEAP_SIZE - h] in leaves <==> popped[HEAP_SIZE - h] <= maxCode)
    ensures forall j | 0 <= j < HEAP_SIZE - h :: popped[j] != popped[HEAP_SIZE - h]
  {
    hide Merged, CountSum, AssignInv;
    AssignMore(leaves, popped, w, before, lens, stat.elems, n, stat.maxLength, HEAP_SIZE - h, counts, given, bits, k,
               opt);
  }

  /** The inner loop: the next blCount[bits] leaves get the length `bits`. */
  method GiveLength(s: Deflate, t: Tree, start: nat, bits: nat, ghost leaves: set<nat>, ghost popped: seq<nat>,
                    ghost w: seq<nat>,
                    ghost before: seq<nat>, ghost n: nat, ghost counts: seq<nat>, ghost lens0: seq<nat>,
                      ghost given0: seq<nat>, ghost opt0: int)
    returns (h: nat, ghost lens: seq<nat>, ghost given: seq<nat>, ghost opt: int)
    requires Separate(s, t) && w == t.fc[..] && lens0 == t.dl[..] && counts == s.blCount[..] && bits < |counts|
    requires Listed(s.heap[..], s.heapMax, t.stat, t.maxCode, leaves, popped, w, n)
             && CountSum(counts, t.stat.maxLength) == |leaves|
    requires s.heapMax < start <= HEAP_SIZE
    requires AssignInv(leaves, popped, w, before, lens0, t.stat.maxLength, HEAP_SIZE - start, counts, given0, bits,
                       counts[bits], opt0)
    modifies s`optLen, t.dl
    ensures t.dl[..] == lens && s.optLen - opt == old(s.optLen) - opt0 && s.heapMax < h <= HEAP_SIZE
    ensures AssignInv(leaves, popped, w, before, lens, t.stat.maxLength, HEAP_SIZE - h, counts, given, bits, 0, opt)
  {
    hide Merged, AssignInv, CountSum, Cost, Change, Keys, Pow2, Listed;
    assert t.stat.maxLength <= MAX_BITS;
    hide GoodStatic;
    h, lens, given, opt := start, lens0, given0, opt0;
    var k := s.blCount[bits];
    while k != 0
      invariant s.heapMax < h <= HEAP_SIZE && t.dl[..] == lens && s.optLen - opt == old(s.optLen) - opt0
      invariant AssignInv(leaves, popped, w, before, lens, t.stat.maxLength, HEAP_SIZE - h, counts, given, bits, k, opt)
      decreases h
    {
      ListedMore(s.heap[..], s.heapMax, t.stat, t.maxCode, leaves, popped, w, n, before, lens, h, counts, given, bits,
                 k, opt);
      k, lens, given, opt := GiveNext(s, t, h, bits, k, leaves, popped, w, before, HEAP_SIZE - h, counts, lens, given,
                                      opt);
      h := h - 1;
    }
  }

  lemma ListedSizes(hp: seq<nat>, heapMax: nat, stat: Static, maxCode: int, leaves: set<nat>, popped: seq<nat>,
                    w: seq<nat>, n: nat)
    requires Listed(hp, heapMax, stat, maxCode, leaves, popped, w, n)
    ensures Merged(leaves, popped, w, stat.elems, n) && heapMax < HEAP_SIZE
  {
    hide Merged;
  }

  /** The last loop: the lengths counted in `counts`, longest first, to the leaves by increasing frequency. */
  method Reassign(s: Deflate, t: Tree, ghost leaves: set<nat>, ghost popped: seq<nat>, ghost w: seq<nat>,
                  ghost before: seq<nat>,
                  ghost n: nat, ghost counts: seq<nat>)
    returns (ghost lens: seq<nat>)
    requires Separate(s, t) && w == t.fc[..] && before == t.dl[..] && counts == s.blCount[..]
    requires Listed(s.heap[..], s.heapMax, t.stat, t.maxCode, leaves, popped, w, n)
    requires counts[0] == 0 && CountSum(counts, t.stat.maxLength) == |leaves|
    requires KraftCounts(counts, t.stat.maxLength, t.stat.maxLength) == Pow2(t.stat.maxLength)
    modifies s`optLen, t.dl
    ensures t.dl[..] == lens && FullCode(leaves, lens, counts, t.stat.maxLength) && |lens| == |w| == |before|
            && Monotone(leaves, w, lens)
    ensures s.optLen == old(s.optLen) + Cost(leaves, w, lens) - Cost(leaves, w, before)
    ensures forall x: nat | x < |lens| && x !in leaves :: lens[x] == before[x]
  {
    hide GoodStatic, Listed, AssignInv, KraftCounts, CountSum, Cost, Pow2, FullCode, Monotone;
    lens := before;
    StaticFacts(t.stat);
    ListedSizes(s.heap[..], s.heapMax, t.stat, t.maxCode, leaves, popped, w, n);
    ghost var given := AssignFirst(leaves, popped, w, lens, t.stat.maxLength, counts);
    ghost var opt := 0;
    var h: nat, bits: nat := HEAP_SIZE, t.stat.maxLength;
    while bits != 0
      invariant s.heapMax < h <= HEAP_SIZE && bits <= MAX_BITS && t.dl[..] == lens && s.optLen == old(s.optLen) + opt
      invariant AssignInv(leaves, popped, w, before, lens, t.stat.maxLength, HEAP_SIZE - h, counts, given, bits,
                          counts[bits], opt)
    {
      h, lens, given, opt := GiveLength(s, t, h, bits, leaves, popped, w, before, n, counts, lens, given, opt);
      AssignShorter(leaves, popped, w, before, lens, t.stat.maxLength, HEAP_SIZE - h, counts, given, bits, opt);
      bits := bits - 1;
    }
    AssignEnds(leaves, popped, w, before, lens, t.stat.elems, n, t.stat.maxLength, HEAP_SIZE - h, counts, given, opt);
  }

  lemma AssignEnds(leaves: set<nat>, popped: seq<nat>, w: seq<nat>, before: seq<nat>, lens: seq<nat>, first: nat,
                   n: nat, max: nat, i: nat,
                   counts: seq<nat>, given: seq<nat>, opt: int)
    requires AssignInv(leaves, popped, w, before, lens, max, i, counts, given, 0, 0, opt)
    requires Merged(leaves, popped, w, first, n) && max < |counts| && counts[0] == 0
             && CountSum(counts, max) == |leaves|
    requires KraftCounts(counts, max, max) == Pow2(max)
    ensures FullCode(leaves, lens, counts, max) && Monotone(leaves, w, lens) && |lens| == |w| == |before|
    ensures opt == Cost(leaves, w, lens) - Cost(leaves, w, before)
    ensures forall x: nat | x < |lens| && x !in leaves :: lens[x] == before[x]
  {
    hide Merged, Cost, CountSum, KraftCounts, AssignAt, FullCode, Monotone, Pow2;
    AssignDone(leaves, popped, w, lens, first, n, max, i, counts, given);
  }

  lemma PassEnds(stat: Static, leaves: set<nat>, popped: seq<nat>, w: seq<nat>, lens: seq<nat>, n: nat,
                 counts: seq<nat>,
                 overflow: nat, opt: int, sent: int)
    requires GoodStatic(stat) && Merged(leaves, popped, w, stat.elems, n)
             && PassInv(stat, leaves, popped, w, lens, n, 0, counts, overflow, opt, sent)
    requires |leaves| <= stat.elems
    ensures |w| == |lens| && stat.maxLength < |counts|
    ensures opt == Cost(leaves, w, lens) + Cost(leaves, w, Extras(stat, |w|)) && sent == StaticCost(stat, leaves, w)
    ensures CountSum(counts, stat.maxLength) == |leaves| && forall b | stat.maxLength < b < |counts| :: counts[b] == 0
    ensures overflow > 0 ==> Excess(counts, stat.maxLength, overflow)
    ensures overflow > 0 <==> Deeper(leaves, popped, stat.elems, n, stat.maxLength)
    ensures overflow == 0 ==>
      FullCode(leaves, lens, counts, stat.maxLength) && LowerBound(leaves, w, Cost(leaves, w, lens))
        && Monotone(leaves, w, lens)
  {
    AllPopped(leaves, popped, w, stat.elems, n);
    MergedSizes(leaves, popped, w, stat.elems, n);
    hide Merged, PassAt, LowerBound, CountSum, Cost, StaticCost, Excess, PoppedFrom, Pow2, XBits, Deeper;
    PassDone(leaves, popped, w, lens, stat.elems, n, stat.maxLength, counts, overflow);
    PassDeeper(leaves, popped, w, lens, stat.elems, n, stat.maxLength, counts, overflow);
    if overflow == 0 { FullMonotone(leaves, w, lens, counts, stat.maxLength); }
  }

  lemma PassDeeper(leaves: set<nat>, popped: seq<nat>, w: seq<nat>, lens: seq<nat>, first: nat, n: nat, max: nat,
                   counts: seq<nat>, overflow: nat)
    requires Merged(leaves, popped, w, first, n) && PassAt(leaves, popped, lens, first, n, max, 0, counts, overflow)
    ensures overflow > 0 <==> Deeper(leaves, popped, first, n, max)
  {
    hide Merged, Counts, Deeper, Overflow, LevelsFrom;
    OverflowIsDeeper(leaves, popped, w, lens, first, n, max);
  }

  lemma FullMonotone(leaves: set<nat>, w: seq<nat>, lens: seq<nat>, counts: seq<nat>, max: nat)
    requires |w| == |lens| && FullCode(leaves, lens, counts, max) && LowerBound(leaves, w, Cost(leaves, w, lens))
    ensures Monotone(leaves, w, lens)
  {
    hide LowerBound, Cost, Monotone;
    OptimalMonotone(leaves, w, lens, max);
  }

  lemma ReadyListed(hp: seq<nat>, heapMax: nat, stat: Static, maxCode: int, leaves: set<nat>, popped: seq<nat>,
                    w: seq<nat>, dl: seq<nat>, n: nat)
    requires Ready(hp, heapMax, stat, maxCode, leaves, popped, w, dl, n)
    ensures Listed(hp, heapMax, stat, maxCode, leaves, popped, w, n)
  {
    ReadyFacts(hp, heapMax, stat, maxCode, leaves, popped, w, dl, n);
    hide Merged, Ready;
  }

  /** gen_bitlen: the lengths of a full code of words no longer than the maximum, counted in blCount; their cost in
      opt_len and that of the static tree in static_len; less frequent symbols have no shorter words; and, unless some
      leaf of the tree lies too deep, no lengths that satisfy Kraft's inequality cost less. */
  method GenBitLen(s: Deflate, t: Tree, ghost leaves: set<nat>, ghost popped: seq<nat>, ghost w: seq<nat>,
                   ghost dl: seq<nat>, ghost n: nat)
    returns (ghost lens: seq<nat>, ghost counts: seq<nat>)
    requires Separate(s, t) && w == t.fc[..] && dl == t.dl[..] && |leaves| <= t.stat.elems
    requires Ready(s.heap[..], s.heapMax, t.stat, t.maxCode, leaves, popped, w, dl, n)
    modifies s`optLen, s`staticLen, s.blCount, t.dl
    ensures t.dl[..] == lens && s.blCount[..] == counts && |lens| == |w|
    ensures FullCode(leaves, lens, counts, t.stat.maxLength) && forall b | t.stat.maxLength < b < |counts| ::
            counts[b] == 0
    ensures Monotone(leaves, w, lens)
    ensures !Deeper(leaves, popped, t.stat.elems, n, t.stat.maxLength) ==> LowerBound(leaves, w, Cost(leaves, w, lens))
    ensures s.optLen == old(s.optLen) + Cost(leaves, w, lens) + Cost(leaves, w, Extras(t.stat, |w|))
    ensures s.staticLen == old(s.staticLen) + StaticCost(t.stat, leaves, w)
    ensures forall x: nat | x < t.stat.elems && x !in leaves && x < |lens| :: lens[x] == dl[x]
  {
    hide Merged, PassInv, LowerBound, CountSum, Cost, StaticCost, Pow2, Ready, FullCode, Monotone, KraftCounts, Deeper;
    var overflow; ghost var opt, sent;
    overflow, lens, counts, opt, sent := FirstPass(s, t, leaves, popped, w, dl, n);
    ReadyListed(s.heap[..], s.heapMax, t.stat, t.maxCode, leaves, popped, w, dl, n);
    assert Merged(leaves, popped, w, t.stat.elems, n);
    PassEnds(t.stat, leaves, popped, w, lens, n, counts, overflow, opt, sent);
    if overflow == 0 {
      return;
    }
    MoveOverflow(s.blCount, t.stat.maxLength, overflow);
    counts := s.blCount[..];
    ghost var before := lens;
    lens := Reassign(s, t, leaves, popped, w, before, n, counts);
  }
}
