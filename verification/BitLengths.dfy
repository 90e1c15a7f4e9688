/** gen_bitlen seen through the arrays it reads and writes: what one turn of each of its loops does. */
module BitLengths {
  import opened Kraft
  import opened HuffmanOptimal
  import opened TreeLengths
  import opened LengthLimit

  /** The leaves among the nodes popped i-th or later. */
  function PoppedFrom(leaves: set<nat>, popped: seq<nat>, i: nat): (r: set<nat>)
    requires i <= |popped|
    ensures forall x :: x in r <==> x in leaves && x in popped[i..]
  {
    set x | x in leaves && x in popped[i..]
  }

  /** The leaves among the first i nodes popped. */
  function PoppedBefore(leaves: set<nat>, popped: seq<nat>, i: nat): (r: set<nat>)
    requires i <= |popped|
    ensures forall x :: x in r <==> x in leaves && x in popped[..i]
  {
    set x | x in leaves && x in popped[..i]
  }

  /** How many of the nodes popped i-th or later have a father at the maximum length. */
  function Overflow(lens: seq<nat>, first: nat, i: nat, n: nat, max: nat): nat
    requires i <= 2 * n && first + n <= |lens|
    decreases 2 * n - i
  {
    if i == 2 * n then 0 else (if lens[first + i / 2] == max then 1 else 0) + Overflow(lens, first, i + 1, n, max)
  }

  lemma {:induction false} OverflowCrowded(lens: seq<nat>, first: nat, k: nat, n: nat, max: nat)
    requires k <= n && first + n <= |lens|
    ensures Overflow(lens, first, 2 * k, n, max) == 2 * Crowded(lens, first, k, n, max)
    decreases n - k
  {
    if k < n {
      OverflowCrowded(lens, first, k + 1, n, max);
      assert (2 * k + 1) / 2 == k;
    }
  }

  lemma {:induction false} OverflowSame(lens: seq<nat>, lens': seq<nat>, first: nat, i: nat, n: nat, max: nat)
    requires i <= 2 * n && first + n <= |lens| == |lens'|
    requires forall j | i <= j < 2 * n :: lens'[first + j / 2] == lens[first + j / 2]
    ensures Overflow(lens', first, i, n, max) == Overflow(lens, first, i, n, max)
    decreases 2 * n - i
  {
    if i < 2 * n { OverflowSame(lens, lens', first, i + 1, n, max); }
  }

  /** What the merges of build_tree leave behind: `popped` lists the nodes in the order they left the heap. */
  ghost predicate Merged(leaves: set<nat>, popped: seq<nat>, w: seq<nat>, first: nat, n: nat) {
    && 0 < n && |popped| == 2 * n && first + n <= |w| && |leaves| == n + 1
    && Merges(leaves, popped, w, first, n) && Roots(leaves, popped, first, n) == {first + n - 1}
    && (forall x | x in leaves :: w[x] > 0)
  }

  // -- First pass: lengths from the root down -------------------------------------------------------------------

  /** Before node popped[i - 1] is visited: dads below, lengths above. */
  ghost predicate PassAt(leaves: set<nat>, popped: seq<nat>, lens: seq<nat>, first: nat, n: nat, max: nat, i: nat,
                         counts: seq<nat>, overflow: int) {
    && i <= 2 * n == |popped| && LevelsFrom(popped, lens, first, n, max, i)
    && (forall j | 0 <= j < i :: popped[j] < |lens| && lens[popped[j]] == first + j / 2)
    && Counts(PoppedFrom(leaves, popped, i), lens, counts, max)
    && overflow == Overflow(lens, first, i, n, max)
  }

  lemma PoppedFromStep(leaves: set<nat>, popped: seq<nat>, i: nat)
    requires i < |popped| && forall j | i < j < |popped| :: popped[j] != popped[i]
    ensures PoppedFrom(leaves, popped, i) == PoppedFrom(leaves, popped, i + 1) + if popped[i] in leaves then {popped[i]}
            else {}
    ensures popped[i] !in PoppedFrom(leaves, popped, i + 1)
  {
    assert popped[i..] == [popped[i]] + popped[i + 1..];
  }

  /** The father of a node yet to be visited has its length already. */
  lemma LevelBound(popped: seq<nat>, lens: seq<nat>, first: nat, n: nat, max: nat, i: nat, j: nat, leaves: set<nat>,
                   w: seq<nat>)
    requires Merged(leaves, popped, w, first, n) && LevelsFrom(popped, lens, first, n, max, i) && |w| == |lens|
    requires j < n && i <= 2 * j + 2
    ensures lens[first + j] <= max
  {
    PoppedFacts(leaves, popped, w, first, n, n);
    if j < n - 1 {
      assert first + j in popped[..2 * n];
      var k :| 0 <= k < 2 * n && popped[k] == first + j;
      assert k / 2 > j;
    }
  }

  /** At the root. */
  lemma PassStarts(leaves: set<nat>, popped: seq<nat>, w: seq<nat>, lens: seq<nat>, first: nat, n: nat, max: nat,
                   counts: seq<nat>)
    requires Merged(leaves, popped, w, first, n) && |w| == |lens| && max < |counts| && forall b | 0 <= b <= max ::
             counts[b] == 0
    requires forall j | 0 <= j < 2 * n :: popped[j] < |lens| && lens[popped[j]] == first + j / 2
    ensures PassAt(leaves, popped, lens[first + n - 1 := 0], first, n, max, 2 * n, counts, 0)
    ensures PoppedFrom(leaves, popped, 2 * n) == {}
  {
    PoppedFacts(leaves, popped, w, first, n, n);
    assert PoppedFrom(leaves, popped, 2 * n) == {};
    hide Merged, PoppedFrom;
    CountsEmpty(lens[first + n - 1 := 0], counts, max);
    hide Counts;
  }

  lemma PoppedKinds(leaves: set<nat>, popped: seq<nat>, w: seq<nat>, first: nat, n: nat)
    requires Merged(leaves, popped, w, first, n)
    ensures forall i | 0 <= i < 2 * n :: popped[i] < first + n <= |w| && (popped[i] in leaves <==> popped[i] < first)
    ensures forall i, j | 0 <= i < j < 2 * n :: popped[i] != popped[j]
  {
    PoppedFacts(leaves, popped, w, first, n, n);
    LeavesOrFathers(leaves, popped, w, first, n, n);
  }

  /** What is known of the node about to be visited. */
  lemma PassFacts(leaves: set<nat>, popped: seq<nat>, w: seq<nat>, lens: seq<nat>, first: nat, n: nat, max: nat, i: nat,
                  counts: seq<nat>, overflow: int)
    requires Merged(leaves, popped, w, first, n) && |w| == |lens| && 0 < i
             && PassAt(leaves, popped, lens, first, n, max, i, counts, overflow)
    ensures var x, dad := popped[i - 1], first + (i - 1) / 2;
      && x < dad < |lens| && lens[x] == dad && lens[dad] <= max
      && (forall j | 0 <= j < 2 * n && j != i - 1 :: popped[j] != x)
      && (forall j | i - 1 <= j < 2 * n :: first + j / 2 != x)
      && x != first + n - 1 && (x in leaves <==> x < first)
  {
    assert LevelsFrom(popped, lens, first, n, max, i);
    LevelBound(popped, lens, first, n, max, i, (i - 1) / 2, leaves, w);
    PoppedFacts(leaves, popped, w, first, n, n);
    LeavesOrFathers(leaves, popped, w, first, n, n);
    hide LevelsFrom, Counts, Overflow, PoppedFrom;
  }

  lemma {:induction false} LeavesOrFathers(leaves: set<nat>, popped: seq<nat>, w: seq<nat>, first: nat, k: nat, n: nat)
    requires k <= n && Merges(leaves, popped, w, first, n)
    ensures forall x | x in Roots(leaves, popped, first, k) :: x in leaves || x >= first
    ensures forall i | 0 <= i < 2 * k :: popped[i] in leaves || popped[i] >= first
  {
    if k > 0 {
      LeavesOrFathers(leaves, popped, w, first, k - 1, n);
      assert MergesAt(leaves, popped, w, first, k - 1);
    }
  }

  lemma LevelsStep(popped: seq<nat>, lens: seq<nat>, first: nat, n: nat, max: nat, i: nat, x: nat, bits: nat)
    requires 0 < i && LevelsFrom(popped, lens, first, n, max, i) && x == popped[i - 1] < |lens|
    requires (forall j | i <= j < 2 * n :: popped[j] != x) && (forall j | i - 1 <= j < 2 * n :: first + j / 2 != x)
             && x != first + n - 1
    requires bits == Min(max, lens[first + (i - 1) / 2] + 1)
    ensures LevelsFrom(popped, lens[x := bits], first, n, max, i - 1)
  {
    hide Min;
  }

  lemma VisitCounts(leaves: set<nat>, popped: seq<nat>, lens: seq<nat>, max: nat, i: nat, counts: seq<nat>, bits: nat)
    requires 0 < i <= |popped| && Counts(PoppedFrom(leaves, popped, i), lens, counts, max) && bits <= max
    requires popped[i - 1] < |lens| && forall j | i <= j < |popped| :: popped[j] != popped[i - 1]
    ensures var x := popped[i - 1];
      Counts(PoppedFrom(leaves, popped, i - 1), lens[x := bits], if x in leaves then counts[bits := counts[bits] + 1]
             else counts, max)
  {
    var x := popped[i - 1];
    PoppedFromStep(leaves, popped, i - 1);
    var later := PoppedFrom(leaves, popped, i);
    CountsSame(later, lens, lens[x := bits], counts, max);
    if x in leaves {
      hide Counts, PoppedFrom;
      CountsAdd(later, lens[x := bits], counts, max, x);
      assert PoppedFrom(leaves, popped, i - 1) == later + {x};
    } else {
      assert PoppedFrom(leaves, popped, i - 1) == later;
    }
  }

  /** Visiting one node. */
  lemma PassStep(leaves: set<nat>, popped: seq<nat>, w: seq<nat>, lens: seq<nat>, first: nat, n: nat, max: nat, i: nat,
                 counts: seq<nat>, overflow: int, x: nat, bits: nat)
    requires Merged(leaves, popped, w, first, n) && |w| == |lens| && 0 < i
             && PassAt(leaves, popped, lens, first, n, max, i, counts, overflow)
    requires x == popped[i - 1] && lens[x] < |lens| && bits == Min(max, lens[lens[x]] + 1)
    ensures PassAt(leaves, popped, lens[x := bits], first, n, max, i - 1, if x in leaves
                   then counts[bits := counts[bits] + 1] else counts,
                   if lens[lens[x]] + 1 > max then overflow + 1 else overflow)
  {
    PassFacts(leaves, popped, w, lens, first, n, max, i, counts, overflow);
    hide Counts, Merged, PoppedFrom, LevelsFrom, Overflow, Min;
    LevelsStep(popped, lens, first, n, max, i, x, bits);
    VisitCounts(leaves, popped, lens, max, i, counts, bits);
    OverflowStep(lens, first, n, max, i, x, bits);
    MinBound(max, lens[lens[x]] + 1);
  }

  lemma MinBound(a: nat, b: nat)
    ensures Min(a, b) <= a && (b <= a ==> Min(a, b) == b)
  {
  }

  lemma OverflowStep(lens: seq<nat>, first: nat, n: nat, max: nat, i: nat, x: nat, bits: nat)
    requires 0 < i <= 2 * n && first + n <= |lens| && x < |lens| && forall j | i - 1 <= j < 2 * n :: first + j / 2 != x
    requires lens[first + (i - 1) / 2] <= max
    ensures Overflow(lens[x := bits], first, i - 1, n, max)
      == Overflow(lens, first, i, n, max) + if lens[first + (i - 1) / 2] + 1 > max then 1 else 0
  {
    OverflowSame(lens, lens[x := bits], first, i, n, max);
  }

  /** A less frequent symbol never has a shorter code. */
  ghost predicate Monotone(leaves: set<nat>, w: seq<nat>, lens: seq<nat>) {
    forall x, y | x in leaves && y in leaves && x < |w| && y < |w| && x < |lens| && y < |lens| && w[x] < w[y] ::
      lens[x] >= lens[y]
  }

  /** The outcome of gen_bitlen: lengths of a full code, counted. */
  ghost predicate FullCode(leaves: set<nat>, lens: seq<nat>, counts: seq<nat>, max: nat) {
    && Counts(leaves, lens, counts, max) && (forall x | x in leaves :: x < |lens| && lens[x] >= 1)
    && KraftSum(leaves, lens, max) == Pow2(max)
  }

  lemma {:induction false} NoneAtZero(a: set<nat>, lens: seq<nat>)
    requires forall x | x in a && x < |lens| :: lens[x] >= 1
    ensures CountAt(a, lens, 0) == 0
  {
    var zeros := seq(|lens|, _ => 0);
    SumSame(a, a, Indicators(lens, 0), zeros);
    SumZeros(a, zeros);
  }

  lemma {:induction false} SumZeros(a: set<nat>, f: seq<int>)
    requires forall x: nat | x < |f| :: f[x] == 0
    ensures Sum(a, f) == 0
  {
    if f != [] { SumZeros(a, f[..|f| - 1]); }
  }

  lemma AllPopped(leaves: set<nat>, popped: seq<nat>, w: seq<nat>, first: nat, n: nat)
    requires Merged(leaves, popped, w, first, n)
    ensures PoppedFrom(leaves, popped, 0) == leaves && PoppedBefore(leaves, popped, 2 * n) == leaves
  {
    PoppedFacts(leaves, popped, w, first, n, n);
    assert popped[..2 * n] == popped == popped[0..];
    forall x | x in leaves ensures x in popped { assert x < first; }
  }

  /** The tree at the end of the first pass. */
  lemma PassTree(leaves: set<nat>, popped: seq<nat>, w: seq<nat>, lens: seq<nat>, first: nat, n: nat, max: nat,
                 counts: seq<nat>, overflow: nat)
    requires Merged(leaves, popped, w, first, n) && |w| == |lens|
             && PassAt(leaves, popped, lens, first, n, max, 0, counts, overflow)
    ensures first + n <= |w| && overflow == 2 * Crowded(lens, first, 0, n, max)
    ensures Clamped(leaves, w, lens, max, Crowded(lens, first, 0, n, max), MergedWeight(w, first, 0, n))
    ensures LowerBound(leaves, w, MergedWeight(w, first, 0, n)) && |leaves| == n + 1
  {
    hide PassAt, Merges, Roots, LowerBound, Clamped, PoppedFrom, PoppedBefore, MergedWeight, Overflow, Crowded,
         LevelsFrom;
    PassParts(leaves, popped, lens, first, n, max, counts, overflow);
    TreeClamped(leaves, popped, w, lens, first, 0, n, max);
    OverflowCrowded(lens, first, 0, n, max);
    MergesBound(leaves, popped, w, first, 0, n);
    NoRoots(leaves, popped, first);
  }

  lemma PassParts(leaves: set<nat>, popped: seq<nat>, lens: seq<nat>, first: nat, n: nat, max: nat, counts: seq<nat>,
                  overflow: nat)
    requires first + n <= |lens| && PassAt(leaves, popped, lens, first, n, max, 0, counts, overflow)
    ensures LevelsFrom(popped, lens, first, n, max, 0) && Counts(PoppedFrom(leaves, popped, 0), lens, counts, max)
    ensures overflow == Overflow(lens, first, 0, n, max) && |popped| == 2 * n
  {
    hide LevelsFrom, Counts, PoppedFrom, Overflow;
  }

  lemma NoRoots(leaves: set<nat>, popped: seq<nat>, first: nat)
    ensures Roots(leaves, popped, first, 0) == leaves
  {
  }

  /** The leaves are counted. */
  lemma PassLeaves(leaves: set<nat>, popped: seq<nat>, w: seq<nat>, lens: seq<nat>, first: nat, n: nat, max: nat,
                   counts: seq<nat>, overflow: nat)
    requires Merged(leaves, popped, w, first, n) && |w| == |lens|
             && PassAt(leaves, popped, lens, first, n, max, 0, counts, overflow) && 0 < max
    ensures Counts(leaves, lens, counts, max) && (forall x | x in leaves :: x < |lens| && lens[x] >= 1)
    ensures counts[0] == 0 && KraftSum(leaves, lens, max) == KraftCounts(counts, max, max)
            && CountSum(counts, max) == |leaves|
  {
    hide PassAt, Merges, Roots, PoppedFrom, PoppedBefore, Overflow, LevelsFrom, KraftSum, KraftCounts, CountSum;
    PassParts(leaves, popped, lens, first, n, max, counts, overflow);
    AllPopped(leaves, popped, w, first, n);
    NoneAtRoot(leaves, popped, lens, first, n, max);
    NoneAtZero(leaves, lens);
    KraftByCounts(leaves, lens, counts, max);
  }

  /** The end of the first pass: a full code, or the excess that the overflow loop works off. */
  lemma PassDone(leaves: set<nat>, popped: seq<nat>, w: seq<nat>, lens: seq<nat>, first: nat, n: nat, max: nat,
                 counts: seq<nat>, overflow: nat)
    requires Merged(leaves, popped, w, first, n) && |w| == |lens|
             && PassAt(leaves, popped, lens, first, n, max, 0, counts, overflow)
    requires 0 < max && n < Pow2(max)
    ensures Counts(leaves, lens, counts, max) && (forall x | x in leaves :: x < |lens| && lens[x] >= 1)
    ensures overflow > 0 ==> Excess(counts, max, overflow)
    ensures overflow == 0 ==> FullCode(leaves, lens, counts, max) && LowerBound(leaves, w, Cost(leaves, w, lens))
    ensures CountSum(counts, max) == |leaves|
  {
    hide Merged, PassAt, LowerBound, Crowded, MergedWeight, KraftSum, KraftCounts, CountSum, Cost;
    PassTree(leaves, popped, w, lens, first, n, max, counts, overflow);
    PassLeaves(leaves, popped, w, lens, first, n, max, counts, overflow);
  }

  lemma NoneAtRoot(leaves: set<nat>, popped: seq<nat>, lens: seq<nat>, first: nat, n: nat, max: nat)
    requires LevelsFrom(popped, lens, first, n, max, 0) && |popped| == 2 * n && PoppedFrom(leaves, popped, 0) == leaves
             && 0 < max
    ensures forall x | x in leaves :: x < |lens| && lens[x] >= 1
  {
    forall x | x in leaves ensures x < |lens| && lens[x] >= 1 {
      assert x in popped[0..];
      var j :| 0 <= j < 2 * n && popped[j] == x;
    }
  }

  /** The bits of one more symbol. */
  lemma CostVisit(a: set<nat>, w: seq<nat>, lens: seq<nat>, x: nat, bits: nat)
    requires |w| == |lens| && x !in a && x < |lens|
    ensures Cost(a + {x}, w, lens[x := bits]) == Cost(a, w, lens) + w[x] * bits
    ensures Cost(a, w, lens[x := bits]) == Cost(a, w, lens)
  {
    CostSame(a, w, lens, lens[x := bits]);
    SumAdd(a, Products(w, lens[x := bits]), x);
  }

  // -- Second pass: lengths by increasing frequency ---------------------------------------------------------------

  /** The leaves among the first i nodes popped have their new lengths, `given[b]` of them the length b; n more of
      length `bits` are to come. */
  ghost predicate AssignAt(leaves: set<nat>, popped: seq<nat>, lens: seq<nat>, max: nat, i: nat, counts: seq<nat>,
                           given: seq<nat>, bits: nat, n: nat) {
    && i <= |popped| && bits <= max < |given| == |counts| && Counts(PoppedBefore(leaves, popped, i), lens, given, max)
    && given[bits] + n == counts[bits]
    && (forall b | bits < b <= max :: given[b] == counts[b]) && (forall b | 0 <= b < bits :: given[b] == 0)
    && (forall p | 0 <= p < i && popped[p] in leaves :: popped[p] < |lens| && lens[popped[p]] >= bits)
    && (forall p, q | 0 <= p < q < i && popped[p] in leaves && popped[q] in leaves ::
        lens[popped[p]] >= lens[popped[q]])
  }

  lemma AssignStarts(leaves: set<nat>, popped: seq<nat>, lens: seq<nat>, max: nat, counts: seq<nat>, given: seq<nat>)
    requires max < |given| == |counts| && forall b | 0 <= b <= max :: given[b] == 0
    ensures AssignAt(leaves, popped, lens, max, 0, counts, given, max, counts[max])
  {
    assert PoppedBefore(leaves, popped, 0) == {};
    CountsEmpty(lens, given, max);
  }

  lemma PoppedBeforeStep(leaves: set<nat>, popped: seq<nat>, i: nat)
    requires i < |popped| && forall j | 0 <= j < i :: popped[j] != popped[i]
    ensures PoppedBefore(leaves, popped, i + 1) == PoppedBefore(leaves, popped, i) + if popped[i] in leaves
            then {popped[i]} else {}
    ensures popped[i] !in PoppedBefore(leaves, popped, i)
  {
    assert popped[..i + 1] == popped[..i] + [popped[i]];
  }

  lemma AssignSkips(leaves: set<nat>, popped: seq<nat>, lens: seq<nat>, max: nat, i: nat, counts: seq<nat>,
                    given: seq<nat>, bits: nat, n: nat)
    requires AssignAt(leaves, popped, lens, max, i, counts, given, bits, n) && i < |popped| && popped[i] !in leaves
    requires forall j | 0 <= j < i :: popped[j] != popped[i]
    ensures AssignAt(leaves, popped, lens, max, i + 1, counts, given, bits, n)
  {
    PoppedBeforeStep(leaves, popped, i);
    hide Counts;
    assert PoppedBefore(leaves, popped, i + 1) == PoppedBefore(leaves, popped, i);
  }

  lemma AssignStep(leaves: set<nat>, popped: seq<nat>, lens: seq<nat>, max: nat, i: nat, counts: seq<nat>,
                   given: seq<nat>, bits: nat, n: nat)
    requires AssignAt(leaves, popped, lens, max, i, counts, given, bits, n) && i < |popped| && popped[i] in leaves
             && n > 0
    requires popped[i] < |lens| && forall j | 0 <= j < i :: popped[j] != popped[i]
    ensures AssignAt(leaves, popped, lens[popped[i] := bits], max, i + 1, counts, given[bits := given[bits] + 1], bits,
                     n - 1)
  {
    var x := popped[i];
    var a := PoppedBefore(leaves, popped, i);
    PoppedBeforeStep(leaves, popped, i);
    CountsSame(a, lens, lens[x := bits], given, max);
    hide Counts, PoppedBefore;
    CountsAdd(a, lens[x := bits], given, max, x);
    assert PoppedBefore(leaves, popped, i + 1) == a + {x};
  }

  lemma {:induction false} CountSumLess(given: seq<nat>, counts: seq<nat>, upTo: nat)
    requires upTo < |given| == |counts| && forall b | 0 <= b <= upTo :: given[b] <= counts[b]
    ensures CountSum(given, upTo) <= CountSum(counts, upTo)
    ensures (exists b :: 0 <= b <= upTo && given[b] < counts[b]) ==> CountSum(given, upTo) < CountSum(counts, upTo)
    ensures (forall b | 0 <= b <= upTo :: given[b] == counts[b]) ==> CountSum(given, upTo) == CountSum(counts, upTo)
  {
    if upTo > 0 { CountSumLess(given, counts, upTo - 1); }
  }

  /** As long as some length is still to be given, some leaf is still to get one. */
  lemma AssignGoesOn(leaves: set<nat>, popped: seq<nat>, lens: seq<nat>, max: nat, i: nat, counts: seq<nat>,
                     given: seq<nat>, bits: nat, n: nat)
    requires AssignAt(leaves, popped, lens, max, i, counts, given, bits, n) && n > 0
    requires CountSum(counts, max) == |leaves| && PoppedBefore(leaves, popped, |popped|) == leaves
    ensures i < |popped|
  {
    KraftByCounts(PoppedBefore(leaves, popped, i), lens, given, max);
    assert forall b | 0 <= b <= max :: given[b] <= counts[b];
    CountSumLess(given, counts, max);
  }

  lemma AssignDone(leaves: set<nat>, popped: seq<nat>, w: seq<nat>, lens: seq<nat>, first: nat, n: nat, max: nat,
                   i: nat, counts: seq<nat>,
                   given: seq<nat>)
    requires Merged(leaves, popped, w, first, n) && |w| == |lens|
    requires AssignAt(leaves, popped, lens, max, i, counts, given, 0, 0) && counts[0] == 0
             && CountSum(counts, max) == |leaves|
    requires KraftCounts(counts, max, max) == Pow2(max)
    ensures FullCode(leaves, lens, counts, max) && Monotone(leaves, w, lens)
  {
    var a := PoppedBefore(leaves, popped, i);
    KraftByCounts(a, lens, given, max);
    CountSumLess(given, counts, max);
    EqualSize(a, leaves);
    AssignedCode(leaves, lens, given, counts, max);
    AssignedMonotone(leaves, popped, w, lens, first, n, i);
  }

  lemma EqualSize(a: set<nat>, b: set<nat>)
    requires a <= b && |a| == |b|
    ensures a == b
  {
    assert b == a + (b - a);
  }

  lemma AssignedCode(leaves: set<nat>, lens: seq<nat>, given: seq<nat>, counts: seq<nat>, max: nat)
    requires Counts(leaves, lens, given, max) && |given| == |counts|
             && (forall b | 0 <= b <= max :: given[b] == counts[b])
    requires counts[0] == 0 && KraftCounts(counts, max, max) == Pow2(max)
    ensures FullCode(leaves, lens, counts, max)
  {
    KraftByCounts(leaves, lens, counts, max);
    forall x | x in leaves ensures lens[x] >= 1 {
      if lens[x] == 0 { OneAt(leaves, lens, 0, x); }
    }
  }

  lemma AssignedMonotone(leaves: set<nat>, popped: seq<nat>, w: seq<nat>, lens: seq<nat>, first: nat, n: nat, i: nat)
    requires Merged(leaves, popped, w, first, n) && |w| == |lens| && i <= |popped|
             && PoppedBefore(leaves, popped, i) == leaves
    requires forall p, q | 0 <= p < q < i && popped[p] in leaves && popped[q] in leaves ::
             lens[popped[p]] >= lens[popped[q]]
    ensures Monotone(leaves, w, lens)
  {
    PoppedSorted(leaves, popped, w, first, n, n);
    forall x, y | x in leaves && y in leaves && x < |w| && y < |w| && w[x] < w[y] ensures lens[x] >= lens[y] {
      assert x in popped[..i] && y in popped[..i];
      var p :| 0 <= p < i && popped[p] == x;
      var q :| 0 <= q < i && popped[q] == y;
      assert p < q;
    }
  }

  lemma StrictExchange(a: set<nat>, w: seq<nat>, lens: seq<nat>, scale: nat, x: nat, y: nat)
    requires |w| == |lens| && Fits(a, lens, scale) && x in a && y in a && w[x] < w[y] && lens[x] < lens[y]
    ensures var lens' := lens[x := lens[y]][y := lens[x]]; Fits(a, lens', scale) && Cost(a, w, lens') < Cost(a, w, lens)
  {
    var mid := lens[x := lens[y]];
    KraftUpdate(a, lens, scale, x, lens[y]);
    KraftUpdate(a, mid, scale, y, lens[x]);
    CostUpdate(a, w, lens, x, lens[y]);
    CostUpdate(a, w, mid, y, lens[x]);
    hide KraftSum, Cost, Pow2;
    CrossProducts(w[x] + 1, w[y], lens[x], lens[y]);
    assert (w[x] + 1) * lens[y] == w[x] * lens[y] + lens[y] && (w[x] + 1) * lens[x] == w[x] * lens[x] + lens[x];
  }

  /** Lengths of least cost are monotone too: exchanging two of them would save bits. */
  lemma OptimalMonotone(leaves: set<nat>, w: seq<nat>, lens: seq<nat>, scale: nat)
    requires |w| == |lens| && Fits(leaves, lens, scale) && LowerBound(leaves, w, Cost(leaves, w, lens))
    ensures Monotone(leaves, w, lens)
  {
    hide KraftSum, Cost;
    forall x, y | x in leaves && y in leaves && w[x] < w[y] ensures lens[x] >= lens[y] {
      if lens[x] < lens[y] { StrictExchange(leaves, w, lens, scale, x, y); }
    }
  }
}
