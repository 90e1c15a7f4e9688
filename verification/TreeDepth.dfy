/** How deep the leaves of a Huffman tree lie: when gen_bitlen has to cut lengths, and total frequencies too small for
    that. */
module TreeDepth {
  import opened Kraft
  import opened HuffmanOptimal
  import opened TreeLengths
  import opened BitLengths

  /** Father k is itself popped i-th. */
  ghost predicate PoppedAs(popped: seq<nat>, first: nat, n: nat, k: nat, i: nat) {
    2 * k + 2 <= i < 2 * n && i < |popped| && popped[i] == first + k
  }

  /** The distance of the k-th father from the root of a tree of n merges. */
  ghost function FatherDepth(popped: seq<nat>, first: nat, n: nat, k: nat): nat
    decreases n - k
  {
    if i: nat :| PoppedAs(popped, first, n, k, i) then 1 + FatherDepth(popped, first, n, i / 2) else 0
  }

  /** The distance of the node popped i-th. */
  ghost function PoppedDepth(popped: seq<nat>, first: nat, n: nat, i: nat): nat {
    1 + FatherDepth(popped, first, n, i / 2)
  }

  /** Some leaf lies deeper than `max`. */
  ghost predicate Deeper(leaves: set<nat>, popped: seq<nat>, first: nat, n: nat, max: nat) {
    exists i: nat :: i < 2 * n && i < |popped| && popped[i] in leaves && PoppedDepth(popped, first, n, i) > max
  }

  /** Every father but the last is popped after it is made; the last is the root. */
  lemma FatherPopped(leaves: set<nat>, popped: seq<nat>, w: seq<nat>, first: nat, n: nat, k: nat) returns (i: nat)
    requires Merged(leaves, popped, w, first, n) && k < n
    ensures k == n - 1 ==> FatherDepth(popped, first, n, k) == 0
    ensures k < n - 1
            ==> PoppedAs(popped, first, n, k, i)
                && FatherDepth(popped, first, n, k) == PoppedDepth(popped, first, n, i)
  {
    PoppedFacts(leaves, popped, w, first, n, n);
    i := 0;
    if k < n - 1 {
      assert first + k in popped[..2 * n];
      var j :| 0 <= j < 2 * n && popped[j] == first + k;
      assert j / 2 > k;
      i := j;
      assert PoppedAs(popped, first, n, k, i);
    } else {
      forall j: nat
        ensures !PoppedAs(popped, first, n, k, j)
      {
      }
    }
  }

  /** The lengths of gen_bitlen's first pass are the depths, as far as they fit. */
  lemma {:induction false} ClampedDepths(leaves: set<nat>, popped: seq<nat>, w: seq<nat>, lens: seq<nat>, first: nat,
                                         n: nat, max: nat, k: nat)
    requires Merged(leaves, popped, w, first, n) && k < n && LevelsFrom(popped, lens, first, n, max, 0)
    ensures lens[first + k] == Min(max, FatherDepth(popped, first, n, k))
    decreases n - k
  {
    var i := FatherPopped(leaves, popped, w, first, n, k);
    if k < n - 1 {
      ClampedDepths(leaves, popped, w, lens, first, n, max, i / 2);
      assert lens[popped[i]] == Min(max, lens[first + i / 2] + 1);
    }
  }

  /** A node too deep has a leaf too deep below it. */
  lemma {:induction false} LeafBelow(leaves: set<nat>, popped: seq<nat>, w: seq<nat>, first: nat, n: nat, i: nat,
                                     max: nat)
    requires Merged(leaves, popped, w, first, n) && |popped| == 2 * n && i < 2 * n
             && PoppedDepth(popped, first, n, i) > max
    ensures Deeper(leaves, popped, first, n, max)
    decreases popped[i]
  {
    hide Merged;
    PoppedKinds(leaves, popped, w, first, n);
    if popped[i] !in leaves {
      var k := popped[i] - first;
      FatherEarlier(leaves, popped, w, first, n, i, k);
      var j := FatherPopped(leaves, popped, w, first, n, k);
      SonBelow(leaves, popped, w, first, n, k);
      LeafBelow(leaves, popped, w, first, n, 2 * k, max);
    }
  }

  /** A father that is popped i-th is popped only once, before the root is made. */
  lemma FatherEarlier(leaves: set<nat>, popped: seq<nat>, w: seq<nat>, first: nat, n: nat, i: nat, k: nat)
    requires Merged(leaves, popped, w, first, n) && i < 2 * n && |popped| == 2 * n && popped[i] == first + k
    ensures k < n - 1
    ensures forall j: nat :: PoppedAs(popped, first, n, k, j) ==> j == i
  {
    PoppedFacts(leaves, popped, w, first, n, n);
  }

  lemma SonBelow(leaves: set<nat>, popped: seq<nat>, w: seq<nat>, first: nat, n: nat, k: nat)
    requires Merged(leaves, popped, w, first, n) && k < n
    ensures |popped| == 2 * n && popped[2 * k] < first + k && (2 * k) / 2 == k
  {
    PoppedFacts(leaves, popped, w, first, n, n);
  }

  lemma {:induction false} NoOverflow(lens: seq<nat>, first: nat, i: nat, n: nat, max: nat)
    requires i <= 2 * n && first + n <= |lens|
    ensures Overflow(lens, first, i, n, max) == 0 <==> forall j | i <= j < 2 * n :: lens[first + j / 2] != max
    decreases 2 * n - i
  {
    if i < 2 * n { NoOverflow(lens, first, i + 1, n, max); }
  }

  /** Lengths overflow exactly when some leaf is too deep. */
  lemma OverflowIsDeeper(leaves: set<nat>, popped: seq<nat>, w: seq<nat>, lens: seq<nat>, first: nat, n: nat, max: nat)
    requires Merged(leaves, popped, w, first, n) && LevelsFrom(popped, lens, first, n, max, 0)
    ensures Overflow(lens, first, 0, n, max) > 0 <==> Deeper(leaves, popped, first, n, max)
  {
    NoOverflow(lens, first, 0, n, max);
    forall j | 0 <= j < 2 * n
      ensures lens[first + j / 2] == max <==> PoppedDepth(popped, first, n, j) > max
    {
      ClampedDepths(leaves, popped, w, lens, first, n, max, j / 2);
    }
    if j :| 0 <= j < 2 * n && lens[first + j / 2] == max { LeafBelow(leaves, popped, w, first, n, j, max); }
  }

  // -- Fibonacci numbers ----------------------------------------------------------------------------------------

  function Fib(n: nat): nat { if n < 2 then n else Fib(n - 1) + Fib(n - 2) }

  lemma {:induction false} FibGrows(a: nat, b: nat)
    requires a <= b
    ensures Fib(a) <= Fib(b)
    decreases b
  {
    if a < b {
      FibGrows(a, b - 1);
      if b >= 2 { assert Fib(b) == Fib(b - 1) + Fib(b - 2); }
    }
  }

  function Sibling(i: nat): nat { if i % 2 == 0 then i + 1 else i - 1 }

  /** The father of the node popped i-th. */
  lemma FatherWeight(leaves: set<nat>, popped: seq<nat>, w: seq<nat>, first: nat, n: nat, i: nat)
    requires Merged(leaves, popped, w, first, n) && i < 2 * n
    ensures Sibling(i) < 2 * n == |popped| && Sibling(i) / 2 == i / 2 < n && first + n <= |w|
    ensures popped[i] < |w| && popped[Sibling(i)] < |w| && w[first + i / 2] == w[popped[i]] + w[popped[Sibling(i)]]
  {
    PoppedSorted(leaves, popped, w, first, n, n);
    assert MergesAt(leaves, popped, w, first, i / 2);
  }

  lemma WeightOrder(leaves: set<nat>, popped: seq<nat>, w: seq<nat>, first: nat, n: nat, p: nat, q: nat)
    requires Merged(leaves, popped, w, first, n) && p <= q < 2 * n
    ensures |popped| == 2 * n && popped[p] < |w| && popped[q] < |w| && w[popped[p]] <= w[popped[q]]
  {
    PoppedSorted(leaves, popped, w, first, n, n);
  }

  lemma FibNext(h: nat)
    ensures Fib(h + 3) == Fib(h + 2) + Fib(h + 1)
  {
  }

  /** From a father up to the root: each is at least the sum of the two nodes below it on the way. */
  lemma {:induction false} FibUp(leaves: set<nat>, popped: seq<nat>, w: seq<nat>, first: nat, n: nat, k: nat, h: nat,
                                 p: nat)
    requires Merged(leaves, popped, w, first, n) && k < n && p < 2 * k + 2
    requires |popped| == 2 * n && first + n <= |w| && popped[p] < |w| && w[popped[p]] >= Fib(h + 1)
             && w[first + k] >= Fib(h + 2)
    ensures w[first + n - 1] >= Fib(h + 2 + FatherDepth(popped, first, n, k))
    decreases n - k
  {
    hide Merged, Fib;
    MergedBounds(leaves, popped, w, first, n);
    var i := FatherPopped(leaves, popped, w, first, n, k);
    if k < n - 1 {
      FatherWeight(leaves, popped, w, first, n, i);
      WeightOrder(leaves, popped, w, first, n, p, Sibling(i));
      FibNext(h);
      FibUp(leaves, popped, w, first, n, i / 2, h + 1, i);
    }
  }

  lemma MergedBounds(leaves: set<nat>, popped: seq<nat>, w: seq<nat>, first: nat, n: nat)
    requires Merged(leaves, popped, w, first, n)
    ensures 0 < n && |popped| == 2 * n && first + n <= |w| && Roots(leaves, popped, first, n) == {first + n - 1}
  {
  }

  lemma {:induction false} Positive(leaves: set<nat>, popped: seq<nat>, w: seq<nat>, first: nat, n: nat, k: nat)
    requires Merged(leaves, popped, w, first, n) && k <= n
    ensures forall x | x in Roots(leaves, popped, first, k) :: x < |w| && w[x] > 0
  {
    RootsBelow(leaves, popped, first, k);
    if k > 0 {
      Positive(leaves, popped, w, first, n, k - 1);
      assert MergesAt(leaves, popped, w, first, k - 1);
    }
  }

  lemma {:induction false} RootsTotal(leaves: set<nat>, popped: seq<nat>, w: seq<nat>, first: nat, n: nat, k: nat)
    requires Merged(leaves, popped, w, first, n) && k <= n
    ensures Sum(Roots(leaves, popped, first, k), w) == Sum(leaves, w)
  {
    if k > 0 {
      RootsTotal(leaves, popped, w, first, n, k - 1);
      assert MergesAt(leaves, popped, w, first, k - 1);
      RootsBelow(leaves, popped, first, k - 1);
      var a, x, y := Roots(leaves, popped, first, k - 1), popped[2 * k - 2], popped[2 * k - 1];
      SumRemove(a, w, x);
      SumRemove(a - {x}, w, y);
      assert a - {x} - {y} == a - {x, y};
      SumAdd(a - {x, y}, w, first + (k - 1));
    }
  }

  /** A leaf at depth d needs a total of at least the (d + 2)-nd Fibonacci number. */
  lemma DepthNeeds(leaves: set<nat>, popped: seq<nat>, w: seq<nat>, first: nat, n: nat, i: nat)
    requires Merged(leaves, popped, w, first, n) && i < 2 * n
    ensures Sum(leaves, w) >= Fib(PoppedDepth(popped, first, n, i) + 2)
  {
    hide Merged, Fib;
    MergedBounds(leaves, popped, w, first, n);
    FatherWeight(leaves, popped, w, first, n, i);
    PoppedPositive(leaves, popped, w, first, n, i);
    PoppedPositive(leaves, popped, w, first, n, Sibling(i));
    SmallFibs();
    FibUp(leaves, popped, w, first, n, i / 2, 1, i);
    RootsTotal(leaves, popped, w, first, n, n);
    hide Roots;
    assert {first + n - 1} == {} + {first + n - 1};
    SumEmpty(w);
    SumAdd({}, w, first + n - 1);
  }

  lemma SmallFibs()
    ensures Fib(2) == 1 && Fib(3) == 2
  {
  }

  lemma PoppedPositive(leaves: set<nat>, popped: seq<nat>, w: seq<nat>, first: nat, n: nat, i: nat)
    requires Merged(leaves, popped, w, first, n) && i < 2 * n
    ensures |popped| == 2 * n && popped[i] < |w| && w[popped[i]] > 0
  {
    Positive(leaves, popped, w, first, n, i / 2);
    assert MergesAt(leaves, popped, w, first, i / 2);
  }

  /** Totals for which no tree, however its ties are resolved, is too deep. */
  lemma SmallTotal(leaves: set<nat>, popped: seq<nat>, w: seq<nat>, first: nat, n: nat, max: nat)
    requires Merged(leaves, popped, w, first, n) && Sum(leaves, w) < Fib(max + 3)
    ensures !Deeper(leaves, popped, first, n, max)
  {
    forall i: nat | i < 2 * n && i < |popped| && popped[i] in leaves
      ensures PoppedDepth(popped, first, n, i) <= max
    {
      DepthNeeds(leaves, popped, w, first, n, i);
      if PoppedDepth(popped, first, n, i) > max { FibGrows(max + 3, PoppedDepth(popped, first, n, i) + 2); }
    }
  }
}
