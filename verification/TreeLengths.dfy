/** Code lengths read off a Huffman tree, clamped to a maximum, and what clamping does to the Kraft sum. */
module TreeLengths {
  import opened Kraft
  import opened HuffmanOptimal

  function Min(a: nat, b: nat): nat { if a < b then a else b }

  // -- The order of popping -------------------------------------------------------------------------------------

  /** A popped node is numbered below its father, and is never a root again. */
  lemma {:induction false} PoppedFacts(leaves: set<nat>, popped: seq<nat>, w: seq<nat>, first: nat, k: nat, n: nat)
    requires k <= n && Merges(leaves, popped, w, first, n)
    ensures forall i | 0 <= i < 2 * k :: popped[i] < first + i / 2 && popped[i] !in Roots(leaves, popped, first, k)
    ensures forall i, j | 0 <= i < j < 2 * k :: popped[i] != popped[j]
    ensures forall x | x in leaves || first <= x < first + k ::
            x in Roots(leaves, popped, first, k) || x in popped[..2 * k]
    decreases k
  {
    if k > 0 {
      PoppedFacts(leaves, popped, w, first, k - 1, n);
      assert MergesAt(leaves, popped, w, first, k - 1);
      RootsBelow(leaves, popped, first, k - 1);
      assert popped[..2 * k] == popped[..2 * k - 2] + [popped[2 * k - 2], popped[2 * k - 1]];
    }
  }

  /** Nodes are popped in order of increasing weight. */
  lemma {:induction false} PoppedSorted(leaves: set<nat>, popped: seq<nat>, w: seq<nat>, first: nat, k: nat, n: nat)
    requires k <= n && Merges(leaves, popped, w, first, n)
    ensures forall i | 0 <= i < 2 * k :: popped[i] < |w|
    ensures forall i, j | 0 <= i <= j < 2 * k :: w[popped[i]] <= w[popped[j]]
    ensures forall i, x | 0 <= i < 2 * k && x in Roots(leaves, popped, first, k) && x < |w| :: w[popped[i]] <= w[x]
    decreases k
  {
    if k > 0 {
      PoppedSorted(leaves, popped, w, first, k - 1, n);
      assert MergesAt(leaves, popped, w, first, k - 1);
    }
  }

  // -- Depths -----------------------------------------------------------------------------------------------------

  /** The root has length 0, and every node popped i-th or later one more than its father, but at most `max`. */
  ghost predicate LevelsFrom(popped: seq<nat>, lens: seq<nat>, first: nat, n: nat, max: nat, i: nat) {
    && 0 < n && first + n <= |lens| && 2 * n <= |popped| && i <= 2 * n
    && lens[first + n - 1] == 0
    && (forall j | i <= j < 2 * n :: popped[j] < |lens| && lens[popped[j]] == Min(max, lens[first + j / 2] + 1))
  }

  /** How many of the fathers made by merges k, ..., n - 1 are at the maximum length, with two sons that do not fit. */
  function Crowded(lens: seq<nat>, first: nat, k: nat, n: nat, max: nat): nat
    requires k <= n && first + n <= |lens|
    decreases n - k
  {
    if k == n then 0 else (if lens[first + k] == max then 1 else 0) + Crowded(lens, first, k + 1, n, max)
  }

  function Indicators(lens: seq<nat>, b: nat): (r: seq<nat>)
    ensures |r| == |lens| && forall x: nat | x < |lens| :: r[x] == if lens[x] == b then 1 else 0
  {
    seq(|lens|, (x: nat) requires x < |lens| => if lens[x] == b then 1 else 0)
  }

  /** How many symbols of a have length b. */
  function CountAt(a: set<nat>, lens: seq<nat>, b: nat): int { Sum(a, Indicators(lens, b)) }

  lemma CountAtSame(a: set<nat>, lens: seq<nat>, lens': seq<nat>, b: nat)
    requires |lens| == |lens'| && forall x | x in a && x < |lens| :: lens'[x] == lens[x]
    ensures CountAt(a, lens', b) == CountAt(a, lens, b)
  {
    SumSame(a, a, Indicators(lens', b), Indicators(lens, b));
  }

  lemma CountAtAdd(a: set<nat>, lens: seq<nat>, b: nat, x: nat)
    requires x !in a && x < |lens|
    ensures CountAt(a + {x}, lens, b) == CountAt(a, lens, b) + if lens[x] == b then 1 else 0
  {
    SumAdd(a, Indicators(lens, b), x);
  }

  /** Splitting a root into its two sons. */
  ghost predicate Splits(a: set<nat>, lens: seq<nat>, max: nat, n: nat, m: nat, p: nat) {
    && n in a && m in a && n != m && p !in a && p < |lens| && (forall x | x in a :: x < |lens|)
    && lens[n] == lens[m] == Min(max, lens[p] + 1)
  }

  lemma SplitCounts(a: set<nat>, lens: seq<nat>, max: nat, n: nat, m: nat, p: nat)
    requires Splits(a, lens, max, n, m, p) && lens[p] <= max
    ensures var father := a - {n, m} + {p};
      if lens[p] == max then
        && KraftSum(a, lens, max) == KraftSum(father, lens, max) + 1
        && CountAt(a, lens, max) == CountAt(father, lens, max) + 1
      else
        && KraftSum(a, lens, max) == KraftSum(father, lens, max)
        && CountAt(a, lens, max) >= CountAt(father, lens, max)
  {
    var rest := a - {n} - {m};
    assert rest == a - {n, m} && rest + {m} == a - {n};
    SumRemove(a, Shares(lens, max), n);
    SumRemove(a - {n}, Shares(lens, max), m);
    SumAdd(rest, Shares(lens, max), p);
    SumRemove(a, Indicators(lens, max), n);
    SumRemove(a - {n}, Indicators(lens, max), m);
    SumAdd(rest, Indicators(lens, max), p);
  }

  /** With `crowded` fathers at the maximum length, the Kraft sum (in units of the smallest share) is in excess by that
      number, and more symbols than that have the maximum length; without them, the cost is `weight`. */
  ghost predicate Clamped(a: set<nat>, w: seq<nat>, lens: seq<nat>, max: nat, crowded: nat, weight: nat) {
    && |w| == |lens| && (forall x | x in a :: x < |lens| && lens[x] <= max)
    && KraftSum(a, lens, max) == Pow2(max) + crowded
    && (crowded > 0 ==> CountAt(a, lens, max) > crowded)
    && (crowded == 0 ==> Cost(a, w, lens) == weight)
  }

  lemma SplitClamped(a: set<nat>, w: seq<nat>, lens: seq<nat>, max: nat, n: nat, m: nat, p: nat, crowded: nat,
                     weight: nat)
    requires Splits(a, lens, max, n, m, p) && |w| == |lens| && w[p] == w[n] + w[m]
    requires Clamped(a - {n, m} + {p}, w, lens, max, crowded, weight)
    ensures Clamped(a, w, lens, max, if lens[p] == max then crowded + 1 else crowded, w[p] + weight)
  {
    var father := a - {n, m} + {p};
    assert p in father;
    assert forall z | z in a :: z == n || z == m || z in father;
    SplitCounts(a, lens, max, n, m, p);
    hide KraftSum, CountAt, Cost, Pow2;
    if lens[p] < max { MergeSums(a, w, lens, max, n, m, p); }
    if lens[p] == max && crowded == 0 { OneAt(father, lens, max, p); }
  }

  lemma RootsStep(leaves: set<nat>, popped: seq<nat>, first: nat, k: nat)
    requires 2 * k + 2 <= |popped|
    ensures Roots(leaves, popped, first, k + 1) == Roots(leaves, popped, first, k) - {popped[2 * k], popped[2 * k + 1]}
            + {first + k}
    ensures first + k in Roots(leaves, popped, first, k + 1)
  {
  }

  lemma TreeSplits(leaves: set<nat>, popped: seq<nat>, w: seq<nat>, lens: seq<nat>, first: nat, k: nat, n: nat,
                   max: nat)
    requires k < n && Merges(leaves, popped, w, first, n) && LevelsFrom(popped, lens, first, n, max, 0) && |w| == |lens|
    ensures Splits(Roots(leaves, popped, first, k), lens, max, popped[2 * k], popped[2 * k + 1], first + k)
    ensures w[first + k] == w[popped[2 * k]] + w[popped[2 * k + 1]]
  {
    RootsBelow(leaves, popped, first, k);
    assert MergesAt(leaves, popped, w, first, k);
    assert lens[popped[2 * k]] == Min(max, lens[first + (2 * k) / 2] + 1);
    assert lens[popped[2 * k + 1]] == Min(max, lens[first + (2 * k + 1) / 2] + 1);
  }

  ghost predicate ClampedAt(leaves: set<nat>, popped: seq<nat>, w: seq<nat>, lens: seq<nat>, first: nat, k: nat, n: nat,
                            max: nat) {
    && k <= n && 2 * n <= |popped| && first + n <= |lens| == |w|
    && Clamped(Roots(leaves, popped, first, k), w, lens, max, Crowded(lens, first, k, n, max),
               MergedWeight(w, first, k, n))
  }

  lemma ClampedStep(leaves: set<nat>, popped: seq<nat>, w: seq<nat>, lens: seq<nat>, first: nat, k: nat, n: nat,
                    max: nat)
    requires k < n && Merges(leaves, popped, w, first, n) && LevelsFrom(popped, lens, first, n, max, 0) && |w| == |lens|
    requires ClampedAt(leaves, popped, w, lens, first, k + 1, n, max)
    ensures ClampedAt(leaves, popped, w, lens, first, k, n, max)
  {
    TreeSplits(leaves, popped, w, lens, first, k, n, max);
    RootsStep(leaves, popped, first, k);
    hide Merges, LevelsFrom, Splits, Clamped, Roots;
    SplitClamped(Roots(leaves, popped, first, k), w, lens, max, popped[2 * k], popped[2 * k + 1], first + k,
                 Crowded(lens, first, k + 1, n, max), MergedWeight(w, first, k + 1, n));
  }

  /** The tree as seen after k merges. */
  lemma {:induction false} TreeClamped(leaves: set<nat>, popped: seq<nat>, w: seq<nat>, lens: seq<nat>, first: nat,
                                       k: nat, n: nat, max: nat)
    requires k <= n && Merges(leaves, popped, w, first, n) && LevelsFrom(popped, lens, first, n, max, 0)
             && |w| == |lens|
    requires Roots(leaves, popped, first, n) == {first + n - 1}
    ensures ClampedAt(leaves, popped, w, lens, first, k, n, max)
    decreases n - k
  {
    if k == n {
      RootAlone(w, lens, first + n - 1, max);
      hide Clamped, Merges, Roots;
    } else {
      hide ClampedAt, Merges, LevelsFrom;
      TreeClamped(leaves, popped, w, lens, first, k + 1, n, max);
      ClampedStep(leaves, popped, w, lens, first, k, n, max);
    }
  }

  lemma OneAt(a: set<nat>, lens: seq<nat>, b: nat, x: nat)
    requires x in a && x < |lens| && lens[x] == b
    ensures CountAt(a, lens, b) > 0
  {
    SumRemove(a, Indicators(lens, b), x);
    SumAtLeast(a - {x}, Indicators(lens, b));
  }

  lemma RootAlone(w: seq<nat>, lens: seq<nat>, root: nat, max: nat)
    requires root < |lens| == |w| && lens[root] == 0
    ensures Clamped({root}, w, lens, max, 0, 0)
  {
    assert {root} == {} + {root};
    SumEmpty(Shares(lens, max));
    SumAdd({}, Shares(lens, max), root);
    SumEmpty(Products(w, lens));
    SumAdd({}, Products(w, lens), root);
  }

  // -- Kraft sums by counts ---------------------------------------------------------------------------------------

  /** The Kraft sum of a code with counts[b] words of each length b up to `upTo`. */
  function KraftCounts(counts: seq<nat>, upTo: nat, scale: nat): nat
    requires upTo < |counts| && upTo <= scale
  {
    counts[upTo] * Pow2(scale - upTo) + if upTo == 0 then 0 else KraftCounts(counts, upTo - 1, scale)
  }

  function CountSum(counts: seq<nat>, upTo: nat): nat
    requires upTo < |counts|
  {
    counts[upTo] + if upTo == 0 then 0 else CountSum(counts, upTo - 1)
  }

  lemma {:induction false} KraftCountsUpdate(counts: seq<nat>, upTo: nat, scale: nat, b: nat, v: nat)
    requires upTo < |counts| && upTo <= scale && b < |counts|
    ensures b <= upTo ==>
      KraftCounts(counts[b := v], upTo, scale) == KraftCounts(counts, upTo, scale) + (v - counts[b]) * Pow2(scale - b)
    ensures b > upTo ==> KraftCounts(counts[b := v], upTo, scale) == KraftCounts(counts, upTo, scale)
  {
    if upTo > 0 { KraftCountsUpdate(counts, upTo - 1, scale, b, v); }
    if b == upTo { assert (v - counts[b]) * Pow2(scale - b) == v * Pow2(scale - b) - counts[b] * Pow2(scale - b); }
  }

  lemma {:induction false} CountSumUpdate(counts: seq<nat>, upTo: nat, b: nat, v: nat)
    requires upTo < |counts| && b < |counts|
    ensures CountSum(counts[b := v], upTo) == CountSum(counts, upTo) + if b <= upTo then v - counts[b] else 0
  {
    if upTo > 0 { CountSumUpdate(counts, upTo - 1, b, v); }
  }

  /** counts says how many symbols of a have each length. */
  ghost predicate Counts(a: set<nat>, lens: seq<nat>, counts: seq<nat>, max: nat) {
    && max < |counts| && (forall x | x in a :: x < |lens| && lens[x] <= max)
    && (forall b | 0 <= b <= max :: counts[b] == CountAt(a, lens, b))
  }

  lemma {:induction false} ZeroCounts(counts: seq<nat>, upTo: nat, scale: nat)
    requires upTo < |counts| && upTo <= scale && forall b | 0 <= b <= upTo :: counts[b] == 0
    ensures KraftCounts(counts, upTo, scale) == 0 && CountSum(counts, upTo) == 0
  {
    if upTo > 0 { ZeroCounts(counts, upTo - 1, scale); }
  }

  lemma CountsRemove(a: set<nat>, lens: seq<nat>, counts: seq<nat>, max: nat, x: nat)
    requires Counts(a, lens, counts, max) && x in a
    ensures counts[lens[x]] > 0 && Counts(a - {x}, lens, counts[lens[x] := counts[lens[x]] - 1], max)
  {
    OneAt(a, lens, lens[x], x);
    forall b | 0 <= b <= max ensures counts[lens[x] := counts[lens[x]] - 1][b] == CountAt(a - {x}, lens, b) {
      SumRemove(a, Indicators(lens, b), x);
    }
  }

  lemma CountsAdd(a: set<nat>, lens: seq<nat>, counts: seq<nat>, max: nat, x: nat)
    requires Counts(a, lens, counts, max) && x !in a && x < |lens| && lens[x] <= max
    ensures Counts(a + {x}, lens, counts[lens[x] := counts[lens[x]] + 1], max)
  {
    forall b | 0 <= b <= max ensures counts[lens[x] := counts[lens[x]] + 1][b] == CountAt(a + {x}, lens, b) {
      CountAtAdd(a, lens, b, x);
    }
  }

  lemma CountsSame(a: set<nat>, lens: seq<nat>, lens': seq<nat>, counts: seq<nat>, max: nat)
    requires Counts(a, lens, counts, max) && |lens| == |lens'| && forall x | x in a && x < |lens| :: lens'[x] == lens[x]
    ensures Counts(a, lens', counts, max)
  {
    forall b | 0 <= b <= max ensures counts[b] == CountAt(a, lens', b) { CountAtSame(a, lens, lens', b); }
  }

  lemma CountsEmpty(lens: seq<nat>, counts: seq<nat>, max: nat)
    requires max < |counts| && forall b | 0 <= b <= max :: counts[b] == 0
    ensures Counts({}, lens, counts, max)
  {
    forall b | 0 <= b <= max ensures CountAt({}, lens, b) == 0 { SumEmpty(Indicators(lens, b)); }
  }

  /** The counts by length determine the Kraft sum and the number of symbols. */
  lemma {:induction false} KraftByCounts(a: set<nat>, lens: seq<nat>, counts: seq<nat>, max: nat)
    requires Counts(a, lens, counts, max)
    ensures KraftSum(a, lens, max) == KraftCounts(counts, max, max) && |a| == CountSum(counts, max)
    decreases |a|
  {
    if a == {} {
      forall b | 0 <= b <= max ensures counts[b] == 0 { SumEmpty(Indicators(lens, b)); }
      SumEmpty(Shares(lens, max));
      ZeroCounts(counts, max, max);
    } else {
      var x :| x in a;
      KraftByCountsStep(a, lens, counts, max, x);
      hide Counts, KraftSum, KraftCounts, CountSum;
      KraftByCounts(a - {x}, lens, counts[lens[x] := counts[lens[x]] - 1], max);
    }
  }

  lemma KraftByCountsStep(a: set<nat>, lens: seq<nat>, counts: seq<nat>, max: nat, x: nat)
    requires Counts(a, lens, counts, max) && x in a
    ensures counts[lens[x]] > 0
    ensures var counts' := counts[lens[x] := counts[lens[x]] - 1];
      && Counts(a - {x}, lens, counts', max)
      && KraftSum(a, lens, max) - KraftCounts(counts, max, max)
         == KraftSum(a - {x}, lens, max) - KraftCounts(counts', max, max)
      && CountSum(counts, max) == CountSum(counts', max) + 1
  {
    var b := lens[x];
    CountsRemove(a, lens, counts, max, x);
    SumRemove(a, Shares(lens, max), x);
    hide Counts;
    KraftCountsUpdate(counts, max, max, b, counts[b] - 1);
    CountSumUpdate(counts, max, b, counts[b] - 1);
    hide KraftCounts, CountSum, Pow2;
    assert (counts[b] - 1 - counts[b]) * Pow2(max - b) == 0 - Pow2(max - b);
  }
}
