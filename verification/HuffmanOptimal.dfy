/** Merging the two least weights loses nothing: the argument that the trees of build_tree are optimal. */
module HuffmanOptimal {
  import opened Kraft

  /** No lengths that satisfy Kraft's inequality send the symbols of a, as often as w says, in fewer than c bits. */
  ghost predicate LowerBound(a: set<nat>, w: seq<nat>, c: int) {
    forall lens: seq<nat>, scale: nat | |lens| == |w| && Fits(a, lens, scale) :: c <= Cost(a, w, lens)
  }

  // -- Making two least weights siblings ------------------------------------------------------------------------

  lemma CrossProducts(a: int, b: int, c: int, d: int)
    requires a <= b && c <= d
    ensures a * d + b * c <= a * c + b * d
  {
    ProductMonotone(b - a, d - c);
  }

  /** Giving the longer of two lengths to the smaller weight. */
  lemma Exchange(a: set<nat>, w: seq<nat>, lens: seq<nat>, scale: nat, n: nat, x: nat)
    requires |lens| == |w| && Fits(a, lens, scale) && n in a && x in a && w[n] <= w[x] && lens[n] <= lens[x]
    ensures var lens' := lens[n := lens[x]][x := lens[n]];
      Fits(a, lens', scale) && Cost(a, w, lens') <= Cost(a, w, lens)
  {
    var mid := lens[n := lens[x]];
    if n == x {
      assert mid[x := lens[n]] == lens;
    } else {
      KraftUpdate(a, lens, scale, n, lens[x]);
      KraftUpdate(a, mid, scale, x, lens[n]);
      CostUpdate(a, w, lens, n, lens[x]);
      CostUpdate(a, w, mid, x, lens[n]);
      hide KraftSum, Cost, Pow2;
      CrossProducts(w[n], w[x], lens[n], lens[x]);
    }
  }

  lemma ProductMonotone(a: int, b: int)
    requires a >= 0 && b >= 0
    ensures a * b >= 0
  {
  }

  lemma {:induction false} Longest(a: set<nat>, lens: seq<nat>) returns (x: nat)
    requires a != {} && forall x | x in a :: x < |lens|
    ensures x in a && forall y | y in a :: lens[y] <= lens[x]
    decreases a
  {
    x :| x in a;
    if a != {x} {
      var y := Longest(a - {x}, lens);
      if lens[y] > lens[x] {
        assert forall z | z in a :: z == x || z in a - {x};
        x := y;
      } else {
        assert forall z | z in a :: z == x || z in a - {x};
      }
    }
  }

  /** All code words but n's have length at most `level`; then n's does not need to be longer. */
  lemma Shorten(a: set<nat>, lens: seq<nat>, scale: nat, n: nat, level: nat)
    requires Fits(a, lens, scale) && n in a && level <= lens[n] && forall x | x in a && x != n :: lens[x] <= level
    ensures Fits(a, lens[n := level], scale)
  {
    var unit := Pow2(scale - level);
    var rest := a - {n};
    SumRemove(a, Shares(lens, scale), n);
    forall x: nat | x in rest && x < |lens| ensures exists k :: Shares(lens, scale)[x] == unit * k {
      Pow2Add(scale - level, level - lens[x]);
      assert Shares(lens, scale)[x] == unit * Pow2(level - lens[x]);
    }
    var q := SumMultiple(rest, Shares(lens, scale), unit);
    Pow2Add(scale - level, level);
    assert unit * q < unit * Pow2(level);
    RoomForOne(unit, q, Pow2(level));
    KraftUpdate(a, lens, scale, n, level);
  }

  lemma RoomForOne(unit: nat, q: int, p: nat)
    requires unit > 0 && unit * q < unit * p
    ensures unit * q + unit <= unit * p
  {
    if q >= p { ProductMonotone(unit, q - p); }
    assert unit * (p - q - 1) >= 0 by { ProductMonotone(unit, p - q - 1); }
  }

  /** n is the least weight of a and m the least of the others. */
  ghost predicate Least(a: set<nat>, w: seq<nat>, n: nat, m: nat) {
    && n in a && m in a && n != m && (forall x | x in a :: x < |w|)
    && (forall x | x in a :: w[n] <= w[x])
    && (forall x | x in a && x != n :: w[m] <= w[x])
  }

  lemma LongestFirst(a: set<nat>, w: seq<nat>, lens: seq<nat>, scale: nat, n: nat) returns (lens': seq<nat>)
    requires |lens| == |w| && Fits(a, lens, scale) && n in a && forall x | x in a :: w[n] <= w[x]
    ensures |lens'| == |w| && Fits(a, lens', scale) && Cost(a, w, lens') <= Cost(a, w, lens)
    ensures forall x | x in a :: lens'[x] <= lens'[n]
  {
    hide KraftSum, Cost;
    var x := Longest(a, lens);
    Exchange(a, w, lens, scale, n, x);
    lens' := lens[n := lens[x]][x := lens[n]];
  }

  lemma LongestSecond(a: set<nat>, w: seq<nat>, lens: seq<nat>, scale: nat, n: nat, m: nat) returns (lens': seq<nat>)
    requires |lens| == |w| && Fits(a, lens, scale) && Least(a, w, n, m) && forall x | x in a :: lens[x] <= lens[n]
    ensures |lens'| == |w| && Fits(a, lens', scale) && Cost(a, w, lens') <= Cost(a, w, lens)
    ensures lens'[m] <= lens'[n] && forall x | x in a && x != n :: lens'[x] <= lens'[m]
  {
    hide KraftSum, Cost;
    assert m in a - {n};
    var y := Longest(a - {n}, lens);
    Exchange(a, w, lens, scale, m, y);
    lens' := lens[m := lens[y]][y := lens[m]];
    assert forall z | z in a && z != n :: z in a - {n};
  }

  /** Some lengths that cost no more give the two least weights the same length. */
  lemma Siblings(a: set<nat>, w: seq<nat>, lens: seq<nat>, scale: nat, n: nat, m: nat) returns (lens': seq<nat>)
    requires |lens| == |w| && Fits(a, lens, scale) && Least(a, w, n, m)
    ensures |lens'| == |w| && Fits(a, lens', scale) && lens'[n] == lens'[m] && Cost(a, w, lens') <= Cost(a, w, lens)
  {
    hide KraftSum, Cost;
    var first := LongestFirst(a, w, lens, scale, n);
    var second := LongestSecond(a, w, first, scale, n, m);
    Shorten(a, second, scale, n, second[m]);
    lens' := second[n := second[m]];
    CostUpdate(a, w, second, n, second[m]);
    CrossProducts(0, w[n], second[m], second[n]);
  }

  // -- Merging --------------------------------------------------------------------------------------------------

  lemma TwoFit(a: set<nat>, lens: seq<nat>, scale: nat, n: nat, m: nat)
    requires Fits(a, lens, scale) && n in a && m in a && n != m
    ensures lens[n] > 0
  {
    if lens[n] == 0 {
      var s := Shares(lens, scale);
      SumRemove(a, s, n);
      SumRemove(a - {n}, s, m);
      SumAtLeast(a - {n} - {m}, s);
    }
  }

  /** Replacing two siblings by their father, one bit up. */
  lemma MergeSums(a: set<nat>, w: seq<nat>, lens: seq<nat>, scale: nat, n: nat, m: nat, p: nat)
    requires |lens| == |w| && n in a && m in a && n != m && p !in a && p < |w| && (forall x | x in a :: x < |w|)
    requires 0 < lens[n] == lens[m] <= scale && lens[p] == lens[n] - 1 && w[p] == w[n] + w[m]
    ensures KraftSum(a - {n, m} + {p}, lens, scale) == KraftSum(a, lens, scale)
    ensures Cost(a - {n, m} + {p}, w, lens) == Cost(a, w, lens) - w[p]
  {
    var s, c := Shares(lens, scale), Products(w, lens);
    var rest := a - {n} - {m};
    assert rest == a - {n, m};
    SumRemove(a, s, n);
    SumRemove(a - {n}, s, m);
    SumAdd(rest, s, p);
    SumRemove(a, c, n);
    SumRemove(a - {n}, c, m);
    SumAdd(rest, c, p);
    assert w[p] * lens[p] == w[n] * lens[n] + w[m] * lens[m] - w[p];
  }

  lemma MergeBound(a: set<nat>, w: seq<nat>, n: nat, m: nat, p: nat, c: int)
    requires Least(a, w, n, m) && p !in a && p < |w| && w[p] == w[n] + w[m]
    requires LowerBound(a - {n, m} + {p}, w, c)
    ensures LowerBound(a, w, c + w[p])
  {
    forall lens: seq<nat>, scale: nat | |lens| == |w| && Fits(a, lens, scale) ensures c + w[p] <= Cost(a, w, lens) {
      var even := Siblings(a, w, lens, scale, n, m);
      TwoFit(a, even, scale, n, m);
      var merged := even[p := even[n] - 1];
      KraftSame(a, even, merged, scale);
      CostSame(a, w, even, merged);
      MergeSums(a, w, merged, scale, n, m, p);
      assert Fits(a - {n, m} + {p}, merged, scale);
    }
  }

  // -- A whole run of merges --------------------------------------------------------------------------------------

  /** The roots after k merges: the 2j-th and (2j+1)-th nodes popped become the sons of node `first + j`. */
  function Roots(leaves: set<nat>, popped: seq<nat>, first: nat, k: nat): set<nat>
    requires 2 * k <= |popped|
  {
    if k == 0 then leaves
    else Roots(leaves, popped, first, k - 1) - {popped[2 * k - 2], popped[2 * k - 1]} + {first + (k - 1)}
  }

  ghost predicate MergesAt(leaves: set<nat>, popped: seq<nat>, w: seq<nat>, first: nat, j: nat)
    requires 2 * j + 1 < |popped|
  {
    && Least(Roots(leaves, popped, first, j), w, popped[2 * j], popped[2 * j + 1])
    && first + j < |w| && w[first + j] == w[popped[2 * j]] + w[popped[2 * j + 1]]
  }

  /** k merges of the two least roots, into new nodes numbered upwards from `first`. */
  ghost predicate Merges(leaves: set<nat>, popped: seq<nat>, w: seq<nat>, first: nat, k: nat) {
    && 2 * k <= |popped| && (forall x | x in leaves :: x < first)
    && (forall j | 0 <= j < k :: MergesAt(leaves, popped, w, first, j))
  }

  lemma {:induction false} RootsBelow(leaves: set<nat>, popped: seq<nat>, first: nat, k: nat)
    requires 2 * k <= |popped| && forall x | x in leaves :: x < first
    ensures forall x | x in Roots(leaves, popped, first, k) :: x < first + k
  {
    if k > 0 { RootsBelow(leaves, popped, first, k - 1); }
  }

  /** The weight of the nodes made by merges k, k + 1, ..., n - 1. */
  function MergedWeight(w: seq<nat>, first: nat, k: nat, n: nat): nat
    requires k <= n && first + n <= |w|
    decreases n - k
  {
    if k == n then 0 else w[first + k] + MergedWeight(w, first, k + 1, n)
  }

  /** What is left to pay after k merges is at least the weight of the nodes still to be made. */
  lemma {:induction false} MergesBound(leaves: set<nat>, popped: seq<nat>, w: seq<nat>, first: nat, k: nat, n: nat)
    requires k <= n && Merges(leaves, popped, w, first, n) && first + n <= |w|
    ensures LowerBound(Roots(leaves, popped, first, k), w, MergedWeight(w, first, k, n))
    decreases n - k
  {
    var a := Roots(leaves, popped, first, k);
    if k == n {
      forall lens: seq<nat>, scale: nat | |lens| == |w| && Fits(a, lens, scale) ensures 0 <= Cost(a, w, lens) {
        SumAtLeast(a, Products(w, lens));
      }
    } else {
      MergesBound(leaves, popped, w, first, k + 1, n);
      assert MergesAt(leaves, popped, w, first, k);
      RootsBelow(leaves, popped, first, k);
      MergeBound(a, w, popped[2 * k], popped[2 * k + 1], first + k, MergedWeight(w, first, k + 1, n));
    }
  }

  /** A lower bound holds for every prefix code. */
  lemma BoundsPrefixCodes(a: set<nat>, w: seq<nat>, c: int, code: seq<seq<bool>>)
    requires LowerBound(a, w, c) && |code| == |w| && PrefixFree(a, code)
    ensures c <= Cost(a, w, Lengths(code))
  {
    var scale := LongestWord(a, code);
    PrefixCodesFit(a, code, scale);
    assert Fits(a, Lengths(code), scale);
  }

  /** No prefix code sends the symbols of a, as often as w says, in fewer bits. */
  ghost predicate Optimal(a: set<nat>, w: seq<nat>, lens: seq<nat>)
    requires |w| == |lens|
  {
    forall code: seq<seq<bool>> | |code| == |w| && PrefixFree(a, code) :: Cost(a, w, lens) <= Cost(a, w, Lengths(code))
  }

  lemma BoundIsOptimal(a: set<nat>, w: seq<nat>, lens: seq<nat>)
    requires |w| == |lens| && LowerBound(a, w, Cost(a, w, lens))
    ensures Optimal(a, w, lens)
  {
    forall code: seq<seq<bool>> | |code| == |w| && PrefixFree(a, code)
      ensures Cost(a, w, lens) <= Cost(a, w, Lengths(code))
    {
      BoundsPrefixCodes(a, w, Cost(a, w, lens), code);
    }
  }

  lemma {:induction false} LongestWord(a: set<nat>, code: seq<seq<bool>>) returns (scale: nat)
    requires forall x | x in a :: x < |code|
    ensures forall x | x in a :: |code[x]| <= scale
    decreases a
  {
    scale := 0;
    if x: nat :| x in a {
      scale := LongestWord(a - {x}, code);
      if |code[x]| > scale { scale := |code[x]|; }
      forall y | y in a ensures |code[y]| <= scale { if y != x { assert y in a - {x}; } }
    }
  }
}
