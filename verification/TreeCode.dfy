/** What build_tree gives to the rest of trees.c: the lengths up to the largest symbol used, the code words in the tree,
    and the bits counted. */
module TreeCode {
  import opened Wrappers
  import opened Kraft
  import opened CanonicalCode
  import opened GenCodes
  import opened TrimCode
  import opened HuffmanOptimal
  import opened BitLengths
  import opened TreeCodes
  import opened TreeDepth
  import opened HuffmanTree
  import opened BuildTree
  import opened BlockHeader
  import opened BlockSize
  import opened TreeWriter

  // -- Bits counted ---------------------------------------------------------------------------------------------

  lemma {:induction false} CostIsWeighted(f: seq<nat>, c: seq<nat>, n: nat)
    requires |f| == |c| && n <= |f|
    ensures Sum(Used(f, |f|), Products(f, c)[..n]) == Weighted(f, c, n)
  {
    if n > 0 {
      CostIsWeighted(f, c, n - 1);
      assert Products(f, c)[..n][..n - 1] == Products(f, c)[..n - 1];
    }
  }

  lemma CostWeighted(f: seq<nat>, c: seq<nat>)
    requires |f| == |c|
    ensures Cost(Used(f, |f|), f, c) == Weighted(f, c, |f|)
  {
    CostIsWeighted(f, c, |f|);
    assert Products(f, c)[..|f|] == Products(f, c);
  }

  lemma {:induction false} WeightedPlus(f: seq<nat>, a: seq<nat>, b: seq<nat>, n: nat)
    requires |a| == |b| && n <= |f| && n <= |a|
    ensures Weighted(f, Plus(a, b), n) == Weighted(f, a, n) + Weighted(f, b, n)
  {
    if n > 0 {
      WeightedPlus(f, a, b, n - 1);
      assert f[n - 1] * (a[n - 1] + b[n - 1]) == f[n - 1] * a[n - 1] + f[n - 1] * b[n - 1];
    }
  }

  /** What opt_len and static_len count. */
  lemma BitsAreWeighted(stat: Static, f: seq<nat>, lens: seq<nat>)
    requires |f| == |lens|
    ensures BitsOf(stat, f, |f|, lens) == Weighted(f, Plus(lens, Extras(stat, |f|)), |f|)
    ensures stat.lens.Some? ==>
      StaticCost(stat, Used(f, |f|), f) == Weighted(f, Plus(StaticLens(stat, |f|), Extras(stat, |f|)), |f|)
  {
    var n, x, s := |f|, Extras(stat, |f|), StaticLens(stat, |f|);
    CostWeighted(f, lens);
    CostWeighted(f, x);
    CostWeighted(f, s);
    WeightedPlus(f, lens, x, n);
    WeightedPlus(f, s, x, n);
  }

  lemma {:induction false} SumIsTotal(f: seq<nat>, n: nat, k: nat)
    requires k <= n <= |f|
    ensures Sum(Used(f, n), f[..k]) == Total(f[..k])
  {
    if k == 0 {
      assert f[..0] == [];
    } else {
      assert f[..k][..k - 1] == f[..k - 1];
      SumIsTotal(f, n, k - 1);
    }
  }

  lemma UsedTotal(f: seq<nat>, n: nat)
    requires n <= |f|
    ensures Sum(Used(f, n), f) == Total(f[..n])
  {
    SumBeyond(Used(f, n), f, n);
    SumIsTotal(f, n, n);
  }

  // -- The code up to its largest symbol --------------------------------------------------------------------------

  /** The code of a tree for the frequencies f. */
  ghost predicate CodeFor(f: seq<nat>, lens: seq<nat>, max: nat) {
    && 0 < |lens| <= |f| && FullLens(lens) && (forall x | 0 <= x < |lens| :: lens[x] <= max)
    && (forall x: nat | x < |f| && f[x] > 0 :: Uses(lens, x))
  }

  lemma TrimmedLens(stat: Static, f: seq<nat>, w: seq<nat>, lens: seq<nat>, maxCode: int)
    requires Built(stat, f, w, lens, maxCode)
    ensures 0 <= maxCode < |lens| == |f| && Padded(lens, maxCode + 1) && CodeFor(f, lens[..maxCode + 1], stat.maxLength)
    ensures FullLens(lens) && (forall x | 0 <= x < |lens| :: lens[x] <= stat.maxLength)
  {
    hide Subscribed, Taken, Monotone, LowerBound, KraftSum, CodeWord, Forces;
    assert Padded(lens, maxCode + 1);
    Trim(lens, maxCode + 1);
    UsedSymbols(stat, f, w, lens, maxCode);
  }

  lemma UsedSymbols(stat: Static, f: seq<nat>, w: seq<nat>, lens: seq<nat>, maxCode: int)
    requires Built(stat, f, w, lens, maxCode)
    ensures |lens| == |f| && forall x: nat | x < |f| && f[x] > 0 :: lens[x] > 0 && x <= maxCode
  {
    var forced: set<nat> :| Forces(f, w, stat.elems, forced, stat);
    hide Subscribed, Taken, Monotone, LowerBound, KraftSum, XBits;
    forall x: nat | x < |f| && f[x] > 0 ensures lens[x] > 0 && x <= maxCode { assert x in Used(w, |w|); }
  }

  lemma TrimmedWords(fc: seq<nat>, dl: seq<nat>, lens: seq<nat>, m: nat)
    requires |lens| <= |fc| == |dl| && lens == dl[..|lens|] && Padded(lens, m) && forall x | 0 <= x < |lens| ::
             lens[x] <= CanonicalCode.MAX_BITS
    requires forall x | 0 <= x < |lens| && lens[x] > 0 :: Coded(lens, x, fc[x])
    ensures Holds(fc, dl, lens[..m]) && Holds(fc, dl, lens)
  {
    hide CodeWord, Bits, Pow2, Subscribed, Taken;
    Trim(lens, m);
    forall x | 0 <= x < m && lens[..m][x] > 0 ensures Coded(lens[..m], x, fc[x]) { assert Coded(lens, x, fc[x]); }
    assert dl[..m] == lens[..m];
  }

  lemma PlusTrim(lens: seq<nat>, m: nat, extra: seq<nat>)
    requires Padded(lens, m)
    ensures Plus(lens[..m], extra) == Plus(lens, extra)
  {
  }

  /** The static code's bits, if the tree has one. */
  function StaticBitsOf(stat: Static, f: seq<nat>): nat {
    if stat.lens.Some? then Weighted(f, Plus(StaticLens(stat, |f|), Extras(stat, |f|)), |f|) else 0
  }

  lemma NoStatic(stat: Static, a: set<nat>, w: seq<nat>)
    requires stat.lens.None?
    ensures StaticCost(stat, a, w) == 0
  {
  }

  lemma ForcedLast(stat: Static, f: seq<nat>, w: seq<nat>, forced: set<nat>)
    requires Forces(f, w, stat.elems, forced, stat) && |w| == |f| == stat.elems
    ensures Used(f, |f|) <= Used(w, |w|) && forall x | x in Used(f, |f|) :: w[x] == f[x]
    ensures 2 <= |Used(f, |f|)| ==> w == f
  {
    hide XBits;
    if 2 <= |Used(f, |f|)| && forced != {} {
      var v :| v in forced;
      assert v in Used(w, |w|) && v !in Used(f, |f|);
      SubsetSize(Used(f, |f|), Used(w, |w|) - {v});
    }
  }

  /** With two symbols in use none is forced. */
  lemma NoneForced(stat: Static, f: seq<nat>, w: seq<nat>, lens: seq<nat>, maxCode: int)
    requires Built(stat, f, w, lens, maxCode)
    ensures |w| == |f| == |lens| && Monotone(Used(f, |f|), f, lens)
    ensures 2 <= |Used(f, |f|)| ==> w == f
  {
    hide Forces, Subscribed, Taken, KraftSum, Words;
    var forced: set<nat> :| Forces(f, w, stat.elems, forced, stat);
    ForcedLast(stat, f, w, forced);
  }

  lemma SubsetSize(a: set<nat>, b: set<nat>)
    requires a <= b
    ensures |a| <= |b|
    decreases a
  {
    if x :| x in a { SubsetSize(a - {x}, b - {x}); }
  }

  /** build_tree: also, with two symbols in use and a small total, no prefix code takes fewer bits; less frequent
      symbols never have shorter words. */
  method BuildCode(s: Deflate, t: Tree, ghost f: seq<nat>) returns (ghost full: seq<nat>, ghost lens: seq<nat>)
    requires Separate(s, t) && |f| == t.stat.elems && f == t.fc[..t.stat.elems]
    requires Total(f) <= 0xffff && (|Used(f, |f|)| == 1 ==> Total(f) < 0xffff)
    modifies s, s.heap, s.depth, s.blCount, t.fc, t.dl, t`maxCode
    ensures 0 <= t.maxCode < |full| == |f| && lens == full[..t.maxCode + 1] && Padded(full, t.maxCode + 1)
    ensures CodeFor(f, lens, t.stat.maxLength) && FullLens(full) && forall x | 0 <= x < |full| ::
            full[x] <= t.stat.maxLength
    ensures Monotone(Used(f, |f|), f, full)
    ensures 2 <= |Used(f, |f|)| && Total(f) < Fib(t.stat.maxLength + 3) ==> Optimal(Used(f, |f|), f, full)
    ensures Holds(t.fc[..], t.dl[..], lens) && Holds(t.fc[..], t.dl[..], full)
    ensures s.optLen == old(s.optLen) + Weighted(f, Plus(lens, Extras(t.stat, |f|)), |f|)
    ensures s.staticLen == old(s.staticLen) + StaticBitsOf(t.stat, f)
  {
    hide Built, BitsOf, StaticCost, GoodStatic, Coded, FullLens, Holds, CodeFor, Weighted, Total, Plus, Extras,
         StaticLens, Monotone, Optimal, Fib, TreeFor, Deeper;
    ghost var w, weights, k, n := [], [], 0, t.stat.elems;
    UsedTotal(t.fc[..], n);
    assert t.fc[..][..n] == f;
    SameUsed(t.fc[..], n);
    w, full, weights, k := Build(s, t, t.fc[..]);
    ShortMax(t.stat);
    CodeParts(t.stat, f, w, full, t.maxCode, t.fc[..], t.dl[..]);
    lens := full[..t.maxCode + 1];
  }

  lemma ShortMax(stat: Static)
    requires GoodStatic(stat)
    ensures stat.maxLength <= CanonicalCode.MAX_BITS
  {
  }

  /** What build_tree leaves, for the symbols up to the largest used. */
  lemma CodeParts(stat: Static, f: seq<nat>, w: seq<nat>, full: seq<nat>, maxCode: int, fc: seq<nat>, dl: seq<nat>)
    requires Built(stat, f, w, full, maxCode) && stat.maxLength <= CanonicalCode.MAX_BITS
    requires |full| <= |fc| == |dl| && full == dl[..|full|] && forall x | 0 <= x < |full| && full[x] > 0 ::
             Coded(full, x, fc[x])
    ensures 0 <= maxCode < |full| == |f| == |w| == stat.elems && Padded(full, maxCode + 1)
            && CodeFor(f, full[..maxCode + 1], stat.maxLength)
    ensures FullLens(full) && (forall x | 0 <= x < |full| :: full[x] <= stat.maxLength)
            && Monotone(Used(f, |f|), f, full)
    ensures 2 <= |Used(f, |f|)| ==> w == f
    ensures Holds(fc, dl, full[..maxCode + 1]) && Holds(fc, dl, full)
    ensures BitsOf(stat, f, |f|, full) == Weighted(f, Plus(full[..maxCode + 1], Extras(stat, |f|)), |f|)
    ensures StaticCost(stat, Used(f, |f|), f) == StaticBitsOf(stat, f)
  {
    hide Built, BitsOf, StaticCost, Coded, FullLens, Holds, CodeFor, Weighted, Plus, Extras, StaticLens, Monotone;
    BuiltElems(stat, f, w, full, maxCode);
    TrimmedLens(stat, f, w, full, maxCode);
    NoneForced(stat, f, w, full, maxCode);
    TrimmedWords(fc, dl, full, maxCode + 1);
    BitsAreWeighted(stat, f, full);
    PlusTrim(full, maxCode + 1, Extras(stat, |f|));
    if stat.lens.None? { NoStatic(stat, Used(f, |f|), f); }
  }

  lemma BuiltElems(stat: Static, f: seq<nat>, w: seq<nat>, full: seq<nat>, maxCode: int)
    requires Built(stat, f, w, full, maxCode)
    ensures |f| == |w| == |full| == stat.elems
  {
  }

  lemma SameUsed(f: seq<nat>, n: nat)
    requires n <= |f|
    ensures Used(f[..n], n) == Used(f, n)
  {
  }
}
