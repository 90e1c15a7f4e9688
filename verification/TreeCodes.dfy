/** From the counts of gen_bitlen to the canonical code of gen_codes. */
module TreeCodes {
  import opened Kraft
  import opened TreeLengths
  import opened BitLengths
  import opened CanonicalCode
  import opened GenCodes

  /** The symbols with a code word are those in a. */
  ghost predicate Words(a: set<nat>, lens: seq<nat>) {
    && (forall x | x in a :: x < |lens|) && (forall x | 0 <= x < |lens| :: x in a <==> lens[x] > 0)
  }

  lemma {:induction false} RankIsSum(a: set<nat>, lens: seq<nat>, n: nat, b: nat)
    requires n <= |lens| && 0 < b && forall x: nat | x < n && x !in a :: lens[x] == 0
    ensures Sum(a, Indicators(lens, b)[..n]) == Rank(lens, n, b)
  {
    if n > 0 {
      RankIsSum(a, lens, n - 1, b);
      assert Indicators(lens, b)[..n][..n - 1] == Indicators(lens, b)[..n - 1];
    }
  }

  /** The counts by length are those of the canonical code. */
  lemma CountsAgree(a: set<nat>, lens: seq<nat>, counts: seq<nat>, max: nat)
    requires Words(a, lens) && FullCode(a, lens, counts, max) && max <= MAX_BITS && |counts| == MAX_BITS + 1
    requires forall b | max < b < |counts| :: counts[b] == 0
    ensures CountsOf(lens, counts)
  {
    forall b | 0 <= b <= MAX_BITS ensures counts[b] == Count(lens, b) {
      if b == 0 {
        NoneAtZero(a, lens);
      } else {
        RankIsSum(a, lens, |lens|, b);
        assert Indicators(lens, b)[..|lens|] == Indicators(lens, b);
        if b > max { NoneAbove(a, lens, b); }
      }
    }
  }

  lemma NoneAbove(a: set<nat>, lens: seq<nat>, b: nat)
    requires forall x | x in a :: x < |lens| && lens[x] < b
    ensures CountAt(a, lens, b) == 0
  {
    var zeros := seq(|lens|, _ => 0);
    SumSame(a, a, Indicators(lens, b), zeros);
    SumZeros(a, zeros);
  }

  lemma {:induction false} Rescale(a: set<nat>, lens: seq<nat>, f: seq<int>, g: seq<int>, d: nat)
    requires |f| == |g| && forall x: nat | x in a && x < |f| :: g[x] == f[x] * d
    ensures Sum(a, g) == Sum(a, f) * d
  {
    if f != [] {
      var n := |f| - 1;
      Rescale(a, lens, f[..n], g[..n], d);
      if n in a { assert (Sum(a, f[..n]) + f[n]) * d == Sum(a, f[..n]) * d + f[n] * d; }
    }
  }

  lemma KraftRescale(a: set<nat>, lens: seq<nat>, scale: nat, d: nat)
    requires forall x | x in a :: x < |lens| && lens[x] <= scale
    ensures KraftSum(a, lens, scale + d) == KraftSum(a, lens, scale) * Pow2(d)
  {
    forall x: nat | x in a && x < |lens| ensures Shares(lens, scale + d)[x] == Shares(lens, scale)[x] * Pow2(d) {
      Pow2Add(scale - lens[x], d);
    }
    Rescale(a, lens, Shares(lens, scale), Shares(lens, scale + d), Pow2(d));
  }

  lemma {:induction false} TakenIsKraft(lens: seq<nat>, counts: seq<nat>, b: nat)
    requires CountsOf(lens, counts) && b <= MAX_BITS
    ensures Taken(lens, b + 1, MAX_BITS) == KraftCounts(counts, b, MAX_BITS)
  {
    if b > 0 {
      TakenIsKraft(lens, counts, b - 1);
    } else {
      assert Taken(lens, 1, MAX_BITS) == Taken(lens, 0, MAX_BITS) + Count(lens, 0) * Pow2(MAX_BITS);
    }
  }

  /** The words of a full code use up the code space. */
  lemma FullSubscribed(a: set<nat>, lens: seq<nat>, counts: seq<nat>, max: nat)
    requires Words(a, lens) && FullCode(a, lens, counts, max) && max <= MAX_BITS && |counts| == MAX_BITS + 1
    requires forall b | max < b < |counts| :: counts[b] == 0
    ensures CountsOf(lens, counts) && Subscribed(lens) && Taken(lens, MAX_BITS + 1, MAX_BITS) == Pow2(MAX_BITS)
  {
    CountsAgree(a, lens, counts, max);
    forall b | 0 <= b <= MAX_BITS ensures counts[b] == CountAt(a, lens, b) {
      if b > max { NoneAbove(a, lens, b); }
    }
    assert Counts(a, lens, counts, MAX_BITS);
    FullTaken(a, lens, counts, max);
    forall x | 0 <= x < |lens| ensures lens[x] <= MAX_BITS { assert x in a || lens[x] == 0; }
    hide Pow2, Taken, Counts, CountsOf, FirstOf, Count;
    forall b: nat ensures FirstOf(lens, b) + Count(lens, b) <= Pow2(b) { KraftSubscribed(lens, b); }
  }

  lemma FullTaken(a: set<nat>, lens: seq<nat>, counts: seq<nat>, max: nat)
    requires Counts(a, lens, counts, MAX_BITS) && CountsOf(lens, counts) && max <= MAX_BITS
    requires KraftSum(a, lens, max) == Pow2(max) && forall x | x in a :: x < |lens| && lens[x] <= max
    ensures Taken(lens, MAX_BITS + 1, MAX_BITS) == Pow2(MAX_BITS)
  {
    hide Pow2, Taken, KraftSum, CountsOf, Counts;
    KraftRescale(a, lens, max, MAX_BITS - max);
    Pow2Add(max, MAX_BITS - max);
    KraftByCounts(a, lens, counts, MAX_BITS);
    TakenIsKraft(lens, counts, MAX_BITS);
  }

  lemma {:induction false} SumBeyond(a: set<nat>, f: seq<int>, n: nat)
    requires n <= |f| && forall x | x in a :: x < n
    ensures Sum(a, f) == Sum(a, f[..n])
  {
    if n < |f| {
      SumBeyond(a, f[..|f| - 1], n);
      assert f[..|f| - 1][..n] == f[..n];
    } else {
      assert f[..n] == f;
    }
  }

  /** Lengths beyond the symbols do not matter. */
  lemma FullRestrict(a: set<nat>, lens: seq<nat>, n: nat, counts: seq<nat>, max: nat)
    requires FullCode(a, lens, counts, max) && n <= |lens| && forall x | x in a :: x < n
    ensures FullCode(a, lens[..n], counts, max)
  {
    forall b | 0 <= b <= max ensures counts[b] == CountAt(a, lens[..n], b) {
      SumBeyond(a, Indicators(lens, b), n);
      assert Indicators(lens[..n], b) == Indicators(lens, b)[..n];
    }
    SumBeyond(a, Shares(lens, max), n);
    assert Shares(lens[..n], max) == Shares(lens, max)[..n];
  }

  /** A full code of two words has words of one bit. */
  lemma TwoWords(a: set<nat>, lens: seq<nat>, counts: seq<nat>, max: nat, x: nat, y: nat)
    requires FullCode(a, lens, counts, max) && a == {x, y} && x != y
    ensures lens[x] == 1 && lens[y] == 1
  {
    var s := Shares(lens, max);
    SumRemove(a, s, x);
    SumRemove(a - {x}, s, y);
    assert a - {x} - {y} == {};
    SumEmpty(s);
    assert s[x] + s[y] == Pow2(max) && max >= 1;
    Pow2Monotone(max - lens[x], max - 1);
    Pow2Monotone(max - lens[y], max - 1);
  }
}
