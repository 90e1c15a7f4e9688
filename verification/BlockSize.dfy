/** How many bits a block takes, from how often each symbol occurs. */
module BlockSize {
  import opened Kraft
  import opened CanonicalCode
  import opened GenCodes
  import opened BlockTables
  import opened BlockCode
  import opened BlockHeader
  import R = RunLengths

  // -- Weighted sums --------------------------------------------------------------------------------------------

  /** The sum of f[x] * c[x] over the first n symbols. */
  function Weighted(f: seq<nat>, c: seq<nat>, n: nat): nat
    requires n <= |f| && n <= |c|
  {
    if n == 0 then 0 else Weighted(f, c, n - 1) + f[n - 1] * c[n - 1]
  }

  lemma {:induction false} WeightedMore(f: seq<nat>, c: seq<nat>, n: nat, x: nat, k: nat)
    requires n <= |f| && n <= |c| && x < |f|
    ensures Weighted(f[x := f[x] + k], c, n) == Weighted(f, c, n) + if x < n then k * c[x] else 0
  {
    if n > 0 {
      WeightedMore(f, c, n - 1, x, k);
      if x == n - 1 { assert (f[x] + k) * c[x] == f[x] * c[x] + k * c[x]; }
    }
  }

  lemma {:induction false} WeightedZero(f: seq<nat>, c: seq<nat>, n: nat)
    requires n <= |f| && n <= |c| && forall x | 0 <= x < n :: f[x] == 0
    ensures Weighted(f, c, n) == 0
  {
    if n > 0 { WeightedZero(f, c, n - 1); }
  }

  // -- Counting symbols -----------------------------------------------------------------------------------------

  /** How often each literal/length symbol occurs, the end-of-block code once. */
  function LitFreq(tokens: seq<Token>): (f: seq<nat>)
    ensures |f| == 286
  {
    if tokens == [] then seq(286, x => if x == END_BLOCK then 1 else 0)
    else
      var f := LitFreq(tokens[..|tokens| - 1]);
      var x := LitSymbol(tokens[|tokens| - 1]);
      if x < 286 then f[x := f[x] + 1] else f
  }

  /** How often each distance symbol occurs. */
  function DistFreq(tokens: seq<Token>): (f: seq<nat>)
    ensures |f| == 30
  {
    if tokens == [] then seq(30, _ => 0)
    else
      var f := DistFreq(tokens[..|tokens| - 1]);
      var t := tokens[|tokens| - 1];
      if t.Match? && DistSymbol(t) < 30 then f[DistSymbol(t) := f[DistSymbol(t)] + 1] else f
  }

  function RunFreq(runs: seq<R.Run>): (f: seq<nat>)
    ensures |f| == BL_CODES
  {
    if runs == [] then seq(BL_CODES, _ => 0)
    else
      var f := RunFreq(runs[..|runs| - 1]);
      var x := R.Symbol(runs[|runs| - 1]);
      if x < BL_CODES then f[x := f[x] + 1] else f
  }

  /** The extra bits of each symbol. */
  function SymbolExtra(x: nat): nat { if x > LITERALS then LengthXBits(x - (LITERALS + 1)) else 0 }

  function LitExtra(): (r: seq<nat>)
    ensures |r| == 286
  {
    seq<nat>(286, (x: nat) => SymbolExtra(x))
  }

  function DistExtraBits(): (r: seq<nat>)
    ensures |r| == 30
  {
    seq(30, (x: nat) => DistXBits(x))
  }

  function RunExtra(): (r: seq<nat>)
    ensures |r| == BL_CODES
  {
    seq(BL_CODES, (x: nat) => if x == 16 then 2 else if x == 17 then 3 else if x == 18 then 7 else 0)
  }

  function At(lens: seq<nat>, x: nat): nat { if x < |lens| then lens[x] else 0 }

  /** The bits of each symbol: its code word and its extra bits. */
  function Plus(lens: seq<nat>, extra: seq<nat>): (r: seq<nat>)
    ensures |r| == |extra| && forall x: nat | x < |extra| :: r[x] == At(lens, x) + extra[x]
  {
    seq(|extra|, (x: nat) requires x < |extra| => At(lens, x) + extra[x])
  }

  // -- The body -------------------------------------------------------------------------------------------------

  lemma LitExtraAt(c: nat)
    requires c < L_CODES
    ensures LitExtra()[LITERALS + 1 + c] == LengthXBits(c)
  {
  }

  lemma TokenSize(t: Token, ll: seq<nat>, dl: seq<nat>)
    requires Good(t)
    ensures LitSymbol(t) < 286 && DistSymbol(t) < 30
    ensures |TokenBits(t, ll, dl)| == At(ll, LitSymbol(t)) + LitExtra()[LitSymbol(t)]
      + if t.Match? then At(dl, DistSymbol(t)) + DistExtraBits()[DistSymbol(t)] else 0
  {
    hide LengthCode, DistCode, LengthExtra, DistExtra, LengthXBits, DistXBits, CodeWord, Bits;
    if t.Match? { LitExtraAt(LengthCode(t.length - 3)); }
  }

  /** compress_block sends each symbol as often as it was counted. */
  lemma {:induction false} TokensSize(tokens: seq<Token>, ll: seq<nat>, dl: seq<nat>)
    requires forall i | 0 <= i < |tokens| :: Good(tokens[i])
    ensures |BodyBits(tokens, ll, dl)| == Weighted(LitFreq(tokens), Plus(ll, LitExtra()), 286)
            + Weighted(DistFreq(tokens), Plus(dl, DistExtraBits()), 30)
  {
    hide TokenBits, LitExtra, DistExtraBits, Good, LitSymbol, DistSymbol, Weighted;
    if tokens == [] {
      NothingSize(ll, dl);
    } else {
      var n := |tokens| - 1;
      var t := tokens[n];
      TokensSize(tokens[..n], ll, dl);
      TokenSize(t, ll, dl);
      WeightedMore(LitFreq(tokens[..n]), Plus(ll, LitExtra()), 286, LitSymbol(t), 1);
      if t.Match? { WeightedMore(DistFreq(tokens[..n]), Plus(dl, DistExtraBits()), 30, DistSymbol(t), 1); }
    }
  }

  lemma NothingSize(ll: seq<nat>, dl: seq<nat>)
    ensures |BodyBits([], ll, dl)| == Weighted(LitFreq([]), Plus(ll, LitExtra()), 286)
            + Weighted(DistFreq([]), Plus(dl, DistExtraBits()), 30)
  {
    var zeros := seq(286, _ => 0);
    var c := Plus(ll, LitExtra());
    WeightedZero(zeros, c, 286);
    WeightedMore(zeros, c, 286, END_BLOCK, 1);
    assert zeros[END_BLOCK := 1] == LitFreq([]);
    assert LitExtra()[END_BLOCK] == 0;
    WeightedZero(DistFreq([]), Plus(dl, DistExtraBits()), 30);
  }

  // -- The header -----------------------------------------------------------------------------------------------

  lemma RunSize(r: R.Run, bl: seq<nat>)
    requires R.Sendable(r)
    ensures R.Symbol(r) < BL_CODES && |RunBits(r, bl)| == At(bl, R.Symbol(r)) + RunExtra()[R.Symbol(r)]
  {
    hide CodeWord, Bits;
  }

  lemma {:induction false} RunsSize(runs: seq<R.Run>, bl: seq<nat>)
    requires forall r | r in runs :: R.Sendable(r)
    ensures |RunsBits(runs, bl)| == Weighted(RunFreq(runs), Plus(bl, RunExtra()), BL_CODES)
  {
    hide RunBits, RunExtra, R.Sendable, R.Symbol, Weighted;
    if runs == [] {
      WeightedZero(RunFreq([]), Plus(bl, RunExtra()), BL_CODES);
    } else {
      var n := |runs| - 1;
      RunsSize(runs[..n], bl);
      RunSize(runs[n], bl);
      WeightedMore(RunFreq(runs[..n]), Plus(bl, RunExtra()), BL_CODES, R.Symbol(runs[n]), 1);
    }
  }

  lemma {:induction false} LenLensSize(bl: seq<nat>, n: nat)
    ensures |LenLensBits(bl, n)| == 3 * n
  {
    if n > 0 { LenLensSize(bl, n - 1); }
  }

  /** send_all_trees sends 14 bits of counts, 3 bits a code length, and the run-length coding. */
  lemma HeaderSize(ll: seq<nat>, dl: seq<nat>, bl: seq<nat>, blcodes: nat)
    requires forall r | r in R.RunsOf(ll) + R.RunsOf(dl) :: R.Sendable(r)
    ensures |HeaderBits(ll, dl, bl, blcodes)|
      == 5 + 5 + 4 + 3 * blcodes + Weighted(RunFreq(R.RunsOf(ll) + R.RunsOf(dl)), Plus(bl, RunExtra()), BL_CODES)
  {
    hide RunsBits, R.RunsOf, R.Sendable, Weighted, RunExtra, Bits;
    LenLensSize(bl, blcodes);
    RunsConcat(R.RunsOf(ll), R.RunsOf(dl), bl);
    RunsSize(R.RunsOf(ll) + R.RunsOf(dl), bl);
  }

  // -- What the counts are for ----------------------------------------------------------------------------------

  /** The number of symbols counted. */
  function Total(f: seq<nat>): nat { if f == [] then 0 else Total(f[..|f| - 1]) + f[|f| - 1] }

  lemma {:induction false} TotalMore(f: seq<nat>, x: nat)
    requires x < |f|
    ensures Total(f[x := f[x] + 1]) == Total(f) + 1
  {
    var n := |f| - 1;
    if x == n {
      assert f[x := f[x] + 1][..n] == f[..n];
    } else {
      assert f[x := f[x] + 1][..n] == f[..n][x := f[x] + 1];
      TotalMore(f[..n], x);
    }
  }

  lemma {:induction false} TotalZero(f: seq<nat>)
    requires forall x | 0 <= x < |f| :: f[x] == 0
    ensures Total(f) == 0
  {
    if f != [] { TotalZero(f[..|f| - 1]); }
  }

  lemma {:induction false} LitTotal(tokens: seq<Token>)
    ensures Total(LitFreq(tokens)) <= |tokens| + 1
  {
    hide LitSymbol;
    if tokens == [] {
      var zeros := seq(286, _ => 0);
      TotalZero(zeros);
      TotalMore(zeros, END_BLOCK);
      assert zeros[END_BLOCK := 1] == LitFreq([]);
    } else {
      var f, x := LitFreq(tokens[..|tokens| - 1]), LitSymbol(tokens[|tokens| - 1]);
      LitTotal(tokens[..|tokens| - 1]);
      if x < 286 { TotalMore(f, x); }
    }
  }

  lemma {:induction false} DistTotal(tokens: seq<Token>)
    ensures Total(DistFreq(tokens)) <= |tokens|
  {
    hide DistSymbol;
    if tokens == [] {
      TotalZero(DistFreq([]));
    } else {
      var f, t := DistFreq(tokens[..|tokens| - 1]), tokens[|tokens| - 1];
      DistTotal(tokens[..|tokens| - 1]);
      if t.Match? && DistSymbol(t) < 30 { TotalMore(f, DistSymbol(t)); }
    }
  }

  lemma {:induction false} RunTotal(runs: seq<R.Run>)
    ensures Total(RunFreq(runs)) <= |runs|
  {
    hide R.Symbol;
    if runs == [] {
      TotalZero(RunFreq([]));
    } else {
      var f, x := RunFreq(runs[..|runs| - 1]), R.Symbol(runs[|runs| - 1]);
      RunTotal(runs[..|runs| - 1]);
      if x < BL_CODES { TotalMore(f, x); }
    }
  }

  /** Every symbol that is sent was counted. */
  lemma {:induction false} LitCounted(tokens: seq<Token>, i: nat, x: nat)
    requires i < |tokens| && x == LitSymbol(tokens[i]) < 286
    ensures LitFreq(tokens)[x] > 0
    decreases |tokens|
  {
    hide LitSymbol;
    var n := |tokens| - 1;
    if i < n { LitCounted(tokens[..n], i, x); }
  }

  lemma {:induction false} DistCounted(tokens: seq<Token>, i: nat, x: nat)
    requires i < |tokens| && tokens[i].Match? && x == DistSymbol(tokens[i]) < 30
    ensures DistFreq(tokens)[x] > 0
    decreases |tokens|
  {
    hide DistSymbol;
    var n := |tokens| - 1;
    if i < n { DistCounted(tokens[..n], i, x); }
  }

  lemma GoodSymbols(t: Token)
    requires Good(t)
    ensures LitSymbol(t) < 286 && DistSymbol(t) < 30
  {
    hide LengthCode, DistCode;
  }

  lemma {:induction false} EndCounted(tokens: seq<Token>)
    ensures LitFreq(tokens)[END_BLOCK] > 0
  {
    hide LitSymbol;
    if tokens != [] { EndCounted(tokens[..|tokens| - 1]); }
  }

  lemma {:induction false} RunsCounted(runs: seq<R.Run>, r: R.Run)
    requires r in runs && R.Sendable(r)
    ensures R.Symbol(r) < BL_CODES && RunFreq(runs)[R.Symbol(r)] > 0
  {
    assert R.Symbol(r) < BL_CODES;
    hide R.Symbol, R.Sendable;
    var n := |runs| - 1;
    if r != runs[n] { RunsCounted(runs[..n], r); }
  }

  /** scan_tree counts the runs. */
  lemma {:induction false} RunFreqIs(runs: seq<R.Run>, v: nat)
    requires v < BL_CODES
    ensures RunFreq(runs)[v] == R.Occurrences(runs, v)
  {
    hide R.Symbol;
    if runs != [] {
      var n := |runs| - 1;
      RunFreqIs(runs[..n], v);
      R.OccurrencesConcat(runs[..n], [runs[n]], v);
      assert runs[..n] + [runs[n]] == runs && [runs[n]][1..] == [];
    }
  }
}
