/** A block with dynamic trees from the counted symbols to the bits: what _tr_flush_block of trees.c does for it. */
module DynamicBlock {
  import opened Wrappers
  import opened Kraft
  import opened GenCodes
  import opened BlockTables
  import opened BlockCode
  import opened BlockHeader
  import opened BlockSize
  import opened TreeWriter
  import opened BlockWriter
  import opened TreeCode
  import opened HuffmanTree
  import TrimCode
  import CanonicalCode
  import R = RunLengths
  import W = BitWriter

  // -- The three trees ------------------------------------------------------------------------------------------

  function LiteralStatic(): Static {
    Static(Some(seq<nat>(286, (x: nat) => FixedLength(x))), seq<nat>(L_CODES, (c: nat) => LengthXBits(c)), LITERALS + 1,
           286, 15)
  }

  function DistStatic(): Static {
    Static(Some(seq<nat>(D_CODES, _ => 5)), seq<nat>(D_CODES, (c: nat) => DistXBits(c)), 0, D_CODES, 15)
  }

  function LengthStatic(): Static {
    Static(None, seq<nat>(BL_CODES, (x: nat) => if x == 16 then 2 else if x == 17 then 3 else if x == 18 then 7 else 0),
           0, BL_CODES, 7)
  }

  lemma StaticsGood()
    ensures GoodStatic(LiteralStatic()) && GoodStatic(DistStatic()) && GoodStatic(LengthStatic())
    ensures Extras(LiteralStatic(), 286) == LitExtra() && Extras(DistStatic(), 30) == DistExtraBits()
            && Extras(LengthStatic(), BL_CODES) == RunExtra()
  {
    SmallPowers();
    Pow2Monotone(13, 15);
    hide Pow2;
    forall x: nat | x < 286 ensures Extras(LiteralStatic(), 286)[x] == LitExtra()[x] { LiteralXBits(x); }
    hide LengthXBits;
  }

  lemma LiteralXBits(x: nat)
    requires x < 286
    ensures XBits(LiteralStatic(), x) == SymbolExtra(x)
  {
    hide LengthXBits;
  }

  /** Three trees on separate arrays. */
  ghost predicate ThreeTrees(s: Deflate, lt: Tree, dt: Tree, bt: Tree) {
    && Separate(s, lt) && Separate(s, dt) && Separate(s, bt) && lt != dt && lt != bt && dt != bt
    && lt.stat == LiteralStatic() && dt.stat == DistStatic() && bt.stat == LengthStatic()
    && lt.fc != dt.fc && lt.fc != dt.dl && lt.dl != dt.fc && lt.dl != dt.dl
    && lt.fc != bt.fc && lt.fc != bt.dl && lt.dl != bt.fc && lt.dl != bt.dl
    && dt.fc != bt.fc && dt.fc != bt.dl && dt.dl != bt.fc && dt.dl != bt.dl
  }

  lemma TreeSizes(s: Deflate, lt: Tree, dt: Tree, bt: Tree)
    requires ThreeTrees(s, lt, dt, bt)
    ensures lt.stat.elems == 286 && dt.stat.elems == 30 && bt.stat.elems == BL_CODES && bt.stat.maxLength == 7
    ensures 286 < lt.fc.Length == lt.dl.Length && 30 < dt.fc.Length == dt.dl.Length
            && BL_CODES < bt.fc.Length == bt.dl.Length
    ensures lt.stat.maxLength == dt.stat.maxLength == 15
  {
  }

  // -- build_bl_tree ----------------------------------------------------------------------------------------------

  /** The guard does not disturb the code. */
  lemma HoldsGuarded(fc: seq<nat>, dl: seq<nat>, lens: seq<nat>)
    requires Holds(fc, dl, lens) && |lens| < |dl|
    ensures Holds(fc, dl[|lens| := R.GUARD], lens) && Guarded(dl[|lens| := R.GUARD], lens)
  {
    hide Coded;
    assert dl[|lens| := R.GUARD][..|lens|] == dl[..|lens|];
  }

  /** The scan of both trees. */
  method ScanBoth(lt: Tree, dt: Tree, bt: Tree, ghost ll: seq<nat>, ghost dl: seq<nat>)
    requires lt.fc != bt.fc && lt.dl != bt.fc && dt.fc != bt.fc && dt.dl != bt.fc && lt.dl != dt.dl && lt.dl != dt.fc
             && lt.dl != lt.fc
    requires dt.dl != lt.fc && dt.dl != dt.fc && 19 <= bt.fc.Length
    requires 0 <= lt.maxCode && 0 <= dt.maxCode && |ll| == lt.maxCode + 1 < lt.dl.Length
             && |dl| == dt.maxCode + 1 < dt.dl.Length
    requires Holds(lt.fc[..], lt.dl[..], ll) && Holds(dt.fc[..], dt.dl[..], dl) && forall x | 0 <= x < 19 ::
             bt.fc[x] == 0
    modifies lt.dl, dt.dl, bt.fc
    ensures Holds(lt.fc[..], lt.dl[..], ll) && Holds(dt.fc[..], dt.dl[..], dl) && Guarded(lt.dl[..], ll)
            && Guarded(dt.dl[..], dl)
    ensures bt.fc[..19] == RunFreq(R.RunsOf(ll) + R.RunsOf(dl))
  {
    HoldsLens(lt.fc[..], lt.dl[..], ll);
    HoldsLens(dt.fc[..], dt.dl[..], dl);
    HoldsShort(lt.fc[..], lt.dl[..], ll);
    HoldsShort(dt.fc[..], dt.dl[..], dl);
    HoldsGuarded(lt.fc[..], lt.dl[..], ll);
    HoldsGuarded(dt.fc[..], dt.dl[..], dl);
    hide Holds, Guarded, R.RunsOf, R.Occurrences;
    ScanTree(lt, bt, lt.maxCode, ll);
    ScanTree(dt, bt, dt.maxCode, dl);
    forall v | 0 <= v < 19 ensures bt.fc[..19][v] == RunFreq(R.RunsOf(ll) + R.RunsOf(dl))[v] {
      RunFreqIs(R.RunsOf(ll) + R.RunsOf(dl), v);
      R.OccurrencesConcat(R.RunsOf(ll), R.RunsOf(dl), v);
    }
  }

  lemma HoldsShort(fc: seq<nat>, dl: seq<nat>, lens: seq<nat>)
    requires Holds(fc, dl, lens)
    ensures forall x | 0 <= x < |lens| :: lens[x] <= 15
  {
    hide Coded;
  }

  /** The code length code has a word for a length that is not 0, and not for repeats alone. */
  ghost predicate SendsLength(bl: seq<nat>) { exists v: nat :: 0 < v <= 15 && v < |bl| && bl[v] > 0 }

  lemma LengthInOrder(bl: seq<nat>)
    requires |bl| == BL_CODES && SendsLength(bl)
    ensures exists i :: 3 <= i < BL_CODES && LengthAt(bl, i) > 0
  {
    OrderPermutes();
    var v: nat :| 0 < v <= 15 && v < |bl| && bl[v] > 0;
    assert Ordered(v);
    var i :| 0 <= i < BL_CODES && Order(i) == v;
    assert i >= 3;
    assert LengthAt(bl, i) == bl[v];
  }

  /** The loop that finds the last code length to send: at least the four that the format requires. */
  method LastLength(bt: Tree, ghost bl: seq<nat>) returns (blcodes: nat)
    requires |bl| == BL_CODES <= bt.dl.Length && bl == bt.dl[..BL_CODES] && SendsLength(bl)
    ensures 4 <= blcodes <= BL_CODES && forall i | blcodes <= i < BL_CODES :: LengthAt(bl, i) == 0
  {
    OrderPermutes();
    LengthInOrder(bl);
    hide Order;
    var max := BL_CODES - 1;
    while max >= 3
      invariant 2 <= max < BL_CODES && forall i | max < i < BL_CODES :: LengthAt(bl, i) == 0
    {
      assert LengthAt(bl, max) == bl[Order(max)];
      if bt.dl[Order(max)] != 0 {
        break;
      }
      max := max - 1;
    }
    blcodes := max + 1;
  }

  lemma {:induction false} OnlyZeros(have: seq<nat>, runs: seq<R.Run>, limit: nat)
    requires R.Expand(have, runs, limit).Some? && (forall x | x in have :: x == 0)
    requires forall r | r in runs :: r.Length? ==> r.value == 0
    ensures forall x | x in R.Expand(have, runs, limit).value :: x == 0
    decreases |runs|
  {
    if runs != [] {
      var more := R.ExpandOne(have, runs[0], limit).value;
      assert runs[0] in runs;
      assert have != [] ==> have[|have| - 1] in have;
      forall i | 0 <= i < |more| ensures more[i] == 0 {
        if i < |have| { assert more[i] == have[i] && have[i] in have; }
      }
      OnlyZeros(more, runs[1..], limit);
    }
  }

  /** Some length that is not 0 is sent as such. */
  lemma SomeLength(ll: seq<nat>, bl: seq<nat>)
    requires (forall x | 0 <= x < |ll| :: ll[x] <= 15) && END_BLOCK < |ll| && ll[END_BLOCK] > 0
             && CanSend(R.RunsOf(ll), bl)
    ensures SendsLength(bl)
  {
    R.RunsRoundTrip([], ll, |ll|);
    assert [] + ll == ll && ll[END_BLOCK] in ll;
    hide R.Expand, R.RunsOf;
    if forall r | r in R.RunsOf(ll) :: r.Length? ==> r.value == 0 {
      OnlyZeros([], R.RunsOf(ll), |ll|);
    } else {
      var r :| r in R.RunsOf(ll) && r.Length? && r.value != 0;
      assert R.Sendable(r);
    }
  }

  /** Every run has a word, for it was counted. */
  lemma CountedRuns(runs: seq<R.Run>, bl: seq<nat>, max: nat)
    requires CodeFor(RunFreq(runs), bl, max) && forall r | r in runs :: R.Sendable(r)
    ensures CanSend(runs, bl)
  {
    hide FullLens, R.Sendable, R.Symbol, RunFreq;
    forall r | r in runs ensures CanonicalUse(bl, r) { RunsCounted(runs, r); }
  }

  ghost predicate CanonicalUse(bl: seq<nat>, r: R.Run) { R.Sendable(r) && CanonicalCode.Uses(bl, R.Symbol(r)) }

  lemma RunsFit(lens: seq<nat>)
    requires forall x | 0 <= x < |lens| :: lens[x] <= 15
    ensures |R.RunsOf(lens)| <= |lens| && forall r | r in R.RunsOf(lens) :: R.Sendable(r)
  {
    hide R.RunsOf;
    R.RunsRoundTrip([], lens, |lens|);
    ExpandLonger([], R.RunsOf(lens), |lens|);
    assert [] + lens == lens;
  }

  /** The code of the code lengths, and what it takes to send the header. */
  ghost predicate BlReady(ll: seq<nat>, dl: seq<nat>, bl: seq<nat>) {
    && |bl| == BL_CODES && FullLens(bl) && (forall x | 0 <= x < |bl| :: bl[x] < 8)
    && CanSend(R.RunsOf(ll), bl) && CanSend(R.RunsOf(dl), bl)
  }

  lemma BlIsReady(ll: seq<nat>, dl: seq<nat>, full: seq<nat>, m: nat)
    requires |full| == BL_CODES && TrimCode.Padded(full, m) && FullLens(full)
             && (forall x | 0 <= x < |full| :: full[x] <= 7)
    requires CodeFor(RunFreq(R.RunsOf(ll) + R.RunsOf(dl)), full[..m], 7)
    requires (forall x | 0 <= x < |ll| :: ll[x] <= 15) && (forall x | 0 <= x < |dl| :: dl[x] <= 15)
    ensures BlReady(ll, dl, full)
  {
    RunsFit(ll);
    RunsFit(dl);
    hide FullLens, R.RunsOf, R.Sendable, RunFreq;
    assert CodeFor(RunFreq(R.RunsOf(ll) + R.RunsOf(dl)), full, 7);
    CountedRuns(R.RunsOf(ll) + R.RunsOf(dl), full, 7);
  }

  method BuildBl(s: Deflate, bt: Tree, ghost ll: seq<nat>, ghost dl: seq<nat>) returns (ghost bl: seq<nat>)
    requires Separate(s, bt) && bt.stat == LengthStatic() && BL_CODES < bt.fc.Length
             && bt.fc[..19] == RunFreq(R.RunsOf(ll) + R.RunsOf(dl))
    requires (forall x | 0 <= x < |ll| :: ll[x] <= 15) && (forall x | 0 <= x < |dl| :: dl[x] <= 15)
             && |ll| + |dl| < 0xffff
    modifies s, s.heap, s.depth, s.blCount, bt.fc, bt.dl, bt`maxCode
    ensures Holds(bt.fc[..], bt.dl[..], bl) && BlReady(ll, dl, bl)
    ensures s.optLen == old(s.optLen) + Weighted(RunFreq(R.RunsOf(ll) + R.RunsOf(dl)), Plus(bl, RunExtra()), BL_CODES)
    ensures s.staticLen == old(s.staticLen)
  {
    RunsFit(ll);
    RunsFit(dl);
    StaticsGood();
    ghost var f := RunFreq(R.RunsOf(ll) + R.RunsOf(dl));
    RunTotal(R.RunsOf(ll) + R.RunsOf(dl));
    assert bt.stat.elems == BL_CODES && bt.stat.maxLength == 7 && bt.stat.lens.None? && StaticBitsOf(bt.stat, f) == 0;
    hide R.RunsOf, RunFreq, Total, Separate, Holds, CodeFor, Weighted, Plus, RunExtra, FullLens, R.Sendable,
         StaticBitsOf, LengthStatic, BlReady;
    ghost var lens;
    bl, lens := BuildCode(s, bt, f);
    BlIsReady(ll, dl, bl, bt.maxCode + 1);
    PlusTrim(bl, bt.maxCode + 1, RunExtra());
  }

  method BuildBlTree(s: Deflate, lt: Tree, dt: Tree, bt: Tree, ghost ll: seq<nat>, ghost dl: seq<nat>)
    returns (blcodes: nat, ghost bl: seq<nat>)
    requires ThreeTrees(s, lt, dt, bt) && 0 <= lt.maxCode && 0 <= dt.maxCode && forall x | 0 <= x < 19 :: bt.fc[x] == 0
    requires |ll| == lt.maxCode + 1 <= 286 && |dl| == dt.maxCode + 1 <= 30 && CanonicalCode.Uses(ll, END_BLOCK)
    requires Holds(lt.fc[..], lt.dl[..], ll) && Holds(dt.fc[..], dt.dl[..], dl)
    modifies s, s.heap, s.depth, s.blCount, lt.dl, dt.dl, bt.fc, bt.dl, bt`maxCode
    ensures Holds(lt.fc[..], lt.dl[..], ll) && Holds(dt.fc[..], dt.dl[..], dl) && Guarded(lt.dl[..], ll)
            && Guarded(dt.dl[..], dl)
    ensures Holds(bt.fc[..], bt.dl[..], bl) && BlReady(ll, dl, bl)
    ensures 4 <= blcodes <= BL_CODES && forall i | blcodes <= i < BL_CODES :: LengthAt(bl, i) == 0
    ensures s.optLen == old(s.optLen) + |HeaderBits(ll, dl, bl, blcodes)| && s.staticLen == old(s.staticLen)
  {
    TreeSizes(s, lt, dt, bt);
    HoldsShort(lt.fc[..], lt.dl[..], ll);
    HoldsShort(dt.fc[..], dt.dl[..], dl);
    RunsFit(ll);
    RunsFit(dl);
    hide R.RunsOf, RunFreq, Weighted, Plus, RunExtra, FullLens, R.Sendable, Holds, Guarded, LengthAt, HeaderBits,
         GoodStatic, LiteralStatic, DistStatic, LengthStatic;
    ScanBoth(lt, dt, bt, ll, dl);
    bl := BuildBl(s, bt, ll, dl);
    SomeLength(ll, bl);
    HoldsLens(bt.fc[..], bt.dl[..], bl);
    blcodes := LastLength(bt, bl);
    s.optLen := s.optLen + 3 * blcodes + 5 + 5 + 4;
    HeaderSize(ll, dl, bl, blcodes);
  }

  // -- The whole block --------------------------------------------------------------------------------------------

  /** The symbols of every token have words. */
  lemma TokensKnown(tokens: seq<Token>, ll: seq<nat>, dl: seq<nat>)
    requires CodeFor(LitFreq(tokens), ll, 15) && CodeFor(DistFreq(tokens), dl, 15) && forall i | 0 <= i < |tokens| ::
             Good(tokens[i])
    ensures (forall i | 0 <= i < |tokens| :: Known(tokens[i], ll, dl)) && CanonicalCode.Uses(ll, END_BLOCK)
            && |ll| >= 257
  {
    EndCounted(tokens);
    hide FullLens, LitSymbol, DistSymbol, LitFreq, DistFreq;
    forall i | 0 <= i < |tokens| ensures Known(tokens[i], ll, dl) {
      GoodSymbols(tokens[i]);
      hide Good;
      LitCounted(tokens, i, LitSymbol(tokens[i]));
      if tokens[i].Match? { DistCounted(tokens, i, DistSymbol(tokens[i])); }
    }
  }

  lemma CodeFacts(f: seq<nat>, lens: seq<nat>, max: nat)
    requires CodeFor(f, lens, max)
    ensures 0 < |lens| <= |f| && FullLens(lens)
  {
    hide FullLens;
  }

  /** Everything about the trees that reading the block relies on. */
  ghost predicate BlockReady(tokens: seq<Token>, ll: seq<nat>, dl: seq<nat>, bl: seq<nat>, blcodes: nat) {
    && Transmittable(ll, dl, bl, blcodes) && (forall i | 0 <= i < |tokens| :: Known(tokens[i], ll, dl))
    && CanonicalCode.Uses(ll, END_BLOCK) && BlReady(ll, dl, bl) && 257 <= |ll| <= 286 && 1 <= |dl| <= 30
    && 4 <= blcodes <= BL_CODES
  }

  lemma BlFacts(ll: seq<nat>, dl: seq<nat>, bl: seq<nat>)
    requires BlReady(ll, dl, bl)
    ensures |bl| == BL_CODES && FullLens(bl) && (forall x | 0 <= x < |bl| :: bl[x] < 8)
    ensures forall r | r in R.RunsOf(ll) + R.RunsOf(dl) :: CanonicalCode.Uses(bl, R.Symbol(r))
  {
    hide FullLens, R.RunsOf, R.Symbol, R.Sendable, CanonicalCode.Uses;
  }

  lemma TransmittableIs(ll: seq<nat>, dl: seq<nat>, bl: seq<nat>, blcodes: nat)
    requires BlReady(ll, dl, bl) && FullLens(ll) && FullLens(dl) && 257 <= |ll| <= 286 && 1 <= |dl| <= 30
             && CanonicalCode.Uses(ll, END_BLOCK)
    requires 4 <= blcodes <= BL_CODES && forall i | blcodes <= i < BL_CODES :: LengthAt(bl, i) == 0
    ensures Transmittable(ll, dl, bl, blcodes)
  {
    hide FullLens, R.RunsOf, R.Sendable, R.Symbol, LengthAt, CanonicalCode.Uses, BlReady;
    BlFacts(ll, dl, bl);
  }

  lemma CanTransmit(tokens: seq<Token>, ll: seq<nat>, dl: seq<nat>, bl: seq<nat>, blcodes: nat)
    requires CodeFor(LitFreq(tokens), ll, 15) && CodeFor(DistFreq(tokens), dl, 15) && BlReady(ll, dl, bl)
    requires forall i | 0 <= i < |tokens| :: Good(tokens[i])
    requires 4 <= blcodes <= BL_CODES && forall i | blcodes <= i < BL_CODES :: LengthAt(bl, i) == 0
    ensures BlockReady(tokens, ll, dl, bl, blcodes)
  {
    hide CodeFor, FullLens, LitFreq, DistFreq, Known, LengthAt, Good, BlReady, CanonicalCode.Uses, Transmittable;
    TokensKnown(tokens, ll, dl);
    CodeFacts(LitFreq(tokens), ll, 15);
    CodeFacts(DistFreq(tokens), dl, 15);
    TransmittableIs(ll, dl, bl, blcodes);
  }

  lemma ReadyReads(tokens: seq<Token>, ll: seq<nat>, dl: seq<nat>, bl: seq<nat>, blcodes: nat)
    requires BlockReady(tokens, ll, dl, bl, blcodes)
    ensures forall rest: seq<bool> ::
            Reads(HeaderBits(ll, dl, bl, blcodes) + BodyBits(tokens, ll, dl) + rest, tokens, ll, dl, rest)
  {
    hide Transmittable, Known, BlReady, HeaderBits, BodyBits, ReadBlock, ReadHeader;
    forall rest: seq<bool>
      ensures Reads(HeaderBits(ll, dl, bl, blcodes) + BodyBits(tokens, ll, dl) + rest, tokens, ll, dl, rest)
    {
      BlockRoundTrip(tokens, ll, dl, bl, blcodes, rest);
      HeaderRoundTrip(ll, dl, bl, blcodes, BodyBits(tokens, ll, dl) + rest);
      assert HeaderBits(ll, dl, bl, blcodes) + BodyBits(tokens, ll, dl) + rest
          == HeaderBits(ll, dl, bl, blcodes) + (BodyBits(tokens, ll, dl) + rest);
    }
  }

  /** The stream starts with a block of these tokens, in the given codes. */
  ghost predicate Reads(s: seq<bool>, tokens: seq<Token>, ll: seq<nat>, dl: seq<nat>, rest: seq<bool>) {
    && ReadBlock(s) == Some((tokens, rest))
    && ReadHeader(s).Some? && ReadHeader(s).value.0 == Trees(ll, dl)
  }

  /** The body takes the bits counted for both trees. */
  lemma BodySize(tokens: seq<Token>, ll: seq<nat>, dl: seq<nat>)
    requires forall i | 0 <= i < |tokens| :: Good(tokens[i])
    ensures |BodyBits(tokens, ll, dl)|
      == Weighted(LitFreq(tokens), Plus(ll, Extras(LiteralStatic(), 286)), 286)
         + Weighted(DistFreq(tokens), Plus(dl, Extras(DistStatic(), 30)), 30)
  {
    hide LitFreq, DistFreq, Weighted, Plus, BodyBits, LitExtra, DistExtraBits, Good, LiteralStatic, DistStatic,
         GoodStatic, RunExtra, LengthStatic;
    StaticsGood();
    TokensSize(tokens, ll, dl);
  }

  function StaticLL(): seq<nat> { StaticLens(LiteralStatic(), 286) }

  function StaticDL(): seq<nat> { StaticLens(DistStatic(), 30) }

  lemma StaticSize(tokens: seq<Token>)
    requires forall i | 0 <= i < |tokens| :: Good(tokens[i])
    ensures StaticBitsOf(LiteralStatic(), LitFreq(tokens)) + StaticBitsOf(DistStatic(), DistFreq(tokens))
            == |BodyBits(tokens, StaticLL(), StaticDL())|
  {
    hide LitFreq, DistFreq, Weighted, Plus, BodyBits, Good, Extras, StaticLens;
    BodySize(tokens, StaticLL(), StaticDL());
  }

  /** build_tree for the literals and the distances. */
  method BuildBoth(s: Deflate, lt: Tree, dt: Tree, bt: Tree, ghost tokens: seq<Token>)
      returns (ghost ll: seq<nat>, ghost dl: seq<nat>)
    requires ThreeTrees(s, lt, dt, bt) && (forall i | 0 <= i < |tokens| :: Good(tokens[i])) && |tokens| < 0xfffe
    requires lt.fc[..286] == LitFreq(tokens) && dt.fc[..30] == DistFreq(tokens)
    modifies s, s.heap, s.depth, s.blCount, lt.fc, lt.dl, lt`maxCode, dt.fc, dt.dl, dt`maxCode
    ensures CodeFor(LitFreq(tokens), ll, 15) && CodeFor(DistFreq(tokens), dl, 15)
    ensures 0 <= lt.maxCode && 0 <= dt.maxCode && |ll| == lt.maxCode + 1 <= 286 && |dl| == dt.maxCode + 1 <= 30
    ensures Holds(lt.fc[..], lt.dl[..], ll) && Holds(dt.fc[..], dt.dl[..], dl)
    ensures s.optLen == old(s.optLen) + |BodyBits(tokens, ll, dl)|
    ensures s.staticLen == old(s.staticLen) + |BodyBits(tokens, StaticLL(), StaticDL())|
  {
    hide LitFreq, DistFreq, Total, Holds, CodeFor, Weighted, Plus, FullLens, StaticBitsOf, BodyBits, LiteralStatic,
         DistStatic, LengthStatic, GoodStatic, Good;
    hide StaticLL, StaticDL, Extras;
    TreeSizes(s, lt, dt, bt);
    LitTotal(tokens);
    BlockSize.DistTotal(tokens);
    StaticSize(tokens);
    ghost var full;
    full, ll := BuildCode(s, lt, LitFreq(tokens));
    full, dl := BuildCode(s, dt, DistFreq(tokens));
    BodySize(tokens, ll, dl);
  }

  /** The three trees of a block. */
  method BuildTrees(s: Deflate, lt: Tree, dt: Tree, bt: Tree, ghost tokens: seq<Token>)
    returns (blcodes: nat, ghost ll: seq<nat>, ghost dl: seq<nat>, ghost bl: seq<nat>)
    requires ThreeTrees(s, lt, dt, bt) && (forall i | 0 <= i < |tokens| :: Good(tokens[i])) && |tokens| < 0xfffe
    requires lt.fc[..286] == LitFreq(tokens) && dt.fc[..30] == DistFreq(tokens) && forall x | 0 <= x < 19 ::
             bt.fc[x] == 0
    modifies s, s.heap, s.depth, s.blCount, lt.fc, lt.dl, lt`maxCode, dt.fc, dt.dl, dt`maxCode, bt.fc, bt.dl, bt`maxCode
    ensures BlockReady(tokens, ll, dl, bl, blcodes)
    ensures Holds(lt.fc[..], lt.dl[..], ll) && Holds(dt.fc[..], dt.dl[..], dl) && Holds(bt.fc[..], bt.dl[..], bl)
    ensures Guarded(lt.dl[..], ll) && Guarded(dt.dl[..], dl) && |ll| == lt.maxCode + 1 && |dl| == dt.maxCode + 1
    ensures s.optLen == old(s.optLen) + |HeaderBits(ll, dl, bl, blcodes)| + |BodyBits(tokens, ll, dl)|
    ensures s.staticLen == old(s.staticLen) + |BodyBits(tokens, StaticLL(), StaticDL())|
  {
    hide Holds, CodeFor, Guarded, BlReady, BodyBits, HeaderBits, Good, Known, LengthAt, BlockReady;
    hide LiteralStatic, DistStatic, LengthStatic, GoodStatic, StaticLL, StaticDL, LitFreq, DistFreq;
    TreeSizes(s, lt, dt, bt);
    ll, dl := BuildBoth(s, lt, dt, bt, tokens);
    TokensKnown(tokens, ll, dl);
    blcodes, bl := BuildBlTree(s, lt, dt, bt, ll, dl);
    CanTransmit(tokens, ll, dl, bl, blcodes);
  }

  lemma ReadyFacts(tokens: seq<Token>, ll: seq<nat>, dl: seq<nat>, bl: seq<nat>, blcodes: nat)
    requires BlockReady(tokens, ll, dl, bl, blcodes)
    ensures 257 <= |ll| <= 286 && 1 <= |dl| <= 30 && 4 <= blcodes <= BL_CODES && CanonicalCode.Uses(ll, END_BLOCK)
    ensures |bl| == BL_CODES && (forall x | 0 <= x < |bl| :: bl[x] < 8) && CanSend(R.RunsOf(ll), bl)
            && CanSend(R.RunsOf(dl), bl)
    ensures forall i | 0 <= i < |tokens| :: Known(tokens[i], ll, dl)
  {
    hide Transmittable, FullLens, CanSend, R.RunsOf, Known;
  }

  /** The dynamic block: what is sent reads back as the tokens. */
  method SendDynamic(lt: Tree, dt: Tree, bt: Tree, w: W.Writer, tb: Tables, dBuf: array<nat>, lBuf: array<nat>,
                     lastLit: nat, blcodes: nat,
                     ghost tokens: seq<Token>, ghost ll: seq<nat>, ghost dl: seq<nat>, ghost bl: seq<nat>)
    returns (ghost bits: seq<bool>)
    requires w.Valid() && tb.Valid() && BlockReady(tokens, ll, dl, bl, blcodes) && |ll| == lt.maxCode + 1
             && |dl| == dt.maxCode + 1
    requires lastLit <= dBuf.Length == lBuf.Length && tokens == AllTallied(dBuf[..], lBuf[..], lastLit)
    requires Holds(lt.fc[..], lt.dl[..], ll) && Holds(dt.fc[..], dt.dl[..], dl) && Holds(bt.fc[..], bt.dl[..], bl)
    requires Guarded(lt.dl[..], ll) && Guarded(dt.dl[..], dl)
    modifies w
    ensures w.Valid() && w.Stream() == old(w.Stream()) + bits
    ensures forall rest: seq<bool> :: Reads(bits + rest, tokens, ll, dl, rest)
    ensures |bits| == |HeaderBits(ll, dl, bl, blcodes)| + |BodyBits(tokens, ll, dl)|
  {
    hide Holds, Guarded, W.Writer.Stream, W.Writer.Valid, Tables.Valid, BodyBits, HeaderBits, Reads, Good, Known,
         BlockReady, CanSend, R.RunsOf;
    ghost var before := w.Stream();
    ReadyFacts(tokens, ll, dl, bl, blcodes);
    ReadyReads(tokens, ll, dl, bl, blcodes);
    SendAllTrees(w, lt, dt, bt, lt.maxCode + 1, dt.maxCode + 1, blcodes, ll, dl, bl);
    CompressBlock(w, lt, dt, tb, dBuf, lBuf, lastLit, tokens, ll, dl);
    bits := HeaderBits(ll, dl, bl, blcodes) + BodyBits(tokens, ll, dl);
    assert before + HeaderBits(ll, dl, bl, blcodes) + BodyBits(tokens, ll, dl) == before + bits;
  }
}
