/** trees.c as deflate.c uses it: symbols collected one at a time, and sent block after block. */
module TokenCoder {
  import opened Kraft
  import opened GenCodes
  import opened BlockCode
  import opened BlockWriter
  import opened BlockSize
  import opened TreeWriter
  import opened HuffmanTree
  import opened DynamicBlock
  import opened StreamRead
  import opened FlushBlock
  import opened BlockBound
  import ST = StaticTables
  import SB = StaticBlock
  import T = Tally
  import S = InflateStep
  import I = InflateRead
  import W = BitWriter
  import C = TableCode
  import A = Adler32
  import B = BitReader
  import F = FixedCodes

  type Octet = A.Octet

  /** The part of deflate_state that trees.c uses. */
  class Coder {
    const s: Deflate
    const lt: Tree
    const dt: Tree
    const bt: Tree
    const w: W.Writer
    const tb: Tables
    const slt: Tree
    const sdt: Tree
    const dBuf: array<nat>
    const lBuf: array<nat>
    var lastLit: nat

    /** What never changes. */
    ghost predicate Wired()
      reads slt.fc, slt.dl, sdt.fc, sdt.dl, tb.lengthCode, tb.baseLength, tb.distCode, tb.baseDist
    {
      Separated(s, lt, dt, bt, tb, slt, sdt, dBuf, lBuf) && StaticsHold(slt, sdt) && tb.Valid()
        && 2 <= dBuf.Length == lBuf.Length <= 0xfffe
    }

    ghost predicate Valid()
      reads this, s, w, lt.fc, dt.fc, bt.fc, slt.fc, slt.dl, sdt.fc, sdt.dl, dBuf, lBuf
      reads tb.lengthCode, tb.baseLength, tb.distCode, tb.baseDist
    {
      && Wired() && w.Valid() && s.optLen == s.staticLen == 0 && lastLit < dBuf.Length == lBuf.Length <= 0xfffe
      && 286 <= lt.fc.Length && 30 <= dt.fc.Length && 19 <= bt.fc.Length
      && lt.fc[..286] == LitFreq(Tokens()) && dt.fc[..30] == DistFreq(Tokens())
      && (forall x | 0 <= x < 19 :: bt.fc[x] == 0)
      && forall i | 0 <= i < |Tokens()| :: Good(Tokens()[i])
    }

    /** The symbols collected for the next block. */
    ghost function Tokens(): seq<Token>
      reads this, dBuf, lBuf
    {
      if lastLit <= dBuf.Length && lastLit <= lBuf.Length then AllTallied(dBuf[..], lBuf[..], lastLit) else []
    }

    constructor (s: Deflate, lt: Tree, dt: Tree, bt: Tree, w: W.Writer, tb: Tables, slt: Tree, sdt: Tree,
                 dBuf: array<nat>, lBuf: array<nat>)
      ensures this.s == s && this.lt == lt && this.dt == dt && this.bt == bt && this.w == w && this.tb == tb
              && this.slt == slt && this.sdt == sdt
      ensures this.dBuf == dBuf && this.lBuf == lBuf && lastLit == 0
    {
      this.s, this.lt, this.dt, this.bt, this.w, this.tb, this.slt, this.sdt, this.dBuf, this.lBuf := s, lt, dt, bt, w,
        tb, slt, sdt, dBuf, lBuf;
      lastLit := 0;
    }

    lemma WiredSizes()
      requires Wired()
      ensures 286 <= lt.fc.Length && 30 <= dt.fc.Length && 19 <= bt.fc.Length && lt.fc != dt.fc && lt.fc != bt.fc
              && dt.fc != bt.fc
      ensures dBuf.Length == lBuf.Length >= 2 && dBuf.Length <= 0xfffe
      ensures {slt.fc, slt.dl, sdt.fc, sdt.dl, tb.lengthCode, tb.baseLength, tb.distCode, tb.baseDist} !! {lt.fc, dt.fc,
                bt.fc}
    {
      hide LiteralStatic, DistStatic, LengthStatic, Holds, Tables.Valid;
      TreeSizes(s, lt, dt, bt);
    }

    /** _tr_init */
    method Init()
      requires Wired() && w.Valid() && lastLit == 0
      modifies s`optLen, s`staticLen, lt.fc, dt.fc, bt.fc
      ensures Valid() && Tokens() == []
    {
      WiredSizes();
      hide Separated, StaticsHold, Tables.Valid, W.Writer.Valid, LitFreq, DistFreq, Good;
      T.InitBlock(s, lt, dt, bt);
    }

    /** _tr_tally */
    method Tally(dist: nat, lc: nat) returns (full: bool)
      requires Valid() && Good(Tallied(dist, lc)) && lastLit < dBuf.Length - 1
      modifies this`lastLit, dBuf, lBuf, lt.fc, dt.fc
      ensures Valid() && Tokens() == old(Tokens()) + [Tallied(dist, lc)] && full == (lastLit == dBuf.Length - 1)
      ensures lastLit == old(lastLit) + 1
    {
      hide W.Writer.Valid, Tables.Valid, LitFreq, DistFreq, Good, StaticsHold, LiteralStatic, DistStatic, LengthStatic,
           GoodStatic;
      TreeSizes(s, lt, dt, bt);
      lastLit, full := T.TrTally(lt, dt, tb, dBuf, lBuf, lastLit, dist, lc, Tokens());
    }

    /** The tables and static trees share no storage with what a block is built in. */
    lemma Apart()
      requires Wired()
      ensures {slt.fc, slt.dl, sdt.fc, sdt.dl, tb.lengthCode, tb.baseLength, tb.distCode, tb.baseDist, dBuf, lBuf}
           !! {s.heap, s.depth, s.blCount, lt.fc, lt.dl, dt.fc, dt.dl, bt.fc, bt.dl}
    {
      hide LiteralStatic, DistStatic, LengthStatic, Holds, Tables.Valid;
    }

    /** As many symbols as have been collected, all of the format. */
    lemma Collected()
      requires Valid()
      ensures |Tokens()| == lastLit && forall i | 0 <= i < |Tokens()| :: Good(Tokens()[i])
    {
      hide Wired, LitFreq, DistFreq, Good, W.Writer.Valid;
    }

    /** _tr_flush_block */
    method FlushBlock(buf: array?<Octet>, at: Slice, fixed: bool, last: bool, ghost c: S.Config, ghost out: seq<Octet>)
      returns (ghost block: seq<bool>, ghost pad: nat)
      requires Valid() && (buf != null ==> at.from + at.length <= buf.Length && at.length <= 0xffff)
      requires buf != null ==> I.Expand(out, Tokens()) == out + buf[at.from..at.from + at.length]
      modifies this`lastLit, w, s, s.heap, s.depth, s.blCount, lt.fc, lt.dl, lt`maxCode, dt.fc, dt.dl, dt`maxCode,
               bt.fc, bt.dl, bt`maxCode
      ensures Valid() && Tokens() == [] && lastLit == 0 && pad < 8
              && w.Stream() == old(w.Stream()) + block + C.Zeros(pad)
      ensures if last then |w.Stream()| % 8 == 0 && w.biValid == 0 else pad == 0
      ensures Means(c, old(w.Stream()), false, out) && I.Fitting(c.wsize, out, old(Tokens())) ==>
                Means(c, old(w.Stream()) + block, last, I.Expand(out, old(Tokens())))
      ensures I.Fitting(c.wsize, out, old(Tokens())) ==> Short(|block|, |I.Expand(out, old(Tokens()))| - |out|)
    {
      hide W.Writer.Valid, W.Writer.Stream, LitFreq, DistFreq, Good, Means, I.Fitting, I.Expand, Short, C.Zeros, Wired;
      WiredSizes();
      block, pad := FlushTokens(buf, at, fixed, last, c, out);
      lastLit := 0;
    }

    /** The block sent, and the counts cleared. */
    method FlushTokens(buf: array?<Octet>, at: Slice, fixed: bool, last: bool, ghost c: S.Config, ghost out: seq<Octet>)
      returns (ghost block: seq<bool>, ghost pad: nat)
      requires Valid() && (buf != null ==> at.from + at.length <= buf.Length && at.length <= 0xffff)
      requires buf != null ==> I.Expand(out, Tokens()) == out + buf[at.from..at.from + at.length]
      modifies w, s, s.heap, s.depth, s.blCount, lt.fc, lt.dl, lt`maxCode, dt.fc, dt.dl, dt`maxCode, bt.fc, bt.dl,
               bt`maxCode
      ensures Wired() && w.Valid() && s.optLen == s.staticLen == 0 && lt.fc.Length >= 286 && dt.fc.Length >= 30
              && bt.fc.Length >= 19
      ensures lt.fc[..286] == LitFreq([]) && dt.fc[..30] == DistFreq([]) && forall x | 0 <= x < 19 :: bt.fc[x] == 0
      ensures pad < 8 && w.Stream() == old(w.Stream()) + block + C.Zeros(pad)
      ensures if last then |w.Stream()| % 8 == 0 && w.biValid == 0 else pad == 0
      ensures Means(c, old(w.Stream()), false, out) && I.Fitting(c.wsize, out, old(Tokens())) ==>
                Means(c, old(w.Stream()) + block, last, I.Expand(out, old(Tokens())))
      ensures I.Fitting(c.wsize, out, old(Tokens())) ==> Short(|block|, |I.Expand(out, old(Tokens()))| - |out|)
    {
      hide W.Writer.Valid, W.Writer.Stream, Tables.Valid, LitFreq, DistFreq, Good, StaticsHold, Means, I.Fitting,
           I.Expand, Short, C.Zeros, Separated;
      Apart();
      WiredSizes();
      ghost var form;
      block, form, pad := Flush(s, lt, dt, bt, w, tb, slt, sdt, dBuf, lBuf, lastLit, buf, at, fixed, last, Tokens(), c,
                                out);
    }

    /** An empty stored block, which ends at a byte: the marker of a flush. */
    method EmptyStored(buf: array<Octet>, ghost c: S.Config, ghost out: seq<Octet>) returns (ghost block: seq<bool>)
      requires Valid()
      modifies w
      ensures Valid() && w.Stream() == old(w.Stream()) + block
              && (Means(c, old(w.Stream()), false, out) ==> Means(c, old(w.Stream()) + block, false, out))
      ensures |block| <= 42
    {
      hide W.Writer.Valid, W.Writer.Stream, Wired, LitFreq, DistFreq, Good, Means, I.Expand, StoredBits, Bits,
           HeadValue;
      ghost var before := w.Stream();
      ghost var pad;
      block, pad := StoredBlock(w, buf, Slice(0, 0), false);
      NoTokens(out);
      assert buf[0..0 + 0] == [] && out + [] == out;
      StoredSound(c, before, pad, [], false, [], out);
      StoredBits42(pad, []);
    }

    /** _tr_align: an empty block with the static trees. */
    method Align(ghost c: S.Config, ghost out: seq<Octet>) returns (ghost block: seq<bool>)
      requires Valid()
      modifies w
      ensures Valid() && w.Stream() == old(w.Stream()) + block
              && (Means(c, old(w.Stream()), false, out) ==> Means(c, old(w.Stream()) + block, false, out))
      ensures |block| <= 10
    {
      hide BodyBits;
      hide W.Writer.Valid, W.Writer.Stream, LitFreq, DistFreq, Good, Means, I.Expand, I.Fitting, Bits, HeadValue,
           Separated, Holds, Tables.Valid;
      ghost var before := w.Stream();
      ghost var body := StaticTreesBlock(w, slt, sdt, tb, dBuf, lBuf, 0, false, []);
      block := Bits(HeadValue(STATIC_TREES, false), 3) + body;
      NoTokens(out);
      assert I.Fitting(c.wsize, out, []) by { NoneFitting(c.wsize, out); }
      StaticSound(c, before, body, false, []);
      assert Means(c, before, false, out) ==> Means(c, before + block, false, I.Expand(out, []));
      BodyCost([]);
      NoneGrow();
      FlushBits();
    }

    /** Bytes after the last block. */
    method PutBytes(bytes: seq<nat>)
      requires Valid() && w.biValid == 0 && W.AllBytes(bytes)
      modifies w
      ensures Valid() && w.biValid == 0 && w.Stream() == old(w.Stream()) + W.Flat(bytes)
    {
      hide W.Writer.Stream, Wired, LitFreq, DistFreq, Good, W.Flat, W.AllBytes;
      w.PutBytes(bytes);
    }

    /** _tr_flush_bits */
    method FlushBits()
      requires Valid()
      modifies w
      ensures Valid() && w.Stream() == old(w.Stream()) && w.biValid < 8 && (old(w.biValid) == 0 ==> w.biValid == 0)
    {
      hide W.Writer.Stream, Wired, LitFreq, DistFreq, Good;
      w.Flush();
    }

    /** What never changes. */
    ghost function Statics(): set<object> {
      {slt.fc, slt.dl, sdt.fc, sdt.dl, tb.lengthCode, tb.baseLength, tb.distCode, tb.baseDist}
    }

    /** What does. */
    ghost function Parts(): set<object> {
      {this, s, w, lt, dt, bt, dBuf, lBuf, s.heap, s.depth, s.blCount, lt.fc, lt.dl, dt.fc, dt.dl, bt.fc, bt.dl}
    }
  }

  /** The arrays of the three dynamic trees. */
  method NewTrees(ghost others: set<array<nat>>) returns (s: Deflate, lt: Tree, dt: Tree, bt: Tree)
    ensures others !! {s.heap, s.depth, s.blCount, lt.fc, lt.dl, dt.fc, dt.dl, bt.fc, bt.dl}
    ensures ThreeTrees(s, lt, dt, bt) && fresh(s) && fresh(s.heap) && fresh(s.depth) && fresh(s.blCount)
    ensures fresh(lt) && fresh(lt.fc) && fresh(lt.dl) && fresh(dt) && fresh(dt.fc) && fresh(dt.dl) && fresh(bt)
            && fresh(bt.fc) && fresh(bt.dl)
  {
    hide LiteralStatic, DistStatic, LengthStatic, GoodStatic;
    StaticsGood();
    StaticSizes();
    s := new Deflate();
    lt := new Tree(LiteralStatic(), 573);
    dt := new Tree(DistStatic(), 61);
    bt := new Tree(LengthStatic(), 39);
  }

  method NewTables() returns (tb: Tables)
    ensures tb.Valid() && fresh(tb.lengthCode) && fresh(tb.baseLength) && fresh(tb.distCode) && fresh(tb.baseDist)
  {
    hide ST.LengthTables, ST.DistTables;
    var lengthCode, baseLength := ST.LengthInit();
    var distCode, baseDist := ST.DistInit();
    tb := new Tables(lengthCode, baseLength, distCode, baseDist);
  }

  /** deflateInit, with room for `size` symbols less one in a block. */
  method NewCoder(size: nat) returns (c: Coder)
    requires 2 <= size <= 0xfffe
    ensures c.Valid() && c.Tokens() == [] && c.lastLit == 0 && c.dBuf.Length == size && c.w.Stream() == []
    ensures fresh(c.Parts())
  {
    hide W.Writer.Stream, Coder.Valid, W.Writer.Valid, Coder.Wired;
    c := NewParts(size);
    c.Init();
  }

  method NewParts(size: nat) returns (c: Coder)
    requires 2 <= size <= 0xfffe
    ensures c.Wired() && c.w.Valid() && c.lastLit == 0 && c.dBuf.Length == size && c.w.Stream() == []
            && fresh(c.Parts())
  {
    hide W.Writer.Stream, ThreeTrees, StaticsHold, Tables.Valid, W.Writer.Valid, Holds;
    var tb := NewTables();
    var slt := SB.LiteralTree();
    var sdt := SB.DistTree();
    HoldsBoth(slt, sdt);
    ghost var statics := {tb.lengthCode, tb.baseLength, tb.distCode, tb.baseDist, slt.fc, slt.dl, sdt.fc, sdt.dl};
    var dBuf, lBuf := NewBuffers(size, statics);
    var s, lt, dt, bt := NewTrees(statics + {dBuf, lBuf});
    SeparatedIs(s, lt, dt, bt, tb, slt, sdt, dBuf, lBuf);
    hide Separated;
    var w := new W.Writer();
    c := new Coder(s, lt, dt, bt, w, tb, slt, sdt, dBuf, lBuf);
  }

  method NewBuffers(size: nat, ghost others: set<array<nat>>) returns (dBuf: array<nat>, lBuf: array<nat>)
    ensures fresh(dBuf) && fresh(lBuf) && dBuf != lBuf && dBuf.Length == lBuf.Length == size && {dBuf, lBuf} !! others
  {
    dBuf := new nat[size](_ => 0);
    lBuf := new nat[size](_ => 0);
  }

  lemma SeparatedIs(s: Deflate, lt: Tree, dt: Tree, bt: Tree, tb: Tables, slt: Tree, sdt: Tree, dBuf: array<nat>,
                    lBuf: array<nat>)
    requires ThreeTrees(s, lt, dt, bt) && dBuf != lBuf && dBuf.Length == lBuf.Length
    requires {tb.lengthCode, tb.baseLength, tb.distCode, tb.baseDist, slt.fc, slt.dl, sdt.fc, sdt.dl} + {dBuf, lBuf}
      !! {s.heap, s.depth, s.blCount, lt.fc, lt.dl, dt.fc, dt.dl, bt.fc, bt.dl}
    requires {dBuf, lBuf} !! {tb.lengthCode, tb.baseLength, tb.distCode, tb.baseDist, slt.fc, slt.dl, sdt.fc, sdt.dl}
    ensures Separated(s, lt, dt, bt, tb, slt, sdt, dBuf, lBuf)
  {
    hide ThreeTrees;
  }

  lemma HoldsBoth(slt: Tree, sdt: Tree)
    requires Holds(slt.fc[..], slt.dl[..], F.FixedLit()) && Holds(sdt.fc[..], sdt.dl[..], SB.FixedDL())
    ensures StaticsHold(slt, sdt)
  {
  }

  lemma StaticSizes()
    ensures LiteralStatic().elems == 286 && DistStatic().elems == 30 && LengthStatic().elems == 19
  {
  }

  lemma NoTokens(out: seq<Octet>)
    ensures I.Expand(out, []) == out
  {
  }

  lemma NoneFitting(wsize: nat, out: seq<Octet>)
    ensures I.Fitting(wsize, out, [])
  {
  }
}
