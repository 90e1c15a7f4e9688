/** _tr_flush_block and _tr_stored_block of trees.c: a block in whichever of its three forms is shortest means to
    inflate what its tokens stand for. */
module FlushBlock {
  import opened Wrappers
  import opened Kraft
  import opened GenCodes
  import opened BlockCode
  import opened BlockHeader
  import opened BlockWriter
  import opened BlockSize
  import opened TreeWriter
  import opened HuffmanTree
  import opened DynamicBlock
  import opened StaticBlock
  import opened StreamRead
  import opened BlockBound
  import S = InflateStep
  import I = InflateRead
  import T = Tally
  import W = BitWriter
  import B = BitReader
  import C = TableCode
  import F = FixedCodes
  import A = Adler32

  type Octet = A.Octet

  /** The part of a buffer that a stored block would hold. */
  datatype Slice = Slice(from: nat, length: nat)

  lemma {:induction false} ZeroTail(t: seq<bool>, n: nat)
    requires n <= |t| && forall i | n <= i < |t| :: !t[i]
    ensures t == t[..n] + C.Zeros(|t| - n)
    decreases |t|
  {
    hide C.Zeros;
    if n < |t| {
      var u := t[..|t| - 1];
      ZeroTail(u, n);
      C.ZerosEnd(|u| - n);
      assert u[..n] == t[..n] && t == u + [false];
    } else {
      assert t[..n] == t;
      NoPad(t);
    }
  }

  /** bi_windup, with the number of zero bits it adds. */
  method PadToByte(w: W.Writer) returns (ghost pad: nat)
    requires w.Valid()
    modifies w
    ensures w.Valid() && w.biValid == 0 && pad < 8 && w.Stream() == old(w.Stream()) + C.Zeros(pad)
            && |w.Stream()| % 8 == 0
  {
    hide W.Writer.Stream;
    ghost var before := w.Stream();
    w.WindUp();
    pad := |w.Stream()| - |before|;
    ZeroTail(w.Stream(), |before|);
    assert w.Stream()[..|before|] == before;
  }

  /** _tr_stored_block */
  method StoredBlock(w: W.Writer, buf: array<Octet>, at: Slice, last: bool)
      returns (ghost block: seq<bool>, ghost pad: nat)
    requires w.Valid() && at.from + at.length <= buf.Length && at.length <= 0xffff
    modifies w
    ensures w.Valid() && w.biValid == 0 && w.Stream() == old(w.Stream()) + block && pad < 8
            && (|old(w.Stream())| + 3 + pad) % 8 == 0
    ensures block == Bits(HeadValue(STORED_BLOCK, last), 3) + StoredBits(pad, buf[at.from..at.from + at.length])
  {
    hide W.Writer.Stream, Bits, W.Flat, B.Stream, HeadValue, C.Zeros;
    HeadBits(STORED_BLOCK, last);
    ghost var before := w.Stream();
    var bytes := buf[at.from..at.from + at.length];
    w.SendBits(HeadValue(STORED_BLOCK, last), 3);
    pad := PadToByte(w);
    w.PutShort(at.length);
    w.PutShort(0xffff - at.length);
    w.PutBytes(bytes);
    B.StreamIsFlat(bytes);
    block := Bits(HeadValue(STORED_BLOCK, last), 3) + StoredBits(pad, bytes);
    Regroup(before, Bits(HeadValue(STORED_BLOCK, last), 3), C.Zeros(pad), Bits(at.length, 16),
            Bits(0xffff - at.length, 16), B.Stream(bytes));
  }

  lemma Regroup(a: seq<bool>, b: seq<bool>, c: seq<bool>, d: seq<bool>, e: seq<bool>, f: seq<bool>)
    ensures a + b + c + d + e + f == a + (b + (c + d + e + f))
  {
  }

  /** Tokens sent with the static trees. */
  lemma StaticReads(tokens: seq<Token>)
    requires forall i | 0 <= i < |tokens| :: Good(tokens[i])
    ensures forall i | 0 <= i < |tokens| :: Known(tokens[i], F.FixedLit(), FixedDL())
    ensures forall rest: seq<bool> ::
      ReadBody(F.FixedLit(), F.FixedDist(), BodyBits(tokens, F.FixedLit(), FixedDL()) + rest) == Some((tokens, rest))
  {
    hide BodyBits, Good, Known, F.FixedLit, F.FixedDist, FixedDL, ReadBody;
    forall i | 0 <= i < |tokens|
      ensures Known(tokens[i], F.FixedLit(), FixedDL())
    {
      FixedKnown(tokens[i]);
    }
    forall rest: seq<bool>
      ensures ReadBody(F.FixedLit(), F.FixedDist(), BodyBits(tokens, F.FixedLit(), FixedDL()) + rest)
              == Some((tokens, rest))
    {
      FixedRoundTrip(tokens, rest);
    }
  }

  /** A block with the static trees takes just the bits that static_len counts. */
  method StaticTreesBlock(w: W.Writer, lt: Tree, dt: Tree, tb: Tables, dBuf: array<nat>, lBuf: array<nat>, lastLit: nat,
                          last: bool,
                          ghost tokens: seq<Token>) returns (ghost body: seq<bool>)
    requires w.Valid() && tb.Valid() && Holds(lt.fc[..], lt.dl[..], F.FixedLit())
             && Holds(dt.fc[..], dt.dl[..], FixedDL())
    requires lastLit <= dBuf.Length == lBuf.Length && tokens == AllTallied(dBuf[..], lBuf[..], lastLit)
    requires forall i | 0 <= i < |tokens| :: Good(tokens[i])
    modifies w
    ensures w.Valid() && w.Stream() == old(w.Stream()) + (Bits(HeadValue(STATIC_TREES, last), 3) + body)
    ensures forall rest: seq<bool> :: ReadBody(F.FixedLit(), F.FixedDist(), body + rest) == Some((tokens, rest))
    ensures |body| == |BodyBits(tokens, StaticLL(), StaticDL())|
  {
    hide W.Writer.Stream, W.Writer.Valid, Bits, HeadValue, BodyBits, Tables.Valid, Holds, Good, Known, F.FixedLit,
         F.FixedDist, FixedDL, ReadBody, StaticLL, StaticDL;
    HeadBits(STATIC_TREES, last);
    ghost var before := w.Stream();
    FixedFits();
    StaticReads(tokens);
    FixedSize(tokens);
    w.SendBits(HeadValue(STATIC_TREES, last), 3);
    CompressBlock(w, lt, dt, tb, dBuf, lBuf, lastLit, tokens, F.FixedLit(), FixedDL());
    body := BodyBits(tokens, F.FixedLit(), FixedDL());
    assert before + Bits(HeadValue(STATIC_TREES, last), 3) + body == before
           + (Bits(HeadValue(STATIC_TREES, last), 3) + body);
  }

  /** The forms of a block. */
  datatype Form = AsStored | WithStatic | WithDynamic

  /** After the block, inflate's output is what the tokens stand for. */
  ghost predicate Sound(c: S.Config, before: seq<bool>, block: seq<bool>, last: bool, tokens: seq<Token>)
  {
    forall out: seq<Octet> | Means(c, before, false, out) && I.Fitting(c.wsize, out, tokens) ::
      Means(c, before + block, last, I.Expand(out, tokens))
  }

  lemma DynamicSound(c: S.Config, before: seq<bool>, bits: seq<bool>, last: bool, tokens: seq<Token>, ll: seq<nat>,
                     dl: seq<nat>)
    requires forall rest: seq<bool> :: Reads(bits + rest, tokens, ll, dl, rest)
    ensures Sound(c, before, Bits(HeadValue(DYN_TREES, last), 3) + bits, last, tokens)
  {
    hide Means, BlockMeans, I.Fitting, I.Expand, Bits, HeadValue, ReadBlock, ReadHeader;
    forall out: seq<Octet> | Means(c, before, false, out) && I.Fitting(c.wsize, out, tokens)
      ensures Means(c, before + (Bits(HeadValue(DYN_TREES, last), 3) + bits), last, I.Expand(out, tokens))
    {
      forall rest: seq<bool>
        ensures ReadBlock(bits + rest) == Some((tokens, rest))
      {
        assert Reads(bits + rest, tokens, ll, dl, rest);
      }
      DynamicMeans(c, before, bits, last, out, tokens);
      MeansMore(c, before, Bits(HeadValue(DYN_TREES, last), 3) + bits, last, out, I.Expand(out, tokens));
    }
  }

  lemma StaticSound(c: S.Config, before: seq<bool>, body: seq<bool>, last: bool, tokens: seq<Token>)
    requires forall rest: seq<bool> :: ReadBody(F.FixedLit(), F.FixedDist(), body + rest) == Some((tokens, rest))
    ensures Sound(c, before, Bits(HeadValue(STATIC_TREES, last), 3) + body, last, tokens)
  {
    hide Means, BlockMeans, I.Fitting, I.Expand, Bits, HeadValue, ReadBody;
    forall out: seq<Octet> | Means(c, before, false, out) && I.Fitting(c.wsize, out, tokens)
      ensures Means(c, before + (Bits(HeadValue(STATIC_TREES, last), 3) + body), last, I.Expand(out, tokens))
    {
      StaticMeans(c, before, body, last, out, tokens);
      MeansMore(c, before, Bits(HeadValue(STATIC_TREES, last), 3) + body, last, out, I.Expand(out, tokens));
    }
  }

  lemma StoredSound(c: S.Config, before: seq<bool>, pad: nat, bytes: seq<Octet>, last: bool, tokens: seq<Token>,
                    from: seq<Octet>)
    requires pad < 8 && |bytes| <= 0xffff && (|before| + 3 + pad) % 8 == 0 && I.Expand(from, tokens) == from + bytes
    ensures Means(c, before, false, from) ==>
              Means(c, before + (Bits(HeadValue(STORED_BLOCK, last), 3) + StoredBits(pad, bytes)), last,
                    I.Expand(from, tokens))
  {
    hide Means, BlockMeans, I.Expand, Bits, HeadValue, StoredBits;
    if Means(c, before, false, from) {
      StoredMeans(c, before, last, pad, bytes, from);
      MeansMore(c, before, Bits(HeadValue(STORED_BLOCK, last), 3) + StoredBits(pad, bytes), last, from, from + bytes);
    }
  }

  /** The dynamic and static trees, and where the symbols of a block are collected. */
  ghost predicate Separated(s: Deflate, lt: Tree, dt: Tree, bt: Tree, tb: Tables, slt: Tree, sdt: Tree,
                            dBuf: array<nat>, lBuf: array<nat>) {
    && ThreeTrees(s, lt, dt, bt) && dBuf != lBuf && dBuf.Length == lBuf.Length
    && {dBuf, lBuf, tb.lengthCode, tb.baseLength, tb.distCode, tb.baseDist, slt.fc, slt.dl, sdt.fc, sdt.dl}
       !! {s.heap, s.depth, s.blCount, lt.fc, lt.dl, dt.fc, dt.dl, bt.fc, bt.dl}
    && {dBuf, lBuf} !! {tb.lengthCode, tb.baseLength, tb.distCode, tb.baseDist, slt.fc, slt.dl, sdt.fc, sdt.dl}
  }

  ghost predicate StaticsHold(slt: Tree, sdt: Tree)
    reads slt.fc, slt.dl, sdt.fc, sdt.dl
  {
    Holds(slt.fc[..], slt.dl[..], F.FixedLit()) && Holds(sdt.fc[..], sdt.dl[..], FixedDL())
  }

  /** The choice of _tr_flush_block: 0 stored, 1 static trees, 2 dynamic trees. */
  function Choice(optLen: int, staticLen: int, stored: bool, storedLen: nat, fixed: bool): nat {
    var staticBytes := (staticLen + 3 + 7) / 8;
    var optBytes := if staticBytes <= (optLen + 3 + 7) / 8 then staticBytes else (optLen + 3 + 7) / 8;
    if storedLen + 4 <= optBytes && stored then STORED_BLOCK else if fixed || staticBytes == optBytes then STATIC_TREES
      else DYN_TREES
  }

  /** _tr_flush_block, but for the check of the data type: the block in one of its forms, the symbols forgotten, and a
      last block filled up to a whole byte.  `at` is where the bytes of the block lie in `buf`, if they still do. */
  method Flush(s: Deflate, lt: Tree, dt: Tree, bt: Tree, w: W.Writer, tb: Tables, slt: Tree, sdt: Tree,
               dBuf: array<nat>, lBuf: array<nat>,
               lastLit: nat, buf: array?<Octet>, at: Slice, fixed: bool, last: bool, ghost tokens: seq<Token>,
                 ghost c: S.Config, ghost out: seq<Octet>)
    returns (ghost block: seq<bool>, ghost form: Form, ghost pad: nat)
    requires Separated(s, lt, dt, bt, tb, slt, sdt, dBuf, lBuf) && StaticsHold(slt, sdt) && w.Valid() && tb.Valid()
             && s.optLen == s.staticLen == 0
    requires lastLit <= dBuf.Length && tokens == AllTallied(dBuf[..], lBuf[..], lastLit) && lastLit < 0xfffe
    requires forall i | 0 <= i < |tokens| :: Good(tokens[i])
    requires lt.fc[..286] == LitFreq(tokens) && dt.fc[..30] == DistFreq(tokens) && forall x | 0 <= x < 19 ::
             bt.fc[x] == 0
    requires buf != null ==> at.from + at.length <= buf.Length && at.length <= 0xffff
    requires buf != null ==> I.Expand(out, tokens) == out + buf[at.from..at.from + at.length]
    modifies w, s, s.heap, s.depth, s.blCount, lt.fc, lt.dl, lt`maxCode, dt.fc, dt.dl, dt`maxCode, bt.fc, bt.dl,
             bt`maxCode
    ensures w.Valid() && w.Stream() == old(w.Stream()) + block + C.Zeros(pad) && pad < 8
    ensures if last then |w.Stream()| % 8 == 0 && w.biValid == 0 else pad == 0
    ensures Means(c, old(w.Stream()), false, out) && I.Fitting(c.wsize, out, tokens) ==>
              Means(c, old(w.Stream()) + block, last, I.Expand(out, tokens))
    ensures I.Fitting(c.wsize, out, tokens) ==> Short(|block|, |I.Expand(out, tokens)| - |out|)
    ensures s.optLen == s.staticLen == 0 && lt.fc[..286] == LitFreq([]) && dt.fc[..30] == DistFreq([])
            && forall x | 0 <= x < 19 :: bt.fc[x] == 0
  {
    hide W.Writer.Stream, W.Writer.Valid, Bits, HeadValue, BodyBits, HeaderBits, Tables.Valid, StaticsHold, Good,
         BlockReady, Holds, Guarded, Means, Sound;
    hide I.Expand, I.Fitting, Short, LitFreq, DistFreq, StoredBits, C.Zeros, StaticLL, StaticDL, LiteralStatic,
         DistStatic, LengthStatic, GoodStatic;
    ghost var ll, dl, bl;
    var blcodes;
    ghost var before := w.Stream();
    blcodes, ll, dl, bl := BuildTrees(s, lt, dt, bt, tokens);
    block, form := Send(s, lt, dt, bt, w, tb, slt, sdt, dBuf, lBuf, lastLit, blcodes, buf, at, fixed, last, tokens, ll,
                        dl, bl, c, out);
    TreeSizes(s, lt, dt, bt);
    T.InitBlock(s, lt, dt, bt);
    pad := 0;
    if last { pad := PadToByte(w); } else { NoPad(w.Stream()); }
  }

  lemma NoPad(s: seq<bool>)
    ensures s + C.Zeros(0) == s
  {
  }

  /** The block in the form chosen. */
  method Send(s: Deflate, lt: Tree, dt: Tree, bt: Tree, w: W.Writer, tb: Tables, slt: Tree, sdt: Tree, dBuf: array<nat>,
              lBuf: array<nat>,
              lastLit: nat, blcodes: nat, buf: array?<Octet>, at: Slice, fixed: bool, last: bool,
                ghost tokens: seq<Token>,
              ghost ll: seq<nat>, ghost dl: seq<nat>, ghost bl: seq<nat>, ghost c: S.Config, ghost out: seq<Octet>)
    returns (ghost block: seq<bool>, ghost form: Form)
    requires w.Valid() && tb.Valid() && StaticsHold(slt, sdt) && BlockReady(tokens, ll, dl, bl, blcodes)
    requires |ll| == lt.maxCode + 1 && |dl| == dt.maxCode + 1
    requires lastLit <= dBuf.Length == lBuf.Length && tokens == AllTallied(dBuf[..], lBuf[..], lastLit)
    requires Holds(lt.fc[..], lt.dl[..], ll) && Holds(dt.fc[..], dt.dl[..], dl) && Holds(bt.fc[..], bt.dl[..], bl)
    requires Guarded(lt.dl[..], ll) && Guarded(dt.dl[..], dl) && forall i | 0 <= i < |tokens| :: Good(tokens[i])
    requires s.optLen == |HeaderBits(ll, dl, bl, blcodes)| + |BodyBits(tokens, ll, dl)|
             && s.staticLen == |BodyBits(tokens, StaticLL(), StaticDL())|
    requires buf != null ==> at.from + at.length <= buf.Length && at.length <= 0xffff
    requires buf != null ==> I.Expand(out, tokens) == out + buf[at.from..at.from + at.length]
    modifies w
    ensures w.Valid() && w.Stream() == old(w.Stream()) + block
    ensures Means(c, old(w.Stream()), false, out) && I.Fitting(c.wsize, out, tokens) ==>
              Means(c, old(w.Stream()) + block, last, I.Expand(out, tokens))
    ensures I.Fitting(c.wsize, out, tokens) ==> Short(|block|, |I.Expand(out, tokens)| - |out|)
    ensures form.WithDynamic? ==> |block| == 3 + s.optLen
    ensures form.WithStatic? ==> |block| == 3 + s.staticLen
    ensures var choice := Choice(s.optLen, s.staticLen, buf != null, at.length, fixed);
            if choice == STORED_BLOCK then form.AsStored? else if choice == STATIC_TREES then form.WithStatic?
              else form.WithDynamic?
  {
    hide W.Writer.Stream, W.Writer.Valid, Bits, HeadValue, BodyBits, HeaderBits, Tables.Valid, Good, BlockReady, Holds,
         Guarded, Means, Reads, ReadBody;
    hide I.Expand, I.Fitting, StoredBits, C.Zeros, StaticLL, StaticDL, F.FixedLit, F.FixedDist, FixedDL;
    ghost var before := w.Stream();
    var choice := Choice(s.optLen, s.staticLen, buf != null, at.length, fixed);
    hide Choice, Short;
    if choice == STORED_BLOCK {
      ghost var pad;
      block, pad := StoredBlock(w, buf, at, last);
      form := AsStored;
      StoredSound(c, before, pad, buf[at.from..at.from + at.length], last, tokens, out);
      StoredBits42(pad, buf[at.from..at.from + at.length]);
    } else if choice == STATIC_TREES {
      ghost var body := StaticTreesBlock(w, slt, sdt, tb, dBuf, lBuf, lastLit, last, tokens);
      block, form := Bits(HeadValue(STATIC_TREES, last), 3) + body, WithStatic;
      StaticSound(c, before, body, last, tokens);
    } else {
      HeadBits(DYN_TREES, last);
      w.SendBits(HeadValue(DYN_TREES, last), 3);
      ghost var bits := SendDynamic(lt, dt, bt, w, tb, dBuf, lBuf, lastLit, blcodes, tokens, ll, dl, bl);
      block, form := Bits(HeadValue(DYN_TREES, last), 3) + bits, WithDynamic;
      assert before + Bits(HeadValue(DYN_TREES, last), 3) + bits == before + block;
      DynamicSound(c, before, bits, last, tokens, ll, dl);
    }
    ChoiceShort(c, out, tokens, s.optLen, s.staticLen, buf != null, at.length, fixed, |block|);
  }

  lemma StoredBits42(pad: nat, bytes: seq<Octet>)
    requires pad < 8
    ensures |StoredBits(pad, bytes)| <= 39 + 8 * |bytes|
  {
    StoredSize(pad, bytes);
  }

  /** The block is short in whichever form. */
  lemma ChoiceShort(c: S.Config, out: seq<Octet>, tokens: seq<Token>, optLen: int, staticLen: int, stored: bool,
                    storedLen: nat, fixed: bool,
                    bits: int)
    requires (forall i | 0 <= i < |tokens| :: Good(tokens[i]))
             && staticLen == |BodyBits(tokens, StaticLL(), StaticDL())|
    requires stored ==> |I.Expand(out, tokens)| == |out| + storedLen
    requires var choice := Choice(optLen, staticLen, stored, storedLen, fixed);
             bits <= if choice == STORED_BLOCK then 42 + 8 * storedLen else if choice == STATIC_TREES then 3 + staticLen
               else 3 + optLen
    ensures I.Fitting(c.wsize, out, tokens) ==> Short(bits, |I.Expand(out, tokens)| - |out|)
  {
    hide BodyBits, StaticLL, StaticDL, Good, I.Expand, I.Fitting, Short;
    BodyCost(tokens);
    if I.Fitting(c.wsize, out, tokens) {
      ExpandSize(c.wsize, out, tokens);
      FormShort(Choice(optLen, staticLen, stored, storedLen, fixed), optLen, staticLen, AllGrow(tokens), bits, fixed,
                stored);
    }
  }
}
