/** send_all_trees and compress_block of trees.c. */
module BlockWriter {
  import opened Kraft
  import opened CanonicalCode
  import opened GenCodes
  import opened BlockTables
  import opened BlockCode
  import opened BlockHeader
  import opened TreeWriter
  import S = StaticTables
  import R = RunLengths
  import W = BitWriter
  import H = HuffmanTree

  // -- send_all_trees -------------------------------------------------------------------------------------------

  lemma LenLensAfter(stream: seq<bool>, bl: seq<nat>, n: nat)
    ensures stream + LenLensBits(bl, n + 1) == stream + LenLensBits(bl, n) + Bits(LengthAt(bl, n), 3)
  {
    hide Bits, LengthAt;
  }

  method SendLenLens(w: W.Writer, bt: H.Tree, blcodes: nat, ghost bl: seq<nat>)
    requires w.Valid() && |bl| == BL_CODES <= bt.dl.Length && bl == bt.dl[..BL_CODES] && forall x | 0 <= x < |bl| ::
             bl[x] < 8
    modifies w
    ensures w.Valid() && w.Stream() == old(w.Stream()) + LenLensBits(bl, blcodes)
  {
    ghost var before := w.Stream();
    assert before + LenLensBits(bl, 0) == before;
    OrderPermutes();
    EightFits();
    hide Bits, Order, W.Writer.Stream, W.Writer.Valid, Pow2;
    for rank := 0 to blcodes
      invariant w.Valid() && w.Stream() == before + LenLensBits(bl, rank)
    {
      LenLensAfter(before, bl, rank);
      hide LenLensBits;
      assert bt.dl[Order(rank)] == LengthAt(bl, rank);
      w.SendBits(bt.dl[Order(rank)], 3);
    }
  }

  method SendCounts(w: W.Writer, lcodes: nat, dcodes: nat, blcodes: nat)
    requires w.Valid() && 257 <= lcodes <= 286 && 1 <= dcodes <= 30 && 4 <= blcodes <= BL_CODES
    modifies w
    ensures w.Valid() && w.Stream() == old(w.Stream()) + CountBits(lcodes, dcodes, blcodes)
  {
    EightFits();
    hide Bits, W.Writer.Stream, W.Writer.Valid, Pow2;
    ghost var before := w.Stream();
    w.SendBits(lcodes - 257, 5);
    w.SendBits(dcodes - 1, 5);
    w.SendBits(blcodes - 4, 4);
    assert w.Stream() == before + CountBits(lcodes, dcodes, blcodes);
  }

  /** A tree whose lengths are guarded as scan_tree leaves them. */
  ghost predicate Guarded(dl: seq<nat>, lens: seq<nat>) {
    |lens| < |dl| && lens == dl[..|lens|] && dl[|lens|] == R.GUARD
  }

  method SendAllTrees(w: W.Writer, lt: H.Tree, dt: H.Tree, bt: H.Tree, lcodes: nat, dcodes: nat, blcodes: nat,
                      ghost ll: seq<nat>, ghost dl: seq<nat>, ghost bl: seq<nat>)
    requires w.Valid() && 257 <= lcodes <= 286 && 1 <= dcodes <= 30 && 4 <= blcodes <= BL_CODES
    requires |ll| == lcodes && |dl| == dcodes && |bl| == BL_CODES && Guarded(lt.dl[..], ll) && Guarded(dt.dl[..], dl)
    requires Holds(bt.fc[..], bt.dl[..], bl) && (forall x | 0 <= x < |bl| :: bl[x] < 8)
    requires CanSend(R.RunsOf(ll), bl) && CanSend(R.RunsOf(dl), bl)
    modifies w
    ensures w.Valid() && w.Stream() == old(w.Stream()) + HeaderBits(ll, dl, bl, blcodes)
  {
    ghost var before := w.Stream();
    HoldsLens(bt.fc[..], bt.dl[..], bl);
    HeaderParts(before, ll, dl, bl, blcodes);
    hide W.Writer.Stream, W.Writer.Valid, Holds, CanSend, R.RunsOf, RunsBits, LenLensBits, CountBits, HeaderBits;
    SendCounts(w, lcodes, dcodes, blcodes);
    SendLenLens(w, bt, blcodes, bl);
    SendTree(w, lt, bt, lcodes - 1, ll, bl);
    SendTree(w, dt, bt, dcodes - 1, dl, bl);
  }

  lemma HoldsLens(fc: seq<nat>, dl: seq<nat>, lens: seq<nat>)
    requires Holds(fc, dl, lens)
    ensures |lens| <= |dl| && dl[..|lens|] == lens
  {
    hide Coded;
  }

  lemma HeaderParts(stream: seq<bool>, ll: seq<nat>, dl: seq<nat>, bl: seq<nat>, blcodes: nat)
    ensures stream + HeaderBits(ll, dl, bl, blcodes)
      == stream + CountBits(|ll|, |dl|, blcodes) + LenLensBits(bl, blcodes) + RunsBits(R.RunsOf(ll), bl)
         + RunsBits(R.RunsOf(dl), bl)
  {
    hide CountBits, LenLensBits, RunsBits, R.RunsOf;
  }

  // -- compress_block -------------------------------------------------------------------------------------------

  /** What d_buf and l_buf hold for one symbol. */
  function Tallied(dist: nat, lc: nat): Token { if dist == 0 then Literal(lc) else Match(lc + 3, dist) }

  function AllTallied(dBuf: seq<nat>, lBuf: seq<nat>, n: nat): (r: seq<Token>)
    requires n <= |dBuf| && n <= |lBuf|
    ensures |r| == n && forall i | 0 <= i < n :: r[i] == Tallied(dBuf[i], lBuf[i])
  {
    seq(n, i requires 0 <= i < n <= |dBuf| && n <= |lBuf| => Tallied(dBuf[i], lBuf[i]))
  }

  /** The tables of tr_static_init. */
  class Tables {
    const lengthCode: array<nat>
    const baseLength: array<nat>
    const distCode: array<nat>
    const baseDist: array<nat>

    constructor (lengthCode: array<nat>, baseLength: array<nat>, distCode: array<nat>, baseDist: array<nat>)
      ensures this.lengthCode == lengthCode && this.baseLength == baseLength && this.distCode == distCode
              && this.baseDist == baseDist
    {
      this.lengthCode, this.baseLength, this.distCode, this.baseDist := lengthCode, baseLength, distCode, baseDist;
    }

    ghost predicate Valid()
      reads lengthCode, baseLength, distCode, baseDist
    {
      S.LengthTables(lengthCode[..], baseLength[..]) && S.DistTables(distCode[..], baseDist[..])
    }
  }

  lemma TableFacts(tb: Tables, lc: nat, dist: nat)
    requires tb.Valid() && lc < 256 && dist < 32768
    ensures tb.lengthCode.Length == 256 && tb.distCode.Length == 512 && tb.baseLength.Length == L_CODES
            && tb.baseDist.Length == D_CODES
    ensures tb.lengthCode[lc] == LengthCode(lc) && S.DCode(tb.distCode[..], dist) == DistCode(dist)
    ensures LengthXBits(LengthCode(lc)) != 0 ==> tb.baseLength[LengthCode(lc)] == LengthFirst(LengthCode(lc)) <= lc
    ensures tb.baseDist[DistCode(dist)] == DistFirst(DistCode(dist)) <= dist
  {
    hide LengthFirst, DistFirst, LengthBase, DistBase, Pow2;
    if lc < 255 { LengthRange(lc); }
    DistRange(dist);
    hide LengthCode, DistCode;
    assert tb.lengthCode[..][lc] == LengthCode(lc);
    assert tb.baseDist[..][DistCode(dist)] == DistFirst(DistCode(dist));
    if LengthCode(lc) < 28 { assert tb.baseLength[..][LengthCode(lc)] == LengthFirst(LengthCode(lc)); }
  }

  /** The bits of the extra values, as sent. */
  lemma ExtraFits(lc: nat, dist: nat)
    requires lc < 256 && dist < 32768
    ensures LengthExtra(lc) < Pow2(LengthXBits(LengthCode(lc))) && LengthXBits(LengthCode(lc)) <= 16
    ensures DistExtra(dist) < Pow2(DistXBits(DistCode(dist))) && DistXBits(DistCode(dist)) <= 16
    ensures LengthXBits(LengthCode(lc)) == 0 ==> Bits(LengthExtra(lc), 0) == []
    ensures DistXBits(DistCode(dist)) == 0 ==> Bits(DistExtra(dist), 0) == []
  {
    hide LengthBase, DistBase, LengthCode, DistCode, LengthExtra, DistExtra, Pow2;
    LengthDecodes(lc);
    DistDecodes(dist);
  }

  /** The extra bits of a length. */
  method SendLengthExtra(w: W.Writer, tb: Tables, lc: nat, code: nat)
    requires w.Valid() && tb.Valid() && lc < 256 && code == LengthCode(lc)
    modifies w
    ensures w.Valid() && w.Stream() == old(w.Stream()) + LengthBits(lc + 3)
  {
    hide Tables.Valid, S.DCode, LengthCode, DistCode, LengthFirst, DistFirst, LengthExtra, DistExtra, Bits, Pow2,
         LengthBits, LengthXBits, DistXBits;
    hide W.Writer.Stream, W.Writer.Valid;
    TableFacts(tb, lc, 0);
    ExtraFits(lc, 0);
    LengthParts(lc);
    var extra := LengthXBits(code);
    ghost var before := w.Stream();
    if extra != 0 {
      w.SendBits(lc - tb.baseLength[code], extra);
    } else {
      assert before + [] == before;
    }
  }

  lemma LengthParts(lc: nat)
    requires lc < 256
    ensures LengthBits(lc + 3) == Bits(LengthExtra(lc), LengthXBits(LengthCode(lc)))
    ensures LengthXBits(LengthCode(lc)) != 0 && lc >= LengthFirst(LengthCode(lc))
            ==> LengthExtra(lc) == lc - LengthFirst(LengthCode(lc))
  {
    hide LengthCode, LengthFirst, LengthXBits, Bits;
  }

  lemma DistParts(dist: nat)
    ensures DistBits(dist + 1) == Bits(DistExtra(dist), DistXBits(DistCode(dist)))
    ensures DistXBits(DistCode(dist)) != 0 && dist >= DistFirst(DistCode(dist))
            ==> DistExtra(dist) == dist - DistFirst(DistCode(dist))
  {
    hide DistCode, DistFirst, DistXBits, Bits;
  }

  method SendDistExtra(w: W.Writer, tb: Tables, dist: nat, code: nat)
    requires w.Valid() && tb.Valid() && dist < 32768 && code == DistCode(dist)
    modifies w
    ensures w.Valid() && w.Stream() == old(w.Stream()) + DistBits(dist + 1)
  {
    hide Tables.Valid, S.DCode, LengthCode, DistCode, LengthFirst, DistFirst, LengthExtra, DistExtra, Bits, Pow2,
         DistBits, LengthXBits, DistXBits;
    hide W.Writer.Stream, W.Writer.Valid;
    TableFacts(tb, 0, dist);
    ExtraFits(0, dist);
    DistParts(dist);
    var extra := DistXBits(code);
    ghost var before := w.Stream();
    if extra != 0 {
      w.SendBits(dist - tb.baseDist[code], extra);
    } else {
      assert before + [] == before;
    }
  }

  /** One symbol. */
  method SendToken(w: W.Writer, lt: H.Tree, dt: H.Tree, tb: Tables, dist: nat, lc: nat, ghost ll: seq<nat>,
                   ghost dl: seq<nat>)
    requires w.Valid() && tb.Valid() && Holds(lt.fc[..], lt.dl[..], ll) && Holds(dt.fc[..], dt.dl[..], dl)
    requires Known(Tallied(dist, lc), ll, dl)
    modifies w
    ensures w.Valid() && w.Stream() == old(w.Stream()) + TokenBits(Tallied(dist, lc), ll, dl)
  {
    hide Holds, W.Writer.Stream, W.Writer.Valid, Sent, LengthBits, DistBits, Known, Uses, LengthCode, DistCode,
         TokenBits, Tallied;
    hide Tables.Valid, S.DCode, LengthFirst, DistFirst, LengthXBits, DistXBits;
    ghost var before := w.Stream();
    KnownFacts(dist, lc, ll, dl);
    if dist == 0 {
      SendCode(w, lt, lc, ll);
    } else {
      TableFacts(tb, lc, dist - 1);
      var code := tb.lengthCode[lc];
      SendCode(w, lt, code + LITERALS + 1, ll);
      SendLengthExtra(w, tb, lc, code);
      var d := dist - 1;
      code := S.DCode(tb.distCode[..], d);
      SendCode(w, dt, code, dl);
      SendDistExtra(w, tb, d, code);
      TokenParts(before, dist, lc, ll, dl);
    }
  }

  lemma KnownFacts(dist: nat, lc: nat, ll: seq<nat>, dl: seq<nat>)
    requires Known(Tallied(dist, lc), ll, dl)
    ensures lc < 256 && dist <= 32768
    ensures dist == 0 ==> Uses(ll, lc) && TokenBits(Tallied(dist, lc), ll, dl) == Sent(ll, lc)
    ensures dist > 0 ==> Uses(ll, LengthCode(lc) + LITERALS + 1) && Uses(dl, DistCode(dist - 1))
  {
    hide LengthCode, DistCode, Sent;
  }

  lemma TokenParts(stream: seq<bool>, dist: nat, lc: nat, ll: seq<nat>, dl: seq<nat>)
    requires dist > 0
    ensures stream + TokenBits(Tallied(dist, lc), ll, dl)
      == stream + Sent(ll, LengthCode(lc) + LITERALS + 1) + LengthBits(lc + 3) + Sent(dl, DistCode(dist - 1))
         + DistBits(dist - 1 + 1)
  {
    hide LengthCode, DistCode, Sent, LengthBits, DistBits;
  }

  method CompressBlock(w: W.Writer, lt: H.Tree, dt: H.Tree, tb: Tables, dBuf: array<nat>, lBuf: array<nat>,
                       lastLit: nat,
                       ghost tokens: seq<Token>, ghost ll: seq<nat>, ghost dl: seq<nat>)
    requires w.Valid() && tb.Valid() && Holds(lt.fc[..], lt.dl[..], ll) && Holds(dt.fc[..], dt.dl[..], dl)
    requires lastLit <= dBuf.Length == lBuf.Length && tokens == AllTallied(dBuf[..], lBuf[..], lastLit)
    requires (forall i | 0 <= i < |tokens| :: Known(tokens[i], ll, dl)) && Uses(ll, END_BLOCK)
    modifies w
    ensures w.Valid() && w.Stream() == old(w.Stream()) + BodyBits(tokens, ll, dl)
  {
    hide Holds, W.Writer.Stream, W.Writer.Valid, Tables.Valid, Known, Uses, TokenBits, Sent, Tallied;
    ghost var before := w.Stream();
    assert before + TokensBits(tokens[..0], ll, dl) == before;
    var lx := 0;
    while lx < lastLit
      invariant 0 <= lx <= lastLit && w.Valid() && tb.Valid() && Holds(lt.fc[..], lt.dl[..], ll)
                && Holds(dt.fc[..], dt.dl[..], dl)
      invariant w.Stream() == before + TokensBits(tokens[..lx], ll, dl)
    {
      assert tokens[lx] == Tallied(dBuf[lx], lBuf[lx]);
      TokensAfter(before, tokens, lx, ll, dl);
      SendToken(w, lt, dt, tb, dBuf[lx], lBuf[lx], ll, dl);
      lx := lx + 1;
    }
    assert tokens[..lx] == tokens;
    SendCode(w, lt, END_BLOCK, ll);
    BodyParts(before, tokens, ll, dl);
  }

  lemma TokensAfter(stream: seq<bool>, tokens: seq<Token>, n: nat, ll: seq<nat>, dl: seq<nat>)
    requires n < |tokens|
    ensures stream + TokensBits(tokens[..n + 1], ll, dl) == stream + TokensBits(tokens[..n], ll, dl)
            + TokenBits(tokens[n], ll, dl)
  {
    hide TokenBits;
    assert tokens[..n + 1][..n] == tokens[..n];
  }

  lemma BodyParts(stream: seq<bool>, tokens: seq<Token>, ll: seq<nat>, dl: seq<nat>)
    ensures stream + BodyBits(tokens, ll, dl) == stream + TokensBits(tokens, ll, dl) + Sent(ll, END_BLOCK)
  {
    hide TokensBits, Sent;
  }
}
