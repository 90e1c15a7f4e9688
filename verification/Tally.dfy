/** init_block and _tr_tally of trees.c: collecting the symbols of a block and how often each occurs. */
module Tally {
  import opened BlockTables
  import opened BlockCode
  import opened BlockSize
  import opened BlockWriter
  import S = StaticTables
  import H = HuffmanTree

  /** init_block. */
  method InitBlock(s: H.Deflate, lt: H.Tree, dt: H.Tree, bt: H.Tree)
    requires 286 <= lt.fc.Length && 30 <= dt.fc.Length && 19 <= bt.fc.Length && lt.fc != dt.fc && lt.fc != bt.fc
             && dt.fc != bt.fc
    modifies s`optLen, s`staticLen, lt.fc, dt.fc, bt.fc
    ensures lt.fc[..286] == LitFreq([]) && dt.fc[..30] == DistFreq([]) && forall x | 0 <= x < 19 :: bt.fc[x] == 0
    ensures s.optLen == s.staticLen == 0
  {
    for n := 0 to 286
      invariant forall x | 0 <= x < n :: lt.fc[x] == 0
    {
      lt.fc[n] := 0;
    }
    for n := 0 to 30
      invariant forall x | 0 <= x < 286 :: lt.fc[x] == 0
      invariant forall x | 0 <= x < n :: dt.fc[x] == 0
    {
      dt.fc[n] := 0;
    }
    for n := 0 to 19
      invariant forall x | 0 <= x < 286 :: lt.fc[x] == 0
      invariant forall x | 0 <= x < 30 :: dt.fc[x] == 0
      invariant forall x | 0 <= x < n :: bt.fc[x] == 0
    {
      bt.fc[n] := 0;
    }
    lt.fc[END_BLOCK] := 1;
    s.optLen, s.staticLen := 0, 0;
    assert lt.fc[..286] == LitFreq([]) && dt.fc[..30] == DistFreq([]);
  }

  lemma FreqMore(tokens: seq<Token>, t: Token)
    ensures LitFreq(tokens + [t])
      == if LitSymbol(t) < 286 then LitFreq(tokens)[LitSymbol(t) := LitFreq(tokens)[LitSymbol(t)] + 1]
         else LitFreq(tokens)
    ensures DistFreq(tokens + [t])
      == if t.Match? && DistSymbol(t) < 30 then DistFreq(tokens)[DistSymbol(t) := DistFreq(tokens)[DistSymbol(t)] + 1]
         else DistFreq(tokens)
  {
    hide LitSymbol, DistSymbol;
    assert (tokens + [t])[..|tokens|] == tokens;
  }

  lemma SymbolsOf(dist: nat, lc: nat)
    requires Good(Tallied(dist, lc))
    ensures lc < 256 && dist <= 32768
    ensures LitSymbol(Tallied(dist, lc)) == if dist == 0 then lc else LengthCode(lc) + LITERALS + 1
    ensures dist > 0 ==> DistSymbol(Tallied(dist, lc)) == DistCode(dist - 1)
    ensures LitSymbol(Tallied(dist, lc)) < 286 && DistSymbol(Tallied(dist, lc)) < 30
  {
    hide LengthCode, DistCode;
  }

  lemma OneMore(dBuf: seq<nat>, lBuf: seq<nat>, n: nat, dist: nat, lc: nat)
    requires n < |dBuf| == |lBuf|
    ensures AllTallied(dBuf[n := dist], lBuf[n := lc], n + 1) == AllTallied(dBuf, lBuf, n) + [Tallied(dist, lc)]
  {
  }

  /** _tr_tally: one more literal (dist 0) or match; the result says whether the block is full. */
  method TrTally(lt: H.Tree, dt: H.Tree, tb: Tables, dBuf: array<nat>, lBuf: array<nat>, last: nat, dist: nat, lc: nat,
                 ghost tokens: seq<Token>)
    returns (lastLit: nat, full: bool)
    requires tb.Valid() && last < dBuf.Length == lBuf.Length && dBuf != lBuf
             && tokens == AllTallied(dBuf[..], lBuf[..], last)
    requires 286 <= lt.fc.Length && 30 <= dt.fc.Length && lt.fc[..286] == LitFreq(tokens)
             && dt.fc[..30] == DistFreq(tokens)
    requires Good(Tallied(dist, lc)) && lt.fc != dt.fc
    requires {dBuf, lBuf} !! {lt.fc, dt.fc}
             && {tb.lengthCode, tb.distCode, tb.baseLength, tb.baseDist} !! {dBuf, lBuf, lt.fc, dt.fc}
    modifies dBuf, lBuf, lt.fc, dt.fc
    ensures lastLit == last + 1 && full == (lastLit == dBuf.Length - 1)
    ensures AllTallied(dBuf[..], lBuf[..], lastLit) == tokens + [Tallied(dist, lc)]
    ensures lt.fc[..286] == LitFreq(tokens + [Tallied(dist, lc)])
            && dt.fc[..30] == DistFreq(tokens + [Tallied(dist, lc)])
  {
    hide Tables.Valid, LengthCode, DistCode, LitSymbol, DistSymbol, S.DCode, LitFreq, DistFreq;
    SymbolsOf(dist, lc);
    FreqMore(tokens, Tallied(dist, lc));
    OneMore(dBuf[..], lBuf[..], last, dist, lc);
    hide Good, Tallied;
    ghost var d0, l0, f0, g0 := dBuf[..], lBuf[..], lt.fc[..286], dt.fc[..30];
    dBuf[last] := dist;
    lBuf[last] := lc;
    assert dBuf[..] == d0[last := dist] && lBuf[..] == l0[last := lc];
    lastLit := last + 1;
    if dist == 0 {
      lt.fc[lc] := lt.fc[lc] + 1;
      assert lt.fc[..286] == f0[lc := f0[lc] + 1];
    } else {
      TableFacts(tb, lc, dist - 1);
      var x := tb.lengthCode[lc] + LITERALS + 1;
      var y := S.DCode(tb.distCode[..], dist - 1);
      lt.fc[x] := lt.fc[x] + 1;
      assert lt.fc[..286] == f0[x := f0[x] + 1];
      dt.fc[y] := dt.fc[y] + 1;
      assert dt.fc[..30] == g0[y := g0[y] + 1];
    }
    full := lastLit == dBuf.Length - 1;
  }
}
