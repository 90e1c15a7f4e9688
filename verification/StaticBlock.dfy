/** The static trees of tr_static_init in trees.c, and blocks sent with them: the fixed codes of section 3.2.6 of RFC
    1951. */
module StaticBlock {
  import opened Wrappers
  import opened Kraft
  import opened CanonicalCode
  import opened GenCodes
  import opened BlockCode
  import opened FixedCodes
  import opened TreeWriter
  import opened DynamicBlock
  import B = BlockTables
  import H = HuffmanTree

  /** The 30 distance codes, all of five bits; the decoder has two more that no block uses. */
  function FixedDL(): (r: seq<nat>)
    ensures |r| == 30 && forall x | 0 <= x < 30 :: r[x] == 5
  {
    seq<nat>(30, _ => 5)
  }

  lemma {:induction false} NoneShorter(lens: seq<nat>, b: nat)
    requires (forall x | 0 <= x < |lens| :: lens[x] == 5) && b <= 5
    ensures FirstOf(lens, b) == 0
  {
    if b > 0 {
      NoneShorter(lens, b - 1);
      RankRun(lens, 0, |lens|, 5, b - 1);
    }
  }

  /** A distance code of five bits is its number. */
  lemma DistWord(lens: seq<nat>, d: nat)
    requires (forall x | 0 <= x < |lens| :: lens[x] == 5) && d < |lens|
    ensures CodeWord(lens, d) == Word(d, 5)
  {
    NoneShorter(lens, 5);
    RankRun(lens, 0, d, 5, 5);
  }

  lemma DistSame(d: nat)
    ensures d < 30 ==> Sent(FixedDL(), d) == Sent(FixedDist(), d)
  {
    if d < 30 {
      DistWord(FixedDL(), d);
      DistWord(FixedDist(), d);
    }
    hide CodeWord, FixedDL, FixedDist;
  }

  /** The decoder's two more distance codes make no difference. */
  lemma {:induction false} TokensSame(tokens: seq<Token>)
    requires forall i | 0 <= i < |tokens| :: Good(tokens[i])
    ensures TokensBits(tokens, FixedLit(), FixedDL()) == TokensBits(tokens, FixedLit(), FixedDist())
  {
    hide Sent, FixedLit, FixedDL, FixedDist;
    if tokens != [] {
      var t := tokens[|tokens| - 1];
      TokensSame(tokens[..|tokens| - 1]);
      DistIndex(t);
      DistSame(DistSymbol(t));
      hide LitSymbol, DistSymbol, LengthBits, DistBits;
    }
  }

  lemma DistIndex(t: Token)
    requires Good(t)
    ensures DistSymbol(t) < 30
  {
    hide B.LengthCode;
  }

  lemma FixedKnown(t: Token)
    requires Good(t)
    ensures Known(t, FixedLit(), FixedDist()) && Known(t, FixedLit(), FixedDL())
  {
    hide B.LengthCode, B.DistCode, FixedLit, FixedDist, FixedDL;
  }

  /** A block with the fixed codes reads back too. */
  lemma FixedRoundTrip(tokens: seq<Token>, rest: seq<bool>)
    requires forall i | 0 <= i < |tokens| :: Good(tokens[i])
    ensures ReadBody(FixedLit(), FixedDist(), BodyBits(tokens, FixedLit(), FixedDL()) + rest) == Some((tokens, rest))
  {
    hide Subscribed, Known, FixedLit, FixedDL, FixedDist, Good, CodeWord, TokensBits, ReadBody;
    FixedFits();
    TokensSame(tokens);
    forall i | 0 <= i < |tokens|
      ensures Known(tokens[i], FixedLit(), FixedDist())
    {
      FixedKnown(tokens[i]);
    }
    BodyRoundTrip(tokens, FixedLit(), FixedDist(), rest);
  }

  /** Its size is what static_len counts. */
  lemma {:induction false} TokensFixedSize(tokens: seq<Token>)
    requires forall i | 0 <= i < |tokens| :: Good(tokens[i])
    ensures |TokensBits(tokens, FixedLit(), FixedDL())| == |TokensBits(tokens, StaticLL(), StaticDL())|
  {
    if tokens != [] {
      var t := tokens[|tokens| - 1];
      TokensFixedSize(tokens[..|tokens| - 1]);
      TokenFixedSize(t);
      hide TokenBits, FixedLit, FixedDL, StaticLL, StaticDL;
    }
  }

  lemma StaticLengths(x: nat)
    ensures |StaticLL()| == 286 && (x < 286 ==> |Sent(StaticLL(), x)| == |Sent(FixedLit(), x)|)
    ensures |StaticDL()| == 30 && (x < 30 ==> |Sent(StaticDL(), x)| == |Sent(FixedDL(), x)|)
  {
    hide CodeWord;
  }

  lemma TokenFixedSize(t: Token)
    requires Good(t)
    ensures |TokenBits(t, FixedLit(), FixedDL())| == |TokenBits(t, StaticLL(), StaticDL())|
  {
    LitIndex(t);
    DistIndex(t);
    hide Sent, FixedLit, FixedDL, StaticLL, StaticDL, LitSymbol, DistSymbol, LengthBits, DistBits;
    StaticLengths(LitSymbol(t));
    StaticLengths(DistSymbol(t));
  }

  lemma LitIndex(t: Token)
    requires Good(t)
    ensures LitSymbol(t) < 286
  {
    hide B.DistCode;
  }

  lemma FixedSize(tokens: seq<Token>)
    requires forall i | 0 <= i < |tokens| :: Good(tokens[i])
    ensures |BodyBits(tokens, FixedLit(), FixedDL())| == |BodyBits(tokens, StaticLL(), StaticDL())|
  {
    hide Sent, FixedLit, FixedDL, StaticLL, StaticDL, TokensBits;
    TokensFixedSize(tokens);
    StaticLengths(END_BLOCK);
  }

  // -- tr_static_init -------------------------------------------------------------------------------------------

  /** The lengths from `from` to `to - 1`, counted. */
  method SetLengths(dl: array<nat>, blCount: array<nat>, from: nat, to: nat, len: nat)
    requires from <= to <= dl.Length && len < blCount.Length && dl != blCount
    modifies dl, blCount
    ensures forall x | 0 <= x < dl.Length :: dl[x] == if from <= x < to then len else old(dl[x])
    ensures forall b | 0 <= b < blCount.Length :: blCount[b] == old(blCount[b]) + if b == len then to - from else 0
  {
    var n := from;
    while n < to
      invariant from <= n <= to && forall x | 0 <= x < dl.Length :: dl[x] == if from <= x < n then len else old(dl[x])
      invariant forall b | 0 <= b < blCount.Length :: blCount[b] == old(blCount[b]) + if b == len then n - from else 0
    {
      dl[n] := len;
      blCount[len] := blCount[len] + 1;
      n := n + 1;
    }
  }

  /** static_ltree */
  method LiteralTree() returns (t: H.Tree)
    ensures fresh(t) && fresh(t.fc) && fresh(t.dl) && t.fc != t.dl && Holds(t.fc[..], t.dl[..], FixedLit())
  {
    hide LiteralStatic, Coded, FixedLit, Subscribed, Count;
    t := new H.Tree(LiteralStatic(), 288);
    var blCount := new nat[MAX_BITS + 1](_ => 0);
    SetLengths(t.dl, blCount, 0, 144, 8);
    SetLengths(t.dl, blCount, 144, 256, 9);
    SetLengths(t.dl, blCount, 256, 280, 7);
    SetLengths(t.dl, blCount, 280, 288, 8);
    assert t.dl[..288] == FixedLit();
    AllCounts(blCount[..]);
    FixedFits();
    Generate(t.fc, t.dl, 287, blCount[..], FixedLit());
    TreeHolds(t.fc[..], t.dl[..], FixedLit());
  }

  lemma TreeHolds(fc: seq<nat>, dl: seq<nat>, lens: seq<nat>)
    requires |lens| <= |fc| == |dl| && dl[..|lens|] == lens && forall x | 0 <= x < |lens| :: lens[x] <= MAX_BITS
    requires forall x | 0 <= x < |lens| && lens[x] > 0 :: Coded(lens, x, fc[x])
    ensures Holds(fc, dl, lens)
  {
  }

  lemma FixedFits()
    ensures Subscribed(FixedLit()) && Subscribed(FixedDist()) && Uses(FixedLit(), END_BLOCK)
    ensures forall x | 0 <= x < |FixedLit()| :: 0 < FixedLit()[x] <= MAX_BITS
  {
    hide Subscribed, FirstOf, Count;
    LitFull();
    DistFull();
  }

  lemma AllCounts(counts: seq<nat>)
    requires |counts| == MAX_BITS + 1
    requires forall b | 0 <= b <= MAX_BITS :: counts[b] == if b == 8 then 152 else if b == 9 then 112
             else if b == 7 then 24 else 0
    ensures CountsOf(FixedLit(), counts)
  {
    hide Count, FixedLit;
    forall b | 0 <= b <= MAX_BITS
      ensures counts[b] == Count(FixedLit(), b)
    {
      LitCounts(b);
    }
  }

  /** static_dtree */
  method DistTree() returns (t: H.Tree)
    ensures fresh(t) && fresh(t.fc) && fresh(t.dl) && t.fc != t.dl && Holds(t.fc[..], t.dl[..], FixedDL())
  {
    hide DistStatic, Coded, FixedDL, Bits, Word, Pow2, Holds;
    t := new H.Tree(DistStatic(), 30);
    for n := 0 to 30
      invariant forall x | 0 <= x < n :: t.dl[x] == 5 && Coded(FixedDL(), x, t.fc[x])
    {
      t.dl[n] := 5;
      var code := BiReverse(n, 5);
      DistCoded(n, code);
      t.fc[n] := code;
    }
    assert t.dl[..30] == FixedDL();
    TreeHolds(t.fc[..], t.dl[..], FixedDL());
  }

  lemma DistCoded(n: nat, code: nat)
    requires n < 30 && code < Pow2(5) && Bits(code, 5) == Word(n, 5)
    ensures Coded(FixedDL(), n, code)
  {
    DistWord(FixedDL(), n);
    hide Bits, Word, Pow2, CodeWord;
  }
}
