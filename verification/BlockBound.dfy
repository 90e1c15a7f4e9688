/** How long a block can be: no more than nine bits for each byte it stands for, and a few more. */
module BlockBound {
  import opened Kraft
  import opened BlockTables
  import opened BlockCode
  import opened DynamicBlock
  import I = InflateRead
  import A = Adler32

  type Octet = A.Octet

  /** How many bytes a token stands for. */
  function Grows(t: Token): nat { if t.Match? then t.length else 1 }

  function AllGrow(tokens: seq<Token>): nat {
    if tokens == [] then 0 else AllGrow(tokens[..|tokens| - 1]) + Grows(tokens[|tokens| - 1])
  }

  // -- Tokens with the static trees -----------------------------------------------------------------------------

  lemma SentSizes(x: nat)
    ensures x < 286 ==> |Sent(StaticLL(), x)| == FixedLength(x)
    ensures x < 30 ==> |Sent(StaticDL(), x)| == 5
  {
  }

  lemma ExtraSizes(length: nat, dist: nat)
    ensures |LengthBits(length)| == LengthXBits(LengthCode(if length > 3 then length - 3 else 0))
    ensures |DistBits(dist)| <= 13
  {
    hide LengthExtra, DistExtra, LengthCode, DistCode;
  }

  lemma FirstLength()
    ensures LengthCode(0) == 0
  {
    LengthRange(0);
    LengthBases(1);
    assert LengthFirst(1) == 1 by { assert Pow2(0) == 1; }
    hide LengthCode;
    if LengthCode(0) > 0 { FirstsGrow(1, LengthCode(0)); }
  }

  lemma {:induction false} FirstsGrow(b: nat, c: nat)
    requires b <= c
    ensures LengthFirst(b) <= LengthFirst(c)
    decreases c
  {
    if b < c { FirstsGrow(b, c - 1); }
  }

  /** No token takes more than nine bits for a byte. */
  lemma TokenCost(t: Token)
    requires Good(t)
    ensures |TokenBits(t, StaticLL(), StaticDL())| <= 9 * Grows(t)
  {
    hide Sent, StaticLL, StaticDL, LengthBits, DistBits, LengthCode, DistCode;
    match t
    case Literal(b) => SentSizes(b);
    case Match(length, dist) =>
      FirstLength();
      SentSizes(LitSymbol(t));
      SentSizes(DistSymbol(t));
      ExtraSizes(length, dist);
  }

  lemma {:induction false} TokensCost(tokens: seq<Token>)
    requires forall i | 0 <= i < |tokens| :: Good(tokens[i])
    ensures |TokensBits(tokens, StaticLL(), StaticDL())| <= 9 * AllGrow(tokens) && |tokens| <= AllGrow(tokens)
  {
    hide TokenBits, StaticLL, StaticDL;
    if tokens != [] {
      TokensCost(tokens[..|tokens| - 1]);
      TokenCost(tokens[|tokens| - 1]);
    }
  }

  lemma BodyCost(tokens: seq<Token>)
    requires forall i | 0 <= i < |tokens| :: Good(tokens[i])
    ensures |BodyBits(tokens, StaticLL(), StaticDL())| <= 9 * AllGrow(tokens) + 7 && |tokens| <= AllGrow(tokens)
  {
    hide TokensBits, StaticLL, StaticDL, Sent;
    TokensCost(tokens);
    SentSizes(END_BLOCK);
  }

  // -- What tokens expand to --------------------------------------------------------------------------------------

  lemma {:induction false} AllGrowFirst(tokens: seq<Token>)
    requires tokens != []
    ensures AllGrow(tokens) == Grows(tokens[0]) + AllGrow(tokens[1..])
    decreases |tokens|
  {
    var n := |tokens| - 1;
    if n > 0 {
      AllGrowFirst(tokens[..n]);
      assert tokens[..n][1..] == tokens[1..][..n - 1];
    } else {
      assert tokens[..0] == [] == tokens[1..];
    }
  }

  lemma OneGrows(wsize: nat, out: seq<Octet>, t: Token)
    requires Good(t) && I.FitsOne(wsize, out, t)
    ensures |I.ExpandOne(out, t)| == |out| + Grows(t)
  {
    if t.Match? { I.CopiedSize(out, t.length, t.dist); }
  }

  lemma {:induction false} ExpandSize(wsize: nat, out: seq<Octet>, tokens: seq<Token>)
    requires (forall i | 0 <= i < |tokens| :: Good(tokens[i])) && I.Fitting(wsize, out, tokens)
    ensures |I.Expand(out, tokens)| == |out| + AllGrow(tokens)
    decreases |tokens|
  {
    hide I.ExpandOne, I.FitsOne, AllGrow;
    if tokens == [] {
      NoneGrow();
    } else {
      OneGrows(wsize, out, tokens[0]);
      AllGrowFirst(tokens);
      ExpandSize(wsize, I.ExpandOne(out, tokens[0]), tokens[1..]);
    }
  }

  lemma NoneGrow()
    ensures AllGrow([]) == 0
  {
  }

  // -- Blocks -----------------------------------------------------------------------------------------------------

  /** The bits of a block that stands for n bytes, and those of any block that stands for as many as a full one does. */
  predicate Short(bits: int, n: int) { bits <= 9 * n + 27 && (n >= 32 ==> bits <= 9 * n + 10) }

  /** Whatever form is chosen by the rules of _tr_flush_block. */
  lemma FormShort(choice: nat, optLen: int, staticLen: int, n: nat, bits: int, fixed: bool, stored: bool)
    requires 0 <= staticLen <= 9 * n + 7
    requires bits <= if choice == 0 then 42 + 8 * n else if choice == 1 then 3 + staticLen else 3 + optLen
    requires choice == 0 ==> n + 4 <= (staticLen + 10) / 8
    requires choice != 0 && choice != 1 ==> (optLen + 10) / 8 < (staticLen + 10) / 8
    ensures Short(bits, n)
  {
  }
}
