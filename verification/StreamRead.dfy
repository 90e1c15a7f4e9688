/** A stream of blocks, seen from its first bit: what the blocks sent so far mean to inflate, whatever is sent after
    them. */
module StreamRead {
  import opened Wrappers
  import opened Kraft
  import opened CanonicalCode
  import opened GenCodes
  import opened BlockCode
  import opened BlockHeader
  import opened TableCode
  import opened InflateStep
  import opened InflateRead
  import B = BitReader
  import A = Adler32
  import F = FixedCodes

  /** However a stream of whole bytes goes on after `bits`, inflate comes to the next block header with the output
      `out`. */
  ghost predicate Means(c: Config, bits: seq<bool>, last: bool, out: seq<Octet>)
  {
    forall f: seq<bool> | (|bits| + |f|) % 8 == 0 :: Reaches(c, First(bits + f), State(Type, last, f, out))
  }

  lemma MeansNothing(c: Config)
    ensures Means(c, [], false, [])
  {
    hide Reaches;
    var none: seq<bool> := [];
    forall f: seq<bool> | (|none| + |f|) % 8 == 0
      ensures Reaches(c, First(none + f), State(Type, false, f, []))
    {
      assert none + f == f;
      ReachesSelf(c, First(f));
    }
  }

  /** From header to header: what one block adds. */
  ghost predicate BlockMeans(c: Config, bits: seq<bool>, block: seq<bool>, last: bool, out: seq<Octet>,
                             more: seq<Octet>)
  {
    forall f: seq<bool> | (|bits| + |block| + |f|) % 8 == 0 ::
      Reaches(c, State(Type, false, block + f, out), State(Type, last, f, more))
  }

  lemma MeansAt(c: Config, bits: seq<bool>, last: bool, out: seq<Octet>, f: seq<bool>)
    requires Means(c, bits, last, out) && (|bits| + |f|) % 8 == 0
    ensures Reaches(c, First(bits + f), State(Type, last, f, out))
  {
    hide Reaches, First;
  }

  lemma BlockMeansAt(c: Config, bits: seq<bool>, block: seq<bool>, last: bool, out: seq<Octet>, more: seq<Octet>,
                     f: seq<bool>)
    requires BlockMeans(c, bits, block, last, out, more) && (|bits| + |block| + |f|) % 8 == 0
    ensures Reaches(c, State(Type, false, block + f, out), State(Type, last, f, more))
  {
    hide Reaches;
  }

  lemma MeansOne(c: Config, bits: seq<bool>, block: seq<bool>, last: bool, out: seq<Octet>, more: seq<Octet>,
                 f: seq<bool>)
    requires Means(c, bits, false, out) && BlockMeans(c, bits, block, last, out, more)
    requires (|bits + block| + |f|) % 8 == 0
    ensures Reaches(c, First(bits + block + f), State(Type, last, f, more))
  {
    hide Reaches, First, Means, BlockMeans;
    assert bits + block + f == bits + (block + f);
    MeansAt(c, bits, false, out, block + f);
    BlockMeansAt(c, bits, block, last, out, more, f);
    ReachesTrans(c, First(bits + (block + f)), State(Type, false, block + f, out), State(Type, last, f, more));
  }

  lemma MeansMore(c: Config, bits: seq<bool>, block: seq<bool>, last: bool, out: seq<Octet>, more: seq<Octet>)
    requires Means(c, bits, false, out) && BlockMeans(c, bits, block, last, out, more)
    ensures Means(c, bits + block, last, more)
  {
    hide Reaches, First, BlockMeans;
    forall f: seq<bool> | (|bits + block| + |f|) % 8 == 0
      ensures Reaches(c, First(bits + block + f), State(Type, last, f, more))
    {
      MeansOne(c, bits, block, last, out, more, f);
    }
  }

  // -- Block headers --------------------------------------------------------------------------------------------

  /** The kinds of blocks as sent. */
  const STORED_BLOCK: nat := 0
  const STATIC_TREES: nat := 1
  const DYN_TREES: nat := 2

  function HeadValue(kind: nat, last: bool): nat { 2 * kind + if last then 1 else 0 }

  lemma HeadBits(kind: nat, last: bool)
    requires kind <= 2
    ensures HeadValue(kind, last) < Pow2(3)
    ensures var b := Bits(HeadValue(kind, last), 3); b[0] == last && FromBits(b[1..3]) == kind
  {
    var v := HeadValue(kind, last);
    assert Pow2(3) == 8 && Pow2(2) == 4;
    assert v / 2 == kind && (v % 2 == 1) == last;
    assert Bits(v, 3) == [v % 2 == 1] + Bits(v / 2, 2);
    assert Bits(v, 3)[1..3] == Bits(kind, 2);
    FromToBits(kind, 2);
  }

  lemma HeadRuns(c: Config, kind: nat, last: bool, s: seq<bool>, out: seq<Octet>)
    requires kind <= 2
    ensures Reaches(c, State(Type, false, Bits(HeadValue(kind, last), 3) + s, out),
                    State(BlockMode(kind), last, s, out))
  {
    var head := Bits(HeadValue(kind, last), 3);
    var a := State(Type, false, head + s, out);
    HeadBits(kind, last);
    IsType(c, a);
    hide Step, Reaches, BlockMode, Bits, FromBits, HeadValue;
    assert (head + s)[1..3] == head[1..3] && (head + s)[3..] == s && (head + s)[0] == head[0];
    ReachesStep(c, a);
  }

  // -- The three kinds of blocks --------------------------------------------------------------------------------

  /** A block with dynamic trees. */
  lemma DynamicMeans(c: Config, bits: seq<bool>, body: seq<bool>, last: bool, out: seq<Octet>, tokens: seq<Token>)
    requires forall rest: seq<bool> :: ReadBlock(body + rest) == Some((tokens, rest))
    requires Fitting(c.wsize, out, tokens)
    ensures BlockMeans(c, bits, Bits(HeadValue(DYN_TREES, last), 3) + body, last, out, Expand(out, tokens))
  {
    hide Reaches, ReadHeader, ReadBody, Fitting, Expand, ReadBlock, BlockMode, Bits, HeadValue;
    var head := Bits(HeadValue(DYN_TREES, last), 3);
    forall f: seq<bool> | (|bits| + |head + body| + |f|) % 8 == 0
      ensures Reaches(c, State(Type, false, head + body + f, out), State(Type, last, f, Expand(out, tokens)))
    {
      assert head + body + f == head + (body + f);
      HeadRuns(c, DYN_TREES, last, body + f, out);
      TableMode();
      BlockRuns(c, last, body + f, out);
      ReachesTrans(c, State(Type, false, head + (body + f), out), State(BlockMode(DYN_TREES), last, body + f, out),
                   State(Type, last, f, Expand(out, tokens)));
    }
  }

  lemma TableMode()
    ensures BlockMode(DYN_TREES) == Mode.Table && BlockMode(STATIC_TREES) == Len(FixedTrees())
            && BlockMode(STORED_BLOCK) == Stored
  {
  }

  /** A block with the fixed codes. */
  lemma StaticMeans(c: Config, bits: seq<bool>, body: seq<bool>, last: bool, out: seq<Octet>, tokens: seq<Token>)
    requires forall rest: seq<bool> :: ReadBody(F.FixedLit(), F.FixedDist(), body + rest) == Some((tokens, rest))
    requires Fitting(c.wsize, out, tokens)
    ensures BlockMeans(c, bits, Bits(HeadValue(STATIC_TREES, last), 3) + body, last, out, Expand(out, tokens))
  {
    hide Reaches, ReadBody, Fitting, Expand, BlockMode, Bits, HeadValue, F.FixedLit, F.FixedDist;
    var head := Bits(HeadValue(STATIC_TREES, last), 3);
    forall f: seq<bool> | (|bits| + |head + body| + |f|) % 8 == 0
      ensures Reaches(c, State(Type, false, head + body + f, out), State(Type, last, f, Expand(out, tokens)))
    {
      assert head + body + f == head + (body + f);
      HeadRuns(c, STATIC_TREES, last, body + f, out);
      TableMode();
      BodyRuns(c, FixedTrees(), last, body + f, out);
      ReachesTrans(c, State(Type, false, head + (body + f), out), State(BlockMode(STATIC_TREES), last, body + f, out),
                   State(Type, last, f, Expand(out, tokens)));
    }
  }

  /** A stored block: after zeros up to the next byte, the length, its complement, and the bytes. */
  function StoredBits(pad: nat, bytes: seq<Octet>): seq<bool> {
    Zeros(pad) + Bits(|bytes|, 16) + Bits(if |bytes| <= 0xffff then 0xffff - |bytes| else 0, 16) + B.Stream(bytes)
  }

  lemma Short16()
    ensures Pow2(16) == 65536
  {
    assert Pow2(4) == 16 && Pow2(8) == 16 * Pow2(4) && Pow2(12) == 16 * Pow2(8) && Pow2(16) == 16 * Pow2(12);
  }

  /** To the byte boundary. */
  lemma PadRuns(c: Config, last: bool, pad: nat, s: seq<bool>, out: seq<Octet>)
    requires pad < 8 && |s| % 8 == 0
    ensures Reaches(c, State(Stored, last, Zeros(pad) + s, out), State(Stored, last, s, out))
  {
    hide Step, Reaches, Zeros, FromBits;
    var a := State(Stored, last, Zeros(pad) + s, out);
    assert |Zeros(pad) + s| % 8 == pad && (Zeros(pad) + s)[pad..] == s;
    IsStored(c, a);
    if pad == 0 {
      assert Zeros(pad) + s == s;
      ReachesSelf(c, a);
    } else {
      ReachesStep(c, a);
    }
  }

  /** The length and its complement. */
  lemma LengthRuns(c: Config, last: bool, n: nat, rest: seq<bool>, out: seq<Octet>)
    requires n <= 0xffff && |rest| % 8 == 0
    ensures Reaches(c, State(Stored, last, Bits(n, 16) + Bits(0xffff - n, 16) + rest, out),
                    State(Copy(n), last, rest, out))
  {
    hide Step, Reaches, Bits, FromBits, Pow2;
    var s := Bits(n, 16) + Bits(0xffff - n, 16) + rest;
    var b := State(Stored, last, s, out);
    Short16();
    FromToBits(n, 16);
    FromToBits(0xffff - n, 16);
    assert s[..16] == Bits(n, 16) && s[16..32] == Bits(0xffff - n, 16) && s[32..] == rest;
    IsStored(c, b);
    ReachesStep(c, b);
  }

  /** The bytes. */
  lemma BytesRun(c: Config, last: bool, bytes: seq<Octet>, f: seq<bool>, out: seq<Octet>)
    ensures Reaches(c, State(Copy(|bytes|), last, B.Stream(bytes) + f, out), State(Type, last, f, out + bytes))
  {
    hide Step, Reaches, B.Stream;
    var d, e := State(Copy(|bytes|), last, B.Stream(bytes) + f, out), State(Copy(0), last, f, out + bytes);
    CopySteps(c, d, bytes, f);
    IsCopy(c, e);
    ReachesStep(c, e);
    ReachesTrans(c, d, e, Step(c, e));
  }

  lemma StoredRuns(c: Config, last: bool, pad: nat, bytes: seq<Octet>, f: seq<bool>, out: seq<Octet>)
    requires pad < 8 && |bytes| <= 0xffff && |f| % 8 == 0
    ensures Reaches(c, State(Stored, last, StoredBits(pad, bytes) + f, out), State(Type, last, f, out + bytes))
  {
    hide Reaches, B.Stream, Bits, Zeros;
    var n, m, data := Bits(|bytes|, 16), Bits(0xffff - |bytes|, 16), B.Stream(bytes);
    var s := n + m + (data + f);
    B.StreamSize(bytes);
    assert StoredBits(pad, bytes) + f == Zeros(pad) + s;
    PadRuns(c, last, pad, s, out);
    LengthRuns(c, last, |bytes|, data + f, out);
    BytesRun(c, last, bytes, f, out);
    ReachesTrans(c, State(Stored, last, Zeros(pad) + s, out), State(Stored, last, s, out),
                 State(Copy(|bytes|), last, data + f, out));
    ReachesTrans(c, State(Stored, last, Zeros(pad) + s, out), State(Copy(|bytes|), last, data + f, out),
                 State(Type, last, f, out + bytes));
  }

  lemma StoredMeans(c: Config, bits: seq<bool>, last: bool, pad: nat, bytes: seq<Octet>, out: seq<Octet>)
    requires pad < 8 && |bytes| <= 0xffff && (|bits| + 3 + pad) % 8 == 0
    ensures BlockMeans(c, bits, Bits(HeadValue(STORED_BLOCK, last), 3) + StoredBits(pad, bytes), last, out, out + bytes)
  {
    hide Reaches, BlockMode, Bits, HeadValue, B.Stream;
    hide StoredBits;
    var head, body := Bits(HeadValue(STORED_BLOCK, last), 3), StoredBits(pad, bytes);
    StoredSize(pad, bytes);
    forall f: seq<bool> | (|bits| + |head + body| + |f|) % 8 == 0
      ensures Reaches(c, State(Type, false, head + body + f, out), State(Type, last, f, out + bytes))
    {
      assert head + body + f == head + (body + f);
      WholeBytes(|bits|, pad, |bytes|, |f|);
      HeadRuns(c, STORED_BLOCK, last, body + f, out);
      TableMode();
      StoredRuns(c, last, pad, bytes, f, out);
      ReachesTrans(c, State(Type, false, head + (body + f), out), State(BlockMode(STORED_BLOCK), last, body + f, out),
                   State(Type, last, f, out + bytes));
    }
  }

  lemma WholeBytes(n: nat, pad: nat, k: nat, m: nat)
    requires (n + 3 + pad) % 8 == 0 && (n + (3 + (pad + 32 + 8 * k)) + m) % 8 == 0
    ensures m % 8 == 0
  {
  }

  lemma StoredSize(pad: nat, bytes: seq<Octet>)
    ensures |StoredBits(pad, bytes)| == pad + 32 + 8 * |bytes|
  {
    B.StreamSize(bytes);
  }

  // -- The end of the stream ------------------------------------------------------------------------------------

  /** After the last block: fewer than eight bits up to the end of a byte, and the trailer if there is one. */
  lemma EndRuns(c: Config, pad: seq<bool>, trailer: seq<bool>, out: seq<Octet>)
    requires |pad| < 8 && if c.wrap then |trailer| == 32 && Trailer(trailer) == A.Adler(out) else trailer == []
    ensures Reaches(c, State(Type, true, pad + trailer, out), State(Done, true, [], out))
  {
    hide Step, Reaches, A.Adler, FromBits, Trailer;
    var a := State(Type, true, pad + trailer, out);
    IsType(c, a);
    ReachesStep(c, a);
    assert (pad + trailer)[|pad + trailer| % 8..] == trailer;
    var b := State(Check, true, trailer, out);
    IsCheck(c, b);
    ReachesStep(c, b);
    assert c.wrap ==> trailer[32..] == [];
    assert Step(c, b) == State(Done, true, [], out);
    ReachesTrans(c, a, b, Step(c, b));
  }
}
