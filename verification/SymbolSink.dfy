/** Where the symbols found in the input go: collected, sent in blocks, and the bytes delivered as there is space for
    them. */
module SymbolSink {
  import opened Kraft
  import opened GenCodes
  import opened BlockCode
  import opened BlockWriter
  import opened StreamRead
  import opened FlushBlock
  import opened BlockBound
  import opened TokenCoder
  import opened Trailer
  import S = InflateStep
  import I = InflateRead
  import W = BitWriter
  import C = TableCode
  import A = Adler32
  import B = BitReader

  type Octet = A.Octet

  // -- Tokens in sequence ---------------------------------------------------------------------------------------

  lemma {:induction false} ExpandConcat(out: seq<Octet>, a: seq<Token>, b: seq<Token>)
    ensures I.Expand(out, a + b) == I.Expand(I.Expand(out, a), b)
    decreases |a|
  {
    hide I.ExpandOne;
    if a == [] {
      assert a + b == b;
    } else {
      assert (a + b)[0] == a[0] && (a + b)[1..] == a[1..] + b;
      ExpandConcat(I.ExpandOne(out, a[0]), a[1..], b);
    }
  }

  lemma {:induction false} FittingConcat(wsize: nat, out: seq<Octet>, a: seq<Token>, b: seq<Token>)
    ensures I.Fitting(wsize, out, a + b) <==> I.Fitting(wsize, out, a) && I.Fitting(wsize, I.Expand(out, a), b)
    decreases |a|
  {
    hide I.ExpandOne, I.FitsOne;
    if a == [] {
      assert a + b == b;
    } else {
      assert (a + b)[0] == a[0] && (a + b)[1..] == a[1..] + b;
      FittingConcat(wsize, I.ExpandOne(out, a[0]), a[1..], b);
    }
  }

  lemma OneToken(wsize: nat, out: seq<Octet>, t: Token)
    ensures I.Expand(out, [t]) == I.ExpandOne(out, t) && (I.Fitting(wsize, out, [t]) <==> I.FitsOne(wsize, out, t))
  {
    hide I.ExpandOne, I.FitsOne;
    assert [t][1..] == [];
  }

  /** One more token. */
  lemma TokenMore(wsize: nat, out: seq<Octet>, tokens: seq<Token>, t: Token)
    requires I.Fitting(wsize, out, tokens) && I.FitsOne(wsize, I.Expand(out, tokens), t)
    ensures I.Fitting(wsize, out, tokens + [t]) && I.Expand(out, tokens + [t]) == I.ExpandOne(I.Expand(out, tokens), t)
  {
    hide I.ExpandOne, I.FitsOne, I.Fitting, I.Expand;
    ExpandConcat(out, tokens, [t]);
    FittingConcat(wsize, out, tokens, [t]);
    OneToken(wsize, I.Expand(out, tokens), t);
  }

  /** A symbol as _tr_tally takes it. */
  function DistOf(t: Token): nat { if t.Match? then t.dist else 0 }

  function LcOf(t: Token): nat { if t.Literal? then t.byte else if t.length > 3 then t.length - 3 else 0 }

  lemma TalliedIs(t: Token)
    requires Good(t)
    ensures Tallied(DistOf(t), LcOf(t)) == t
  {
  }

  /** Nine bits for a byte, ten for each full block of 127 symbols or more, and what else is allowed. */
  predicate Allowed(bits: nat, bytes: nat, extra: nat) { 127 * bits <= 1153 * bytes + 127 * extra }

  lemma AllowedMore(bits: nat, bytes: nat, extra: nat, block: nat, n: nat, full: bool)
    requires Allowed(bits, bytes, extra) && Short(block, n) && (full ==> n >= 127)
    ensures Allowed(bits + block, bytes + n, if full then extra else extra + 27)
  {
  }

  /** What the blocks sent and the symbols collected stand for, and what has been delivered of the stream. */
  ghost predicate Settled(cfg: S.Config, start: seq<Octet>, plain: seq<Octet>, tokens: seq<Token>, bits: seq<bool>,
                          ended: bool, stream: seq<bool>,
                        pad: nat, tail: seq<bool>, output: seq<Octet>, sent: nat, left: nat, extra: nat)
  {
    && I.Fitting(cfg.wsize, start, tokens) && I.Expand(start, tokens) == plain
    && Means(cfg, bits, ended, start) && stream == bits + C.Zeros(pad) + tail && pad < 8
    && W.Flat(output) <= stream && sent == |output| && Allowed(|bits|, |start|, extra)
    && if ended then start == plain && left == 0 else pad == 0 && tail == []
  }

  lemma NotEnded(cfg: S.Config, start: seq<Octet>, plain: seq<Octet>, tokens: seq<Token>, bits: seq<bool>,
                 stream: seq<bool>,
                 pad: nat, tail: seq<bool>, output: seq<Octet>, sent: nat, left: nat, extra: nat)
    requires Settled(cfg, start, plain, tokens, bits, false, stream, pad, tail, output, sent, left, extra)
    ensures pad == 0 && tail == [] && I.Expand(start, tokens) == plain && stream == bits
            && Means(cfg, stream, false, start)
  {
    hide I.Expand, I.Fitting, Means, C.Zeros, W.Flat, Allowed;
    Bare(bits, 0);
  }

  /** After a block. */
  lemma BlockSent(cfg: S.Config, start: seq<Octet>, plain: seq<Octet>, tokens: seq<Token>, bits: seq<bool>,
                  stream: seq<bool>,
                  output: seq<Octet>, sent: nat, left: nat, extra: nat, block: seq<bool>, pad: nat, last: bool,
                    stream': seq<bool>, left': nat, full: bool)
    requires Settled(cfg, start, plain, tokens, bits, false, stream, 0, [], output, sent, left, extra)
    requires pad < 8 && stream' == stream + block + C.Zeros(pad) && (if last then left' == 0 else pad == 0)
    requires Means(cfg, stream, false, start) && I.Fitting(cfg.wsize, start, tokens)
             ==> Means(cfg, stream + block, last, I.Expand(start, tokens))
    requires I.Fitting(cfg.wsize, start, tokens) ==> Short(|block|, |I.Expand(start, tokens)| - |start|)
    requires |plain| >= |start| && (full ==> |plain| >= |start| + 127)
    ensures Settled(cfg, plain, plain, [], bits + block, last, stream', pad, [], output, sent, left', if full then extra
                    else extra + 27)
  {
    hide I.Expand, I.Fitting, Means, C.Zeros, W.Flat, Short, Allowed;
    Bare(bits, 0);
    Bare(bits + block, pad);
    Nothing(cfg.wsize, plain, []);
    AllowedMore(|bits|, |start|, extra, |block|, |plain| - |start|, full);
  }

  class Sink {
    const c: Coder
    ghost const cfg: S.Config

    /** What the blocks sent stand for, and what they and the symbols collected since stand for. */
    ghost var start: seq<Octet>
    ghost var plain: seq<Octet>

    /** The blocks sent, the zeros after the last, and the trailer. */
    ghost var bits: seq<bool>
    ghost var pad: nat
    ghost var tail: seq<bool>
    ghost var ended: bool

    /** The bits allowed for blocks that are not full, and for markers. */
    ghost var extra: nat

    /** How many bytes have been delivered, and which. */
    var sent: nat
    ghost var output: seq<Octet>

    ghost predicate Valid()
      reads this`start, this`plain, this`bits, this`pad, this`tail, this`ended, this`extra, this`sent, this`output, c,
            c.s, c.w, c.lt.fc, c.dt.fc, c.bt.fc, c.slt.fc, c.slt.dl, c.sdt.fc, c.sdt.dl
      reads c.dBuf, c.lBuf, c.tb.lengthCode, c.tb.baseLength, c.tb.distCode, c.tb.baseDist
    {
      c.Valid() && Settled(cfg, start, plain, c.Tokens(), bits, ended, c.w.Stream(), pad, tail, output, sent,
                           c.w.biValid, extra)
    }

    /** There is room for another symbol. */
    predicate Room()
      reads c`lastLit
    {
      c.lastLit < c.dBuf.Length - 1
    }

    /** A sink for any stream that inflate is to read with the configuration cfg. */
    constructor (c: Coder, ghost cfg: S.Config)
      requires c.Valid() && c.Tokens() == [] && c.w.Stream() == []
      ensures Valid() && start == plain == [] && tail == [] && !ended && this.c == c && this.cfg == cfg && output == []
              && extra == 0
    {
      hide Coder.Valid, Coder.Tokens, Means, W.Writer.Stream;
      this.c, this.cfg := c, cfg;
      start, plain, bits, pad, tail, ended, sent, output, extra := [], [], [], 0, [], false, 0, [], 0;
      new;
      MeansNothing(cfg);
      assert bits + C.Zeros(0) + tail == [];
    }

    /** One more symbol. */
    method Tally(t: Token) returns (full: bool)
      requires Valid() && !ended && Room() && Good(t) && I.FitsOne(cfg.wsize, plain, t)
      modifies this`plain, c`lastLit, c.dBuf, c.lBuf, c.lt.fc, c.dt.fc
      ensures Valid() && plain == I.ExpandOne(old(plain), t) && full == !Room() && c.lastLit == old(c.lastLit) + 1
    {
      hide Coder.Valid, Coder.Wired, Coder.Tokens, I.Expand, I.Fitting, I.FitsOne, I.ExpandOne, Means, W.Writer.Stream,
           C.Zeros, Good, Tallied, DistOf, LcOf;
      TalliedIs(t);
      TokenMore(cfg.wsize, start, c.Tokens(), t);
      full := c.Tally(DistOf(t), LcOf(t));
      plain := I.ExpandOne(plain, t);
    }

    /** FLUSH_BLOCK_ONLY, without the delivery; `at` is where the input since the last block lies in `buf`, if it is
        there. */
    method SendBlock(buf: array?<Octet>, at: Slice, fixed: bool, last: bool)
      requires Valid() && !ended && (buf != null ==> at.from + at.length <= buf.Length && at.length <= 0xffff)
      requires buf != null ==> plain == start + buf[at.from..at.from + at.length]
      modifies this`start, this`bits, this`pad, this`ended, this`extra
      modifies c`lastLit, c.w, c.s, c.s.heap, c.s.depth, c.s.blCount, c.lt.fc, c.lt.dl, c.lt`maxCode, c.dt.fc, c.dt.dl,
               c.dt`maxCode
      modifies c.bt.fc, c.bt.dl, c.bt`maxCode
      ensures Valid() && start == plain && ended == last && tail == [] && c.lastLit == 0
              && (c.dBuf.Length > 1 ==> Room())
      ensures old(extra) <= extra <= old(extra) + 27 && (old(c.lastLit) >= 127 ==> extra == old(extra))
    {
      hide Coder.Valid, Coder.Wired, Coder.Tokens, I.Expand, I.Fitting, Means, W.Writer.Stream, W.Writer.Valid, C.Zeros,
           W.Flat, Short, Settled;
      TokensGrow();
      NotEnded(cfg, start, plain, c.Tokens(), bits, c.w.Stream(), pad, tail, output, sent, c.w.biValid, extra);
      ghost var full, tokens, stream, left := c.lastLit >= 127, c.Tokens(), c.w.Stream(), c.w.biValid;
      ghost var block;
      block, pad := c.FlushBlock(buf, at, fixed, last, cfg, start);
      BlockSent(cfg, start, plain, tokens, bits, stream, output, sent, left, extra, block, pad, last, c.w.Stream(),
                c.w.biValid, full);
      ghost var stream', left' := c.w.Stream(), c.w.biValid;
      bits, ended, start := bits + block, last, plain;
      extra := if full then extra else extra + 27;
      assert c.Tokens() == [] && c.w.Stream() == stream' && c.w.biValid == left' && tail == [];
      assert Settled(cfg, start, plain, [], bits, ended, stream', pad, tail, output, sent, left', extra);
      assert c.Valid();
    }

    /** Each symbol collected stands for a byte at least. */
    lemma TokensGrow()
      requires Valid()
      ensures c.lastLit <= |plain| - |start|
    {
      hide Means, W.Writer.Stream, C.Zeros, W.Flat, I.Expand, I.Fitting, Allowed, Good;
      c.Collected();
      BodyCost(c.Tokens());
      ExpandSize(cfg.wsize, start, c.Tokens());
    }

    /** The whole stream is not much longer than what it stands for. */
    lemma Bounded()
      requires Valid()
      ensures 127 * |c.w.Stream()| <= 1153 * |start| + 127 * (extra + 7 + |tail|)
    {
      hide Coder.Valid, Coder.Tokens, Means, I.Expand, I.Fitting, W.Writer.Stream, C.Zeros, W.Flat;
    }

    /** The marker of a flush. */
    method SendEmpty(buf: array<Octet>)
      requires Valid() && !ended && c.lastLit == 0
      modifies this`bits, this`extra, c.w
      ensures Valid() && !ended && extra == old(extra) + 42
    {
      hide Coder.Valid, Coder.Tokens, Means, I.Expand, I.Fitting, W.Writer.Stream, C.Zeros, W.Flat;
      Bare(bits, 0);
      ghost var block := c.EmptyStored(buf, cfg, start);
      bits, extra := bits + block, extra + 42;
      Bare(bits, 0);
    }

    /** _tr_align */
    method SendAlign()
      requires Valid() && !ended && c.lastLit == 0
      modifies this`bits, this`extra, c.w
      ensures Valid() && !ended && extra == old(extra) + 42
    {
      hide Coder.Valid, Coder.Tokens, Means, I.Expand, I.Fitting, W.Writer.Stream, C.Zeros, W.Flat;
      Bare(bits, 0);
      ghost var block := c.Align(cfg, start);
      bits, extra := bits + block, extra + 42;
      Bare(bits, 0);
    }

    /** The trailer, once the last block has been sent. */
    method PutTrailer(check: nat)
      requires Valid() && ended && tail == [] && check < A.VALUES
      modifies this`tail, c.w
      ensures Valid() && ended && tail == B.Stream(TrailerOf(check))
    {
      hide Coder.Valid, Coder.Tokens, Means, I.Expand, I.Fitting, W.Writer.Stream, C.Zeros, W.Flat, TrailerOf, B.Stream;
      TrailerReads(check);
      B.StreamIsFlat(TrailerOf(check));
      c.PutBytes(TrailerOf(check));
      tail := B.Stream(TrailerOf(check));
      assert bits + C.Zeros(pad) + [] + tail == bits + C.Zeros(pad) + tail;
    }

    /** What has been delivered when there is nothing left. */
    lemma AllDelivered()
      requires Valid() && ended && 8 * |output| + 8 > |c.w.Stream()|
      requires if cfg.wrap then |tail| == 32 && S.Trailer(tail) == A.Adler(plain) else tail == []
      ensures Inflates(cfg, output, plain)
    {
      hide Coder.Valid, Coder.Tokens, Means, I.Expand, I.Fitting, W.Writer.Stream, C.Zeros, W.Flat, S.Trailer, A.Adler,
           B.Stream, Inflates;
      EvenBytes(c.w);
      W.FlatLength(output);
      B.StreamIsFlat(output);
      StreamInflates(cfg, output, bits, pad, tail, plain);
    }

    lemma OpenTail()
      requires Valid() && !ended
      ensures tail == []
    {
      hide Coder.Valid, Coder.Tokens, Means, I.Expand, I.Fitting, C.Zeros, W.Flat, W.Writer.Stream, Allowed;
    }

    lemma OutputFits()
      requires Valid()
      ensures 8 * |output| <= |c.w.Stream()|
    {
      hide Coder.Valid, Coder.Tokens, Means, I.Expand, I.Fitting, C.Zeros, W.Flat, W.Writer.Stream;
      W.FlatLength(output);
    }

    /** After the last block all bits are in whole bytes. */
    lemma Whole()
      requires Valid() && ended
      ensures sent == |output| <= |c.w.pending| && |c.w.Stream()| == 8 * |c.w.pending|
    {
      hide Coder.Valid, Coder.Tokens, Means, I.Expand, I.Fitting, C.Zeros, W.Flat, W.Writer.Stream;
      PendingSize(c.w);
      W.FlatLength(output);
    }

    /** Nothing collected since the last block. */
    lemma NoneCollected()
      requires Valid() && c.lastLit == 0
      ensures start == plain && c.Tokens() == []
    {
      hide Means, I.Fitting, Coder.Valid;
      Nothing(cfg.wsize, start, c.Tokens());
    }

    lemma BlockLimit()
      requires Valid()
      ensures c.lastLit < c.dBuf.Length <= 0xfffe
    {
    }

    lemma WriterValid()
      requires c.Valid()
      ensures c.w.Valid()
    {
    }

    /** flush_pending: as many bytes as there is space for. */
    method Deliver(availOut: nat) returns (out: seq<Octet>)
      requires Valid()
      modifies this`sent, this`output, c.w
      ensures Valid() && output == old(output) + out && |out| <= availOut && c.w.Stream() == old(c.w.Stream())
      ensures |out| < availOut ==> 8 * |output| + 8 > |c.w.Stream()|
    {
      hide I.Expand, I.Fitting, Means, W.Writer.Stream, W.Flat, C.Zeros, Coder.Tokens, Coder.Valid;
      c.FlushBits();
      WriterValid();
      Delivered(c.w, output);
      var len := |c.w.pending| - sent;
      if len > availOut { len := availOut; }
      out := c.w.pending[sent..sent + len];
      sent := sent + len;
      DeliveredMore(c.w, output, out);
      output := output + out;
    }
  }

  lemma PendingSize(w: W.Writer)
    ensures |w.Stream()| == 8 * |w.pending| + w.biValid
  {
    W.FlatLength(w.pending);
    hide W.Flat;
  }

  lemma EvenBytes(w: W.Writer)
    requires w.biValid == 0
    ensures |w.Stream()| % 8 == 0
  {
    W.FlatLength(w.pending);
    hide W.Flat;
  }

  /** No zeros, or nothing after them. */
  lemma Bare(bits: seq<bool>, pad: nat)
    ensures bits + C.Zeros(0) + [] == bits && bits + C.Zeros(pad) + [] == bits + C.Zeros(pad)
  {
  }

  lemma FlatPrefix(bytes: seq<nat>, n: nat)
    requires n <= |bytes|
    ensures W.Flat(bytes[..n]) <= W.Flat(bytes) && |W.Flat(bytes[..n])| == 8 * n
  {
    hide W.Flat;
    W.FlatConcat(bytes[..n], bytes[n..]);
    W.FlatLength(bytes[..n]);
    assert bytes == bytes[..n] + bytes[n..];
  }

  /** What has been delivered is the beginning of the bytes there are. */
  lemma Delivered(w: W.Writer, output: seq<Octet>)
    requires w.Valid() && w.biValid < 8 && W.Flat(output) <= w.Stream()
    ensures |output| <= |w.pending| && output == w.pending[..|output|] && W.AllBytes(w.pending)
    ensures 8 * |w.pending| + 8 > |w.Stream()|
  {
    hide W.Flat, Bits;
    W.FlatLength(output);
    W.FlatLength(w.pending);
    var n := |output|;
    FlatPrefix(w.pending, n);
    assert w.Stream()[..8 * n] == W.Flat(output);
    assert w.Stream()[..8 * n] == W.Flat(w.pending[..n]);
    FlatSame(output, w.pending[..n]);
  }

  lemma DeliveredMore(w: W.Writer, output: seq<Octet>, out: seq<Octet>)
    requires W.AllBytes(w.pending) && |output| + |out| <= |w.pending|
    requires output == w.pending[..|output|] && out == w.pending[|output|..|output| + |out|]
    ensures W.Flat(output + out) <= w.Stream()
  {
    hide W.Flat, Bits;
    FlatPrefix(w.pending, |output| + |out|);
    assert output + out == w.pending[..|output| + |out|];
  }

  lemma Nothing(wsize: nat, out: seq<Octet>, tokens: seq<Token>)
    requires tokens == []
    ensures I.Expand(out, tokens) == out && I.Fitting(wsize, out, tokens)
  {
  }

  lemma {:induction false} FlatSame(a: seq<nat>, b: seq<nat>)
    requires W.AllBytes(a) && W.AllBytes(b) && W.Flat(a) == W.Flat(b)
    ensures a == b
    decreases |a|
  {
    hide Bits;
    W.FlatLength(a);
    W.FlatLength(b);
    if a != [] {
      var n := |a| - 1;
      W.FlatLength(a[..n]);
      W.FlatLength(b[..n]);
      assert W.Flat(a)[..8 * n] == W.Flat(a[..n]) && W.Flat(b)[..8 * n] == W.Flat(b[..n]);
      FlatSame(a[..n], b[..n]);
      assert W.Flat(a)[8 * n..] == Bits(a[n], 8) && W.Flat(b)[8 * n..] == Bits(b[n], 8);
      BytesSame(a[n], b[n]);
      assert a == a[..n] + [a[n]] && b == b[..n] + [b[n]];
    }
  }

  lemma BytesSame(a: nat, b: nat)
    requires a < 256 && b < 256 && Bits(a, 8) == Bits(b, 8)
    ensures a == b
  {
    hide Bits, Pow2, FromBits;
    B.Byte256();
    FromToBits(a, 8);
    FromToBits(b, 8);
  }
}
