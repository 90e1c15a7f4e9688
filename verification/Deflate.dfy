/** deflate of deflate.c after the header: whatever input and space each call is given, the bytes delivered by the end
    are a stream of which inflate makes all of the input. */
module Deflate {
  import opened HashKey
  import opened HashChains
  import opened MatchFinder
  import opened DeflateWindow
  import opened DeflateSteps
  import opened StrategyFast
  import opened StrategySlow
  import opened StrategyRuns
  import K = SymbolSink
  import R = Trailer
  import S = InflateStep
  import B = BitReader
  import W = BitWriter
  import A = Adler32
  import T = TokenCoder

  type Octet = A.Octet

  datatype Ret = OK | STREAM_END | STREAM_ERROR | BUF_ERROR

  /** The strategy: of the level, or one of the two without a hash table. */
  datatype Strategy = Fast | Slow | Rle | Huffman

  /** Between calls, before the last block. */
  ghost predicate Busy(s: Matcher, how: Strategy)
    reads s`input, s`next, s`check, s`strstart, s`lookahead, s`insert, s`insH, s`blockStart, s`matchLength,
          s`matchStart, s`matchAvailable, s`prevLength
    reads s`seen, s`base, s.window, s.chains, s.chains.head, s.chains.prev, s.sink, s.sink.c.Parts(), s.sink.c.Statics()
  {
    match how
    case Fast => FastOk(s) && !s.matchAvailable
    case Slow => SlowOk(s)
    case Rle => Steady(s, s.base + s.strstart) && !s.matchAvailable
    case Huffman => Steady(s, s.base + s.strstart) && OneEach(s) && !s.matchAvailable
  }

  /** What a strategy keeps when there is nothing ahead. */
  ghost predicate Rest(s: Matcher, how: Strategy)
    reads s`matchLength, s`prevLength, s`matchAvailable
  {
    && !s.matchAvailable && (how.Fast? ==> s.matchLength < 3 && s.prevLength == 2)
    && (how.Slow? ==> 1 <= s.matchLength < 3)
  }

  lemma BusyRest(s: Matcher, how: Strategy)
    requires Busy(s, how) && s.lookahead == 0 && !s.matchAvailable
    ensures Rest(s, how)
  {
    hide Steady, Matcher.Hashed;
  }

  /** All input has been sent in blocks. */
  ghost predicate Quiet(s: Matcher)
    reads s`input, s`next, s`check, s`strstart, s`lookahead, s`insert, s`blockStart, s`seen, s`base
    reads s.window, s.chains, s.chains.head, s.chains.prev, s.sink, s.sink.c.Parts(), s.sink.c.Statics()
  {
    Steady(s, s.base + s.strstart) && s.lookahead == 0 && Flushed(s, false) && s.sink.c.lastLit == 0
  }

  lemma QuietBusy(s: Matcher, how: Strategy)
    requires Quiet(s) && Rest(s, how)
    ensures Busy(s, how)
  {
    hide Steady;
  }

  /** The strategy for one call. */
  method Compress(s: Matcher, how: Strategy, flush: FlushMode) returns (state: BlockState)
    requires Busy(s, how)
    modifies s`next, s`check, s`lookahead, s`seen, s`insH, s`insert, s`strstart, s`blockStart, s`matchStart,
             s`matchLength, s`base, s`highWater
    modifies s`prevLength, s`prevMatch, s`matchAvailable
    modifies s`out, s`availOut, s.window, s.chains`ins, s.chains`top, s.chains.head, s.chains.prev, s.sink,
             s.sink.c.Parts()
    ensures Stopped(s, state, flush, Done(s)) && Follows(old(Here(s)), Here(s), s.input)
    ensures old(s.sink.extra) <= s.sink.extra <= old(s.sink.extra) + 27
    ensures state.NeedMore? ==> Busy(s, how)
    ensures state.BlockDone? ==> Rest(s, how)
  {
    hide K.Sink.Valid, Steady, Follows, Stopped, SlowOk, FastOk, OneEach, T.Coder.Parts, T.Coder.Statics;
    Elsewhere(s);
    match how
    case Fast =>
      state := DeflateFast(s, flush);
      if state.NeedMore? || state.BlockDone? { FastBounds(s); }
    case Slow =>
      state := DeflateSlow(s, flush);
      StoppedFacts(s, state, flush, Done(s));
      if state.BlockDone? { BusyRest(s, how); }
    case Rle =>
      state := DeflateRle(s, flush);
      StoppedFacts(s, state, flush, Done(s));
    case Huffman =>
      state := DeflateHuff(s, flush);
      StoppedFacts(s, state, flush, Done(s));
  }

  lemma StoppedFacts(s: Matcher, state: BlockState, flush: FlushMode, to: nat)
    requires Stopped(s, state, flush, to)
    ensures state.NeedMore? || state.BlockDone? ==> Steady(s, to)
    ensures state.BlockDone?
            ==> s.lookahead == 0 && s.next == |s.input| && to == s.base + s.strstart && Quiet(s)
                && !flush.FINISH? && !flush.NO_FLUSH?
    ensures state.NeedMore? && s.availOut > 0 ==> flush.NO_FLUSH? && s.next == |s.input|
    ensures state.FinishStarted? || state.FinishDone? ==>
              flush.FINISH? && s.lookahead == 0 && s.next == |s.input| && s.InputOk() && Flushed(s, true) && AllOut(s)
              && s.sink.tail == [] && (state.FinishDone? <==> s.availOut > 0)
  {
    hide Steady, Flushed;
  }

  /** The end of a flush: a marker, and for a full one nothing remembered. */
  method Mark(s: Matcher, flush: FlushMode)
    requires Quiet(s) && !flush.NO_FLUSH? && !flush.FINISH?
    modifies s`strstart, s`blockStart, s`insert, s`base, s.chains`ins, s.chains.head, s.sink`bits, s.sink`extra,
             s.sink.c.w
    ensures Quiet(s) && s.base + s.strstart == old(s.base + s.strstart)
    ensures old(s.sink.extra) <= s.sink.extra <= old(s.sink.extra) + 42
  {
    hide K.Sink.Valid, Steady, Counted, Flushed, T.Coder.Parts, T.Coder.Statics;
    match flush
    case PARTIAL_FLUSH => MarkAlign(s);
    case BLOCK =>
    case SYNC_FLUSH => MarkEmpty(s);
    case FULL_FLUSH =>
      MarkEmpty(s);
      Forget(s);
  }

  method MarkAlign(s: Matcher)
    requires Quiet(s)
    modifies s.sink`bits, s.sink`extra, s.sink.c.w
    ensures Quiet(s) && s.sink.extra == old(s.sink.extra) + 42
  {
    hide K.Sink.Valid, Matcher.InputOk, Matcher.ChainOk, T.Coder.Parts, T.Coder.Statics;
    Elsewhere(s);
    s.sink.SendAlign();
  }

  method MarkEmpty(s: Matcher)
    requires Quiet(s)
    modifies s.sink`bits, s.sink`extra, s.sink.c.w
    ensures Quiet(s) && s.sink.extra == old(s.sink.extra) + 42
  {
    hide K.Sink.Valid, Matcher.InputOk, Matcher.ChainOk, T.Coder.Parts, T.Coder.Statics;
    Elsewhere(s);
    s.sink.SendEmpty(s.window);
  }

  /** CLEAR_HASH, and the window used from its start again, as there is nothing ahead. */
  method Forget(s: Matcher)
    requires Quiet(s)
    modifies s`strstart, s`blockStart, s`insert, s`base, s.chains`ins, s.chains.head
    ensures Quiet(s) && s.base + s.strstart == old(s.base + s.strstart)
  {
    hide K.Sink.Valid, A.Adler, Chained, T.Coder.Parts, T.Coder.Statics, Shows, SinkAt;
    Elsewhere(s);
    s.chains.Clear(s.seen, s.base, s.base + s.strstart);
    ResetWindow(s);
    FlushedGoesOn(s);
  }

  method ResetWindow(s: Matcher)
    requires s.Sized() && s.InputOk() && Flushed(s, false) && s.chains.Valid(s.seen, s.base + s.strstart)
             && s.lookahead == 0
    requires s.chains.top <= s.base + s.strstart
    modifies s`strstart, s`blockStart, s`insert, s`base
    ensures s.InputOk() && s.ChainOk() && Flushed(s, false) && s.base + s.strstart == old(s.base + s.strstart)
            && s.insert == 0
  {
    hide K.Sink.Valid, A.Adler, Chained, T.Coder.Parts, T.Coder.Statics, Shows;
    Elsewhere(s);
    ShowsNothing(s.window[..], s.strstart, s.seen, s.base);
    s.base := s.base + s.strstart;
    s.strstart, s.blockStart, s.insert := 0, 0, 0;
  }

  lemma ShowsNothing(w: seq<Octet>, n: nat, seen: seq<Octet>, base: nat)
    requires Shows(w, n, seen, base)
    ensures Shows(w, 0, seen, base + n)
  {
  }

  /** More input after what is left, and space for output. */
  method Load(s: Matcher, how: Strategy, input: seq<Octet>, space: nat)
    requires Busy(s, how)
    modifies s`input, s`next, s`out, s`availOut
    ensures Busy(s, how) && s.next == 0 && s.input == input && s.out == [] && s.availOut == space
  {
    hide K.Sink.Valid, Shows, A.Adler, Chained, Covers, SinkAt, CandidateIn, T.Coder.Parts, T.Coder.Statics,
         Matcher.ChainOk, Matcher.Hashed, Candidacy;
    Elsewhere(s);
    s.input, s.next, s.out, s.availOut := input, 0, [], space;
  }

  /** flush_pending */
  method DeliverBusy(s: Matcher, how: Strategy)
    requires Busy(s, how)
    modifies s`out, s`availOut, s.sink`sent, s.sink`output, s.sink.c.w
    ensures Busy(s, how) && Follows(old(Here(s)), Here(s), s.input) && AllOut(s)
            && s.sink.c.w.Stream() == old(s.sink.c.w.Stream())
  {
    hide K.Sink.Valid, Shows, A.Adler, Chained, Covers, CandidateIn, Follows, AllOut, T.Coder.Parts, T.Coder.Statics,
         Matcher.InputOk, Matcher.ChainOk, Matcher.Hashed, Candidacy, Flushed;
    Elsewhere(s);
    s.InputBounds();
    FlushPending(s);
  }

  class Deflater {
    const s: Matcher
    const how: Strategy

    /** The status, whether the trailer has been written, and the rank of the flush of the call before. */
    var finished: bool
    var trailed: bool
    var lastFlush: int

    /** The last block has been sent. */
    ghost predicate Ended()
      reads this`trailed, s`input, s`next, s`check, s`strstart, s`lookahead, s`blockStart, s`seen, s`base, s.window,
            s.sink, s.sink.c.Parts(), s.sink.c.Statics()
    {
      && Flushed(s, true) && s.lookahead == 0 && s.InputOk() && (trailed ==> s.settings.wrap)
      && s.sink.tail == if trailed then B.Stream(R.TrailerOf(A.Adler(s.seen))) else []
    }

    ghost predicate Valid()
      reads this`trailed, this`finished
      reads s`input, s`next, s`check, s`strstart, s`lookahead, s`insert, s`insH, s`blockStart, s`matchLength,
            s`matchStart, s`matchAvailable, s`prevLength
      reads s`seen, s`base, s.window, s.chains, s.chains.head, s.chains.prev, s.sink, s.sink.c.Parts(),
            s.sink.c.Statics()
    {
      s.Sized() && s.next <= |s.input| && s.sink.cfg.wrap == s.settings.wrap && if finished then Ended()
        else Busy(s, how) && !trailed
    }

    /** All input so far. */
    ghost function Given(): seq<Octet>
      reads s`input, s`next, s`seen
    {
      s.seen + if s.next <= |s.input| then s.input[s.next..] else []
    }

    /** The bytes after the header. */
    constructor (s: Matcher, how: Strategy)
      requires Busy(s, how) && s.sink.cfg.wrap == s.settings.wrap
      ensures this.s == s && this.how == how && !finished && Valid()
    {
      hide Busy, T.Coder.Parts, T.Coder.Statics, K.Sink.Valid, Matcher.InputOk, Flushed;
      BusyBounds(s, how);
      Elsewhere(s);
      this.s, this.how := s, how;
      finished, trailed, lastFlush := false, false, 0;
    }

    lemma Apart()
      ensures this !in s.sink.c.Parts() && this !in s.sink.c.Statics()
    {
    }

    lemma Bounds()
      requires Valid()
      ensures s.Sized() && s.next <= |s.input| && s.sink.Valid() && s.sink.cfg.wrap == s.settings.wrap
              && (!finished ==> Busy(s, how) && !trailed)
    {
      hide K.Sink.Valid, Shows, A.Adler, Chained, Covers, CandidateIn;
      if !finished { BusyBounds(s, how); }
    }

    /** next_in and avail_in, next_out and avail_out of a call. */
    method Open(more: seq<Octet>, space: nat)
      requires Valid()
      modifies s`input, s`next, s`out, s`availOut
      ensures Valid() && Given() == old(Given()) + more && s.next == 0 && s.out == [] && s.availOut == space
      ensures |s.input| == old(if s.next <= |s.input| then |s.input| - s.next else 0) + |more|
              && Given() == s.seen + s.input
    {
      hide K.Sink.Valid, Shows, A.Adler, Busy, Flushed, T.Coder.Parts, T.Coder.Statics, B.Stream, R.TrailerOf;
      Elsewhere(s);
      ghost var left := s.input[s.next..];
      var input := s.input[s.next..] + more;
      if finished {
        s.input, s.next, s.out, s.availOut := input, 0, [], space;
      } else {
        Load(s, how, input, space);
      }
      assert s.seen + (left + more) == (s.seen + left) + more;
    }

    /** flush_pending */
    method Deliver()
      requires Valid()
      modifies s`out, s`availOut, s.sink`sent, s.sink`output, s.sink.c.w
      ensures Valid() && Follows(old(Here(s)), Here(s), s.input) && AllOut(s)
              && s.sink.c.w.Stream() == old(s.sink.c.w.Stream())
    {
      hide K.Sink.Valid, Shows, A.Adler, Busy, Flushed, Follows, T.Coder.Parts, T.Coder.Statics, B.Stream, R.TrailerOf,
           AllOut;
      hide W.Writer.Stream;
      Elsewhere(s);
      Bounds();
      if finished { FlushPending(s); } else { DeliverBusy(s, how); }
    }

    /** The trailer. */
    method WriteTrailer()
      requires Valid() && finished && !trailed && s.settings.wrap
      modifies this`trailed, s.sink`tail, s.sink.c.w
      ensures Valid() && finished && trailed
    {
      hide K.Sink.Valid, Shows, A.Adler, A.Checksum, Busy, T.Coder.Parts, T.Coder.Statics, B.Stream, R.TrailerOf;
      Elsewhere(s);
      A.AdlerContinues(s.seen, []);
      s.sink.PutTrailer(s.check);
      trailed := true;
    }

    /** When all has been delivered, it is a stream of all the input. */
    lemma Complete()
      requires Valid() && finished && (trailed <==> s.settings.wrap) && AllOutNow()
      ensures R.Inflates(s.sink.cfg, s.sink.output, s.seen)
    {
      hide K.Sink.Valid, Shows, A.Adler, A.Checksum, B.Stream, R.TrailerOf, R.Inflates, S.Trailer, W.Writer.Stream;
      ShowsSize(s.window[..], s.strstart + s.lookahead, s.seen, s.base);
      assert s.seen[..s.base + s.strstart] == s.seen;
      A.AdlerContinues(s.seen, []);
      R.TrailerReads(A.Adler(s.seen));
      s.sink.AllDelivered();
    }

    /** The strategy for one call, before the last block; false when the call is to end here. */
    method Run(flush: FlushMode) returns (go: bool)
      requires Valid() && !finished
      modifies this`finished, this`lastFlush
      modifies s`next, s`check, s`lookahead, s`seen, s`insH, s`insert, s`strstart, s`blockStart, s`matchStart,
               s`matchLength, s`base, s`highWater
      modifies s`prevLength, s`prevMatch, s`matchAvailable
      modifies s`out, s`availOut, s.window, s.chains`ins, s.chains`top, s.chains.head, s.chains.prev, s.sink,
               s.sink.c.Parts()
      ensures Valid() && Follows(old(Here(s)), Here(s), s.input) && !trailed && (finished ==> flush.FINISH?)
      ensures s.sink.extra <= old(s.sink.extra) + MoreExtra(flush) && (s.availOut > 0 ==> lastFlush == old(lastFlush))
      ensures !go && flush.FINISH? ==> s.availOut == 0
      ensures go && flush.FINISH? ==> finished && s.next == |s.input| && AllOutNow()
    {
      hide K.Sink.Valid, Shows, A.Adler, Busy, Flushed, Follows, T.Coder.Parts, T.Coder.Statics, B.Stream, R.TrailerOf,
           Stopped, Quiet, Rest, W.Writer.Stream;
      Elsewhere(s);
      Apart();
      Bounds();
      ghost var p := Here(s);
      var state := Compress(s, how, flush);
      ghost var q := Here(s);
      StoppedFacts(s, state, flush, Done(s));
      if state.FinishStarted? || state.FinishDone? { finished := true; }
      if state.NeedMore? || state.FinishStarted? {
        if state.NeedMore? { BusyBounds(s, how); }
        if s.availOut == 0 { lastFlush := -1; }
        return false;
      }
      go := true;
      if state.BlockDone? {
        go := EndFlush(flush);
        FollowsTrans(p, q, Here(s), s.input);
      }
    }

    /** The marker of a flush, when all input has been sent. */
    method EndFlush(flush: FlushMode) returns (go: bool)
      requires Quiet(s) && Rest(s, how) && !finished && !trailed && !flush.NO_FLUSH? && !flush.FINISH?
      requires s.next <= |s.input| && s.sink.cfg.wrap == s.settings.wrap
      modifies this`lastFlush, s`strstart, s`blockStart, s`insert, s`base, s.chains`ins, s.chains.head, s`out,
               s`availOut
      modifies s.sink`bits, s.sink`extra, s.sink`sent, s.sink`output, s.sink.c.w
      ensures Valid() && Follows(old(Here(s)), Here(s), s.input) && (s.availOut > 0 ==> lastFlush == old(lastFlush))
      ensures s.sink.extra <= old(s.sink.extra) + 42
    {
      hide K.Sink.Valid, Busy, Flushed, Follows, T.Coder.Parts, T.Coder.Statics, Quiet;
      Elsewhere(s);
      Apart();
      Mark(s, flush);
      QuietBusy(s, how);
      BusyBounds(s, how);
      Deliver();
      go := s.availOut > 0;
      if !go { lastFlush := -1; }
    }

    /** The bytes not yet delivered. */
    function Pending(): int
      reads s.sink`sent, s.sink.c.w
    {
      |s.sink.c.w.pending| - s.sink.sent
    }

    /** A call with nothing to do: nothing pending, no input, and no flush beyond that of the call before. */
    predicate Nothing(flush: FlushMode)
      reads this`lastFlush, s`input, s`next, s.sink`sent, s.sink.c.w
    {
      Pending() == 0 && s.next == |s.input| && !flush.FINISH? && Rank(Code(flush)) <= Rank(lastFlush)
    }

    /** Input after the end, and space left for it. */
    predicate Late()
      reads this`finished, s`input, s`next, s`availOut, s.sink`sent, s.sink.c.w
    {
      finished && s.next != |s.input| && Pending() < s.availOut
    }

    /** What has been delivered is not much longer than the input. */
    ghost predicate Within()
      reads s`input, s`next, s`seen, s.sink`output, s.sink`extra
    {
      1016 * |s.sink.output| <= Most(|Given()|, s.sink.extra, s.settings.wrap)
    }

    /** All whole bytes of the stream have been delivered. */
    ghost predicate AllOutNow()
      reads s.sink`output, s.sink.c.w
    {
      8 * |s.sink.output| + 8 > |s.sink.c.w.Stream()|
    }

    lemma BusyStart()
      requires Valid() && !finished
      ensures |s.sink.start| <= |Given()| && s.sink.tail == []
    {
      hide K.Sink.Valid, Shows, A.Adler, Chained, Covers, CandidateIn;
      BusyBounds(s, how);
      BusyFrom(s, how);
      s.sink.OpenTail();
    }

    lemma EndedStart()
      requires Valid() && finished
      ensures |s.sink.start| <= |Given()| && |s.sink.tail| == if trailed then 32 else 0
    {
      hide K.Sink.Valid, Shows, A.Adler, B.Stream, Matcher.InputOk;
      B.StreamSize(R.TrailerOf(A.Adler(s.seen)));
    }

    lemma NotLong()
      requires Valid()
      ensures Within()
    {
      hide K.Sink.Valid, Busy, Ended, W.Writer.Stream, Given;
      Bounds();
      s.sink.Bounded();
      s.sink.OutputFits();
      if finished {
        EndedStart();
        if trailed { TrailedWraps(); }
      } else {
        BusyStart();
      }
    }

    lemma TrailedWraps()
      requires Valid() && finished && trailed
      ensures s.settings.wrap
    {
    }

    lemma NonePending()
      requires Valid() && finished && Pending() == 0
      ensures AllOutNow()
    {
      hide Shows, A.Adler, B.Stream, R.TrailerOf, K.Sink.Valid, W.Writer.Stream, Matcher.InputOk;
      s.sink.Whole();
    }

    lemma SpaceUsed()
      requires Valid() && finished && AllOut(s) && Pending() != 0
      ensures s.availOut == 0
    {
      hide Shows, A.Adler, B.Stream, R.TrailerOf, K.Sink.Valid, W.Writer.Stream, Matcher.InputOk;
      s.sink.Whole();
    }

    /** After the last block all bits are in whole bytes. */
    lemma PendingIs()
      requires Valid() && finished
      ensures 8 * Pending() == |s.sink.c.w.Stream()| - 8 * |s.sink.output| >= 0
    {
      hide Shows, A.Adler, B.Stream, R.TrailerOf, K.Sink.Valid, W.Writer.Stream, Matcher.InputOk;
      s.sink.Whole();
    }

    lemma FinishedFacts()
      requires Valid() && finished
      ensures s.lookahead == 0
    {
    }

    /** What is still pending is delivered; after the end there is space left just when there was more than for that. */
    method Drain()
      requires Valid()
      modifies s`out, s`availOut, s.sink`sent, s.sink`output, s.sink.c.w
      ensures Valid() && Follows(old(Here(s)), Here(s), s.input)
      ensures finished && s.availOut > 0 ==> AllOutNow()
      ensures finished ==> (s.availOut > 0 <==> old(Pending() < s.availOut))
    {
      hide K.Sink.Valid, Busy, Flushed, Follows, T.Coder.Parts, T.Coder.Statics, Ended, W.Writer.Stream, Pending;
      Elsewhere(s);
      Apart();
      ghost var p := Here(s);
      if finished { PendingIs(); }
      Deliver();
      FollowsSizes(p, Here(s), s.input);
      if finished { PendingIs(); }
    }

    /** What is still pending is delivered first; a call that has nothing to do is refused. */
    method Begin(flush: FlushMode) returns (stop: bool, ret: Ret)
      requires Valid() && s.availOut > 0
      modifies this`lastFlush, s`out, s`availOut, s.sink`sent, s.sink`output, s.sink.c.w
      ensures Valid() && Follows(old(Here(s)), Here(s), s.input) && ret in {OK, BUF_ERROR}
      ensures stop && ret == OK ==> s.availOut == 0
      ensures ret == BUF_ERROR ==> stop
      ensures ret == BUF_ERROR <==> old(Nothing(flush)) || old(Late())
      ensures s.availOut > 0 ==> lastFlush == Code(flush)
      ensures !stop && finished ==> s.next == |s.input| && AllOutNow()
    {
      hide K.Sink.Valid, Busy, Flushed, Follows, T.Coder.Parts, T.Coder.Statics, Ended, W.Writer.Stream, Pending,
           AllOutNow, Rank, Code;
      Elsewhere(s);
      Apart();
      Bounds();
      FollowsSelf(Here(s), s.input);
      var before := lastFlush;
      lastFlush := Code(flush);
      if Pending() != 0 {
        Drain();
        if s.availOut == 0 {
          lastFlush := -1;
          return true, OK;
        }
      } else if s.next == |s.input| && Rank(Code(flush)) <= Rank(before) && !flush.FINISH? {
        return true, BUF_ERROR;
      } else if finished {
        NonePending();
      }
      if finished && s.next != |s.input| { return true, BUF_ERROR; }
      stop, ret := false, OK;
    }

    /** The blocks; false when the call is to end here. */
    method Blocks(flush: FlushMode) returns (go: bool)
      requires Valid() && (finished ==> flush.FINISH? && s.next == |s.input| && AllOutNow())
      modifies this`finished, this`lastFlush
      modifies s`next, s`check, s`lookahead, s`seen, s`insH, s`insert, s`strstart, s`blockStart, s`matchStart,
               s`matchLength, s`base, s`highWater
      modifies s`prevLength, s`prevMatch, s`matchAvailable
      modifies s`out, s`availOut, s.window, s.chains`ins, s.chains`top, s.chains.head, s.chains.prev, s.sink,
               s.sink.c.Parts()
      ensures Valid() && Follows(old(Here(s)), Here(s), s.input) && (finished ==> flush.FINISH?)
      ensures s.sink.extra <= old(s.sink.extra) + MoreExtra(flush) && (s.availOut > 0 ==> lastFlush == old(lastFlush))
      ensures !go && flush.FINISH? ==> s.availOut == 0
      ensures go && flush.FINISH? ==> finished && s.next == |s.input| && AllOutNow()
    {
      hide K.Sink.Valid, Busy, Flushed, Follows, T.Coder.Parts, T.Coder.Statics, Ended, W.Writer.Stream;
      Elsewhere(s);
      Apart();
      Bounds();
      FollowsSelf(Here(s), s.input);
      if finished { FinishedFacts(); }
      go := true;
      if s.next != |s.input| || s.lookahead != 0 || (!flush.NO_FLUSH? && !finished) {
        go := Run(flush);
      }
    }

    /** After the last block: the trailer, once. */
    method Close() returns (ret: Ret)
      requires Valid() && finished && s.next == |s.input| && AllOutNow()
      modifies this`trailed, s`out, s`availOut, s.sink`tail, s.sink`sent, s.sink`output, s.sink.c.w
      ensures Valid() && Follows(old(Here(s)), Here(s), s.input) && ret in {OK, STREAM_END}
              && (ret == OK ==> s.availOut == 0)
      ensures ret == STREAM_END ==> R.Inflates(s.sink.cfg, s.sink.output, s.seen)
    {
      hide K.Sink.Valid, Busy, Flushed, Follows, T.Coder.Parts, T.Coder.Statics, Ended, R.Inflates, W.Writer.Stream,
           Pending;
      Elsewhere(s);
      Apart();
      FollowsSelf(Here(s), s.input);
      if !s.settings.wrap || trailed {
        CompleteNow();
        return STREAM_END;
      }
      WriteTrailer();
      Deliver();
      if Pending() != 0 {
        SpaceUsed();
        return OK;
      }
      NonePending();
      Complete();
      ret := STREAM_END;
    }

    /** The blocks, and in the end the trailer. */
    method Continue(flush: FlushMode) returns (ret: Ret)
      requires Valid() && (finished ==> flush.FINISH? && s.next == |s.input| && AllOutNow())
      modifies this`finished, this`trailed, this`lastFlush
      modifies s`next, s`check, s`lookahead, s`seen, s`insH, s`insert, s`strstart, s`blockStart, s`matchStart,
               s`matchLength, s`base, s`highWater
      modifies s`prevLength, s`prevMatch, s`matchAvailable
      modifies s`out, s`availOut, s.window, s.chains`ins, s.chains`top, s.chains.head, s.chains.prev, s.sink,
               s.sink.c.Parts()
      ensures Valid() && Follows(old(Here(s)), Here(s), s.input) && ret in {OK, STREAM_END}
              && (finished ==> flush.FINISH?)
      ensures s.sink.extra <= old(s.sink.extra) + MoreExtra(flush) && (s.availOut > 0 ==> lastFlush == old(lastFlush))
      ensures ret == OK && flush.FINISH? ==> s.availOut == 0
      ensures ret == STREAM_END
              ==> flush.FINISH? && finished && s.next == |s.input|
                  && R.Inflates(s.sink.cfg, s.sink.output, s.seen)
    {
      hide K.Sink.Valid, Busy, Flushed, Follows, T.Coder.Parts, T.Coder.Statics, Ended, R.Inflates, W.Writer.Stream,
           AllOutNow, Valid;
      Elsewhere(s);
      Apart();
      ghost var p := Here(s);
      var go := Blocks(flush);
      if !go || !flush.FINISH? { return OK; }
      ghost var q := Here(s);
      ret := Close();
      FollowsSizes(q, Here(s), s.input);
      FollowsTrans(p, q, Here(s), s.input);
    }

    lemma CompleteNow()
      requires Valid() && finished && (!s.settings.wrap || trailed) && AllOutNow()
      ensures R.Inflates(s.sink.cfg, s.sink.output, s.seen)
    {
      hide K.Sink.Valid, R.Inflates, Flushed, A.Adler, B.Stream, R.TrailerOf;
      Complete();
    }

    /** When a call is refused: no space, nothing to do, or input after the end with space left for it. */
    predicate Refuses(more: seq<Octet>, space: nat, flush: FlushMode)
      reads this`finished, this`lastFlush, s`input, s`next, s.sink`sent, s.sink.c.w
    {
      || space == 0
      || (Pending() == 0 && s.next >= |s.input| && more == [] && !flush.FINISH? && Rank(Code(flush)) <= Rank(lastFlush))
      || (finished && (s.next < |s.input| || more != []) && Pending() < space)
    }

    /** A call with space for output. */
    method Serve(flush: FlushMode) returns (ret: Ret)
      requires Valid() && s.availOut > 0 && (finished ==> flush.FINISH?)
      modifies this`finished, this`trailed, this`lastFlush
      modifies s`next, s`check, s`lookahead, s`seen, s`insH, s`insert, s`strstart, s`blockStart, s`matchStart,
               s`matchLength, s`base, s`highWater
      modifies s`prevLength, s`prevMatch, s`matchAvailable
      modifies s`out, s`availOut, s.window, s.chains`ins, s.chains`top, s.chains.head, s.chains.prev, s.sink,
               s.sink.c.Parts()
      ensures Valid() && Follows(old(Here(s)), Here(s), s.input) && ret != STREAM_ERROR && (finished ==> flush.FINISH?)
      ensures ret == BUF_ERROR <==> old(Nothing(flush) || Late())
      ensures s.sink.extra <= old(s.sink.extra) + MoreExtra(flush)
      ensures ret == OK && flush.FINISH? ==> s.availOut == 0
      ensures ret == OK && s.availOut > 0 ==> lastFlush == Code(flush)
      ensures ret == STREAM_END
              ==> flush.FINISH? && s.next == |s.input|
                  && R.Inflates(s.sink.cfg, s.sink.output, s.seen)
    {
      hide K.Sink.Valid, Busy, Flushed, Follows, T.Coder.Parts, T.Coder.Statics, Ended, R.Inflates, W.Writer.Stream,
           AllOutNow, Valid, Code;
      hide Nothing, Late;
      Elsewhere(s);
      Apart();
      ghost var p := Here(s);
      var stop;
      stop, ret := Begin(flush);
      if !stop {
        ghost var q := Here(s);
        ret := Continue(flush);
        FollowsSizes(q, Here(s), s.input);
        FollowsTrans(p, q, Here(s), s.input);
      }
    }

    lemma AllGiven()
      requires Valid() && s.next == |s.input|
      ensures Given() == s.seen
    {
      assert s.seen + s.input[s.next..] == s.seen;
    }

    /** One call of deflate. */
    method Call(more: seq<Octet>, space: nat, flush: FlushMode) returns (ret: Ret, out: seq<Octet>)
      requires Valid()
      modifies this, s, s.window, s.chains, s.chains.head, s.chains.prev, s.sink, s.sink.c.Parts()
      ensures Valid() && Given() == old(Given()) + more && s.sink.output == old(s.sink.output) + out && |out| <= space
      ensures ret == STREAM_ERROR <==> old(finished) && !flush.FINISH?
      ensures ret == BUF_ERROR <==> ret != STREAM_ERROR && old(Refuses(more, space, flush))
      ensures (finished ==> old(finished) || flush.FINISH?) && (ret == OK && |out| < space ==> lastFlush == Code(flush))
      ensures s.sink.extra <= old(s.sink.extra) + MoreExtra(flush) && Within()
      ensures ret == STREAM_END ==> flush.FINISH? && R.Inflates(s.sink.cfg, s.sink.output, Given())
      ensures ret == OK && flush.FINISH? ==> |out| == space
    {
      hide K.Sink.Valid, Busy, Flushed, Follows, T.Coder.Parts, T.Coder.Statics, Ended, R.Inflates, W.Writer.Stream,
           Valid, Given, Within, Rank, Code, Pending;
      Elsewhere(s);
      Apart();
      Open(more, space);
      NotLong();
      if finished && !flush.FINISH? { return STREAM_ERROR, []; }
      if space == 0 { return BUF_ERROR, []; }
      ghost var p := Here(s);
      ret := Serve(flush);
      ServedGiven(p);
      NotLong();
      if ret == STREAM_END { AllGiven(); }
      out := s.out;
    }

    /** What has been read and what has not are the same input as before. */
    lemma ServedGiven(p: Point)
      requires Follows(p, Here(s), s.input)
      ensures Given() == p.seen + s.input[p.next..] && p.out <= s.out && s.sink.output == p.output + s.out[|p.out|..]
      ensures |s.out| + s.availOut == |p.out| + p.availOut
    {
      SameGiven(p, Here(s), s.input);
    }
  }

  /** The bits allowed for what one call sends besides full blocks: one more block, and a marker. */
  function MoreExtra(flush: FlushMode): nat { if flush.FINISH? then 27 else 69 }

  /** The bits of a whole stream for so much input, 127 times over: see SymbolSink.Allowed. */
  function Most(n: nat, extra: nat, wrap: bool): nat { 1153 * n + 127 * (extra + 7 + if wrap then 32 else 0) }

  lemma BusyFrom(s: Matcher, how: Strategy)
    requires Busy(s, how)
    ensures |s.sink.start| <= |s.seen|
  {
    hide K.Sink.Valid, Shows, A.Adler, Chained, Covers, CandidateIn;
  }

  lemma FollowsSizes(p: Point, q: Point, input: seq<Octet>)
    requires Follows(p, q, input)
    ensures |q.output| - |p.output| == p.availOut - q.availOut && q.availOut <= p.availOut
  {
  }

  lemma BusyBounds(s: Matcher, how: Strategy)
    requires Busy(s, how)
    ensures s.Sized() && s.next <= |s.input| && s.strstart + s.lookahead <= s.window.Length && !s.sink.ended
            && s.sink.Valid()
  {
    hide K.Sink.Valid, Shows, A.Adler, Chained, Covers, CandidateIn;
  }

  function Code(flush: FlushMode): int {
    match flush
    case NO_FLUSH => 0
    case PARTIAL_FLUSH => 1
    case SYNC_FLUSH => 2
    case FULL_FLUSH => 3
    case FINISH => 4
    case BLOCK => 5
  }

  /** RANK */
  function Rank(f: int): int { f * 2 - if f > 4 then 9 else 0 }

  /** What has been read and what has not are the same input as before. */
  lemma SameGiven(p: Point, q: Point, input: seq<Octet>)
    requires Follows(p, q, input)
    ensures q.next <= |input| && q.seen + input[q.next..] == p.seen + input[p.next..]
    ensures p.out <= q.out && q.output == p.output + q.out[|p.out|..] && |q.out| + q.availOut == |p.out| + p.availOut
  {
    assert input[p.next..] == input[p.next..q.next] + input[q.next..];
  }
}
