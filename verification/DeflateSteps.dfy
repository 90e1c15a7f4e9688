/** What all strategies of deflate.c do with a literal or a match, and when a block is full. */
module DeflateSteps {
  import opened BlockCode
  import opened MatchFinder
  import opened DeflateWindow
  import F = FlushBlock
  import K = SymbolSink
  import I = InflateRead
  import W = BitWriter
  import T = TokenCoder
  import HC = HashChains
  import A = Adler32

  type Octet = A.Octet

  /** Copying from the distance of a match gives what the match stands for. */
  lemma {:induction false} CopiedIs(seen: seq<Octet>, at: nat, from: nat, length: nat)
    requires IsMatch(seen, at, from, length)
    ensures I.Copied(seen[..at], length, at - from) == seen[..at + length]
    decreases length
  {
    if length > 0 {
      assert seen[at] == seen[at..at + length][0] == seen[from..from + length][0] == seen[from];
      assert seen[at + 1..at + length] == seen[at..at + length][1..];
      assert seen[from + 1..from + length] == seen[from..from + length][1..];
      assert seen[..at] + [seen[at]] == seen[..at + 1];
      CopiedIs(seen, at + 1, from + 1, length - 1);
    }
  }

  /** What sends the symbols is kept elsewhere. */
  lemma Elsewhere(s: Matcher)
    ensures var p := s.sink.c.Parts();
            s !in p && s.chains !in p && s.chains.head !in p && s.chains.prev !in p && s.window !in p && s.sink !in p
    ensures var c := s.sink.c; {c, c.w, c.dBuf, c.lBuf, c.lt.fc, c.dt.fc} <= c.Parts()
    ensures var p := s.sink.c.Statics();
            s !in p && s.chains !in p && s.chains.head !in p && s.chains.prev !in p && s.window !in p && s.sink !in p
    ensures forall o | o in s.sink.c.Parts() :: allocated(o)
    ensures forall o | o in s.sink.c.Statics() :: allocated(o)
  {
  }

  /** The blocks sent end at block_start, and what has been tallied since ends at `to`. */
  ghost predicate SinkAt(s: Matcher, to: nat)
    reads s`base, s`blockStart, s`seen, s.sink, s.sink.c.Parts(), s.sink.c.Statics()
  {
    && s.sink.Valid() && !s.sink.ended && 0 <= s.base + s.blockStart <= to <= |s.seen|
    && s.sink.start == s.seen[..s.base + s.blockStart] && s.sink.plain == s.seen[..to]
  }

  /** _tr_tally_lit of the byte at `at` in the window. */
  method TallyLiteral(s: Matcher, at: nat) returns (full: bool)
    requires s.Sized() && s.InputOk() && at < s.strstart + s.lookahead && SinkAt(s, s.base + at) && s.sink.Room()
    modifies s.sink`plain, s.sink.c`lastLit, s.sink.c.dBuf, s.sink.c.lBuf, s.sink.c.lt.fc, s.sink.c.dt.fc
    ensures SinkAt(s, s.base + at + 1) && full == !s.sink.Room() && s.sink.c.lastLit == old(s.sink.c.lastLit) + 1
  {
    hide K.Sink.Valid, K.Sink.Room, Shows, A.Adler, I.Copied;
    ShowsAt(s.window[..], s.strstart + s.lookahead, s.seen, s.base, at);
    ShowsSize(s.window[..], s.strstart + s.lookahead, s.seen, s.base);
    var b := s.window[at];
    assert s.seen[..s.base + at] + [b] == s.seen[..s.base + at + 1];
    full := s.sink.Tally(Literal(b));
  }

  /** _tr_tally_dist for a match in the input, `dist` back. */
  method TallyMatch(s: Matcher, dist: nat, length: nat, ghost at: nat) returns (full: bool)
    requires s.Sized() && SinkAt(s, at) && s.sink.Room()
    requires 3 <= length <= MAX_MATCH && 1 <= dist <= at && dist <= MaxDist(s.wsize)
             && IsMatch(s.seen, at, at - dist, length)
    modifies s.sink`plain, s.sink.c`lastLit, s.sink.c.dBuf, s.sink.c.lBuf, s.sink.c.lt.fc, s.sink.c.dt.fc
    ensures SinkAt(s, at + length) && full == !s.sink.Room()
  {
    hide K.Sink.Valid, K.Sink.Room, I.Copied;
    CopiedIs(s.seen, at, at - dist, length);
    full := s.sink.Tally(Match(length, dist));
  }

  /** All input up to strstart has been sent in blocks. */
  ghost predicate Flushed(s: Matcher, last: bool)
    reads s`base, s`strstart, s`blockStart, s`seen, s.sink, s.sink.c.Parts(), s.sink.c.Statics()
  {
    && s.blockStart == s.strstart && s.sink.Valid() && s.sink.ended == last && s.base + s.strstart <= |s.seen|
    && s.sink.start == s.sink.plain == s.seen[..s.base + s.strstart]
  }

  lemma FlushedGoesOn(s: Matcher)
    requires Flushed(s, false)
    ensures SinkAt(s, s.base + s.strstart)
  {
    hide K.Sink.Valid;
  }

  /** A stored block could hold the input since the last block, if it is still in the window. */
  ghost predicate Short(s: Matcher)
    reads s`blockStart, s`strstart
  {
    s.blockStart >= 0 ==> s.strstart - s.blockStart <= 0xffff
  }

  /** The symbols sent in a block; the input they stand for is handed over if it is still in the window. */
  method SendInput(s: Matcher, last: bool)
    requires s.Sized() && s.InputOk() && SinkAt(s, s.base + s.strstart) && Short(s)
    modifies s.sink, s.sink.c.Parts()
    ensures s.sink.Valid() && s.sink.ended == last && s.sink.Room() && s.sink.start == s.sink.plain == old(s.sink.plain)
    ensures old(s.sink.extra) <= s.sink.extra <= old(s.sink.extra) + 27
    ensures old(s.sink.c.lastLit) >= 127 ==> s.sink.extra == old(s.sink.extra)
    ensures s.sink.output == old(s.sink.output) && s.sink.c.lastLit == 0 && s.sink.tail == []
  {
    hide K.Sink.Valid, Shows, A.Adler;
    if s.blockStart >= 0 {
      var from, n: nat := s.blockStart, s.strstart - s.blockStart;
      BlockShown(s.window[..], s.strstart + s.lookahead, s.seen, s.base, from, s.strstart);
      s.sink.SendBlock(s.window, F.Slice(from, n), s.settings.fixed, last);
    } else {
      s.sink.SendBlock(null, F.Slice(0, 0), s.settings.fixed, last);
    }
  }

  lemma BlockShown(w: seq<Octet>, n: nat, seen: seq<Octet>, base: nat, from: nat, to: nat)
    requires Shows(w, n, seen, base) && from <= to <= n
    ensures base + to <= |seen| && to <= |w| && seen[..base + from] + w[from..to] == seen[..base + to]
  {
    ShowsSlice(w, n, seen, base, from, to - from);
    assert from + (to - from) == to;
  }

  /** FLUSH_BLOCK_ONLY */
  method FlushBlock(s: Matcher, last: bool)
    requires s.Sized() && s.InputOk() && SinkAt(s, s.base + s.strstart) && Short(s)
    modifies s`blockStart, s`out, s`availOut, s.sink, s.sink.c.Parts()
    ensures Flushed(s, last) && s.sink.Room() && s.sink.c.lastLit == 0 && s.blockStart == s.strstart
            && s.sink.tail == []
    ensures old(s.sink.extra) <= s.sink.extra <= old(s.sink.extra) + 27
    ensures old(s.sink.c.lastLit) >= 127 ==> s.sink.extra == old(s.sink.extra)
    ensures Follows(old(Here(s)), Here(s), s.input) && AllOut(s)
  {
    hide K.Sink.Valid, Shows, A.Adler, AllOut, Follows, W.Writer.Stream;
    ShowsSize(s.window[..], s.strstart + s.lookahead, s.seen, s.base);
    SendInput(s, last);
    s.blockStart := s.strstart;
    assert Flushed(s, last);
    hide Flushed;
    FlushPending(s);
  }

  /** How far input and output have come. */
  datatype Point = Point(next: nat, seen: seq<Octet>, out: seq<Octet>, availOut: nat, output: seq<Octet>)

  ghost function Here(s: Matcher): Point
    reads s`next, s`seen, s`out, s`availOut, s.sink`output
  {
    Point(s.next, s.seen, s.out, s.availOut, s.sink.output)
  }

  /** Input has been read, and output delivered, in order. */
  ghost predicate Follows(p: Point, q: Point, input: seq<Octet>) {
    && p.next <= q.next <= |input| && q.seen == p.seen + input[p.next..q.next]
    && p.out <= q.out && |q.out| - |p.out| == p.availOut - q.availOut && q.output == p.output + q.out[|p.out|..]
  }

  lemma FollowsTrans(p: Point, q: Point, r: Point, input: seq<Octet>)
    requires Follows(p, q, input) && Follows(q, r, input)
    ensures Follows(p, r, input)
  {
    assert r.out[|p.out|..] == q.out[|p.out|..] + r.out[|q.out|..];
    assert input[p.next..r.next] == input[p.next..q.next] + input[q.next..r.next];
  }

  lemma FollowsSelf(p: Point, input: seq<Octet>)
    requires p.next <= |input|
    ensures Follows(p, p, input)
  {
  }

  /** flush_pending */
  method FlushPending(s: Matcher)
    requires s.sink.Valid() && s.next <= |s.input|
    modifies s`out, s`availOut, s.sink`sent, s.sink`output, s.sink.c.w
    ensures s.sink.Valid() && Follows(old(Here(s)), Here(s), s.input) && AllOut(s)
            && s.sink.c.w.Stream() == old(s.sink.c.w.Stream())
    ensures (old(Flushed(s, true)) ==> Flushed(s, true)) && (old(Flushed(s, false)) ==> Flushed(s, false))
  {
    hide K.Sink.Valid, W.Writer.Stream;
    var more := s.sink.Deliver(s.availOut);
    ghost var before := s.out;
    s.out := s.out + more;
    s.availOut := s.availOut - |more|;
    assert s.out[|before|..] == more;
  }

  // -- What is the same in every strategy -------------------------------------------------------------------------

  datatype BlockState = NeedMore | BlockDone | FinishStarted | FinishDone

  datatype FlushMode = NO_FLUSH | PARTIAL_FLUSH | SYNC_FLUSH | FULL_FLUSH | FINISH | BLOCK

  /** The input up to `to` has been tallied. */
  ghost predicate Counted(s: Matcher, to: nat)
    reads s`input, s`next, s`check, s`strstart, s`lookahead, s`insert, s`blockStart, s`seen, s`base
    reads s.window, s.chains, s.chains.head, s.chains.prev, s.sink, s.sink.c.Parts(), s.sink.c.Statics()
  {
    s.Sized() && s.InputOk() && s.ChainOk() && (s.insert > 0 ==> s.lookahead < 3) && SinkAt(s, to)
      && to <= s.base + s.strstart
  }

  /** And there is room for another symbol. */
  ghost predicate Steady(s: Matcher, to: nat)
    reads s`input, s`next, s`check, s`strstart, s`lookahead, s`insert, s`blockStart, s`seen, s`base
    reads s.window, s.chains, s.chains.head, s.chains.prev, s.sink, s.sink.c.Parts(), s.sink.c.Statics()
  {
    Counted(s, to) && s.sink.Room()
  }

  /** n bytes on. */
  method Advance(s: Matcher, n: nat)
    requires s.InputOk() && s.ChainOk() && n <= s.lookahead && (s.insert > 0 ==> s.lookahead < 3)
    modifies s`lookahead, s`strstart
    ensures s.InputOk() && s.ChainOk() && (s.insert > 0 ==> s.lookahead < 3)
    ensures s.strstart == old(s.strstart) + n && s.lookahead == old(s.lookahead) - n
  {
    hide Shows, A.Adler, HC.Chained;
    s.lookahead := s.lookahead - n;
    s.strstart := s.strstart + n;
  }

  /** fill_window; what has been tallied stays so. */
  method Fill(s: Matcher, ghost to: nat)
    requires Steady(s, to) && s.lookahead < MIN_LOOKAHEAD
    modifies s`next, s`check, s`lookahead, s`seen, s`insH, s`insert, s`strstart, s`blockStart, s`matchStart, s`base,
             s`highWater
    modifies s.window, s.chains`ins, s.chains`top, s.chains.head, s.chains.prev
    ensures Steady(s, to) && (old(s.Hashed()) ==> s.Hashed()) && s.strstart + MIN_LOOKAHEAD <= s.window.Length
    ensures s.lookahead >= MIN_LOOKAHEAD || s.next == |s.input|
    ensures s.base + s.strstart == old(s.base + s.strstart) && s.base + s.blockStart == old(s.base + s.blockStart)
    ensures s.base + s.matchStart == old(s.base + s.matchStart) && Follows(old(Here(s)), Here(s), s.input)
    ensures s.lookahead + |s.input| - s.next == old(s.lookahead + |s.input| - s.next)
            && (old(s.strstart) > 0 ==> s.strstart > 0)
  {
    hide K.Sink.Valid, Shows, A.Adler, HC.Chained, Matcher.Hashed, Matcher.ChainOk, Matcher.InputOk;
    s.InputBounds();
    s.FillWindow();
    s.InputBounds();
  }

  /** What the top of the loop of each strategy comes to: a turn, the wait for more input, or the end of it. */
  datatype Ahead = Go | Wait | End

  /** The top of the loop: enough input ahead, but for the end of it. */
  method MoreInput(s: Matcher, least: nat, flush: FlushMode, ghost to: nat) returns (r: Ahead)
    requires Steady(s, to) && 1 <= least <= MIN_LOOKAHEAD
    modifies s`next, s`check, s`lookahead, s`seen, s`insH, s`insert, s`strstart, s`blockStart, s`matchStart, s`base,
             s`highWater
    modifies s.window, s.chains`ins, s.chains`top, s.chains.head, s.chains.prev
    ensures Steady(s, to) && (old(s.Hashed()) ==> s.Hashed()) && Follows(old(Here(s)), Here(s), s.input)
    ensures s.base + s.strstart == old(s.base + s.strstart) && s.base + s.blockStart == old(s.base + s.blockStart)
    ensures s.base + s.matchStart == old(s.base + s.matchStart)
            && s.lookahead + |s.input| - s.next == old(s.lookahead + |s.input| - s.next)
    ensures old(s.strstart) > 0 ==> s.strstart > 0
    ensures r.Go? ==> s.lookahead > 0 && s.strstart + least <= s.window.Length
    ensures r.Wait? ==> flush.NO_FLUSH? && s.next == |s.input|
    ensures r.End?
            ==> s.lookahead == 0 && s.next == |s.input| && !flush.NO_FLUSH?
                && s.strstart + MIN_LOOKAHEAD <= s.window.Length
  {
    hide K.Sink.Valid, Shows, A.Adler, HC.Chained, Steady, T.Coder.Parts, T.Coder.Statics, Matcher.Hashed, Follows;
    SteadyBounds(s, to);
    FollowsSelf(Here(s), s.input);
    if s.lookahead < least {
      Fill(s, to);
      if s.lookahead < least && flush.NO_FLUSH? { return Wait; }
      if s.lookahead == 0 { return End; }
    }
    SteadyBounds(s, to);
    r := Go;
  }

  lemma SteadyBounds(s: Matcher, to: nat)
    requires Steady(s, to)
    ensures s.Sized() && s.next <= |s.input| && s.strstart + s.lookahead <= s.window.Length
            && s.base + s.strstart + s.lookahead == |s.seen|
    ensures Counted(s, to) && s.sink.Room() && to <= s.base + s.strstart
  {
    hide K.Sink.Valid, A.Adler, HC.Chained;
  }

  /** FLUSH_BLOCK of a block that is not the last. */
  method EndBlock(s: Matcher)
    requires Counted(s, s.base + s.strstart) && Short(s)
    modifies s`blockStart, s`out, s`availOut, s.sink, s.sink.c.Parts()
    ensures Steady(s, s.base + s.strstart) && Flushed(s, false) && s.sink.c.lastLit == 0 && s.blockStart == s.strstart
    ensures old(s.sink.extra) <= s.sink.extra <= old(s.sink.extra) + 27
    ensures old(s.sink.c.lastLit) >= 127 ==> s.sink.extra == old(s.sink.extra)
    ensures Follows(old(Here(s)), Here(s), s.input) && AllOut(s)
  {
    hide K.Sink.Valid, Shows, A.Adler, HC.Chained, AllOut, Follows, Flushed, Matcher.InputOk, Matcher.ChainOk, SinkAt,
         Short, T.Coder.Parts, T.Coder.Statics;
    Elsewhere(s);
    FlushBlock(s, false);
    FlushedGoesOn(s);
  }

  /** There is no room for another symbol in a block of at least so many. */
  lemma FullBlock(s: Matcher)
    requires s.Sized() && !s.sink.Room()
    ensures s.sink.c.lastLit >= 127
  {
  }

  /** if (bflush) FLUSH_BLOCK(s, 0) */
  method EndIfFull(s: Matcher, full: bool) returns (stop: bool)
    requires Counted(s, s.base + s.strstart) && Short(s)
    requires full == !s.sink.Room()
    modifies s`blockStart, s`out, s`availOut, s.sink, s.sink.c.Parts()
    ensures Steady(s, s.base + s.strstart) && Follows(old(Here(s)), Here(s), s.input) && (stop ==> s.availOut == 0)
    ensures s.sink.extra == old(s.sink.extra)
    ensures if full then s.sink.c.lastLit == 0 && s.blockStart == s.strstart
            else s.sink.c.lastLit == old(s.sink.c.lastLit) && s.blockStart == old(s.blockStart)
  {
    hide K.Sink.Valid, Shows, A.Adler, HC.Chained, AllOut, Follows, Matcher.InputOk, Matcher.ChainOk, SinkAt,
         T.Coder.Parts, T.Coder.Statics, K.Sink.Room;
    s.InputBounds();
    FollowsSelf(Here(s), s.input);
    stop := false;
    if full {
      FullBlock(s);
      EndBlock(s);
      stop := s.availOut == 0;
    }
  }

  lemma NothingLeft(s: Matcher)
    requires SinkAt(s, s.base + s.strstart) && s.sink.c.lastLit == 0
    ensures Flushed(s, false) && s.blockStart == s.strstart
  {
    hide K.Sink.Valid;
    s.sink.NoneCollected();
  }

  /** No string that has been entered reaches beyond the end of the input. */
  lemma EndRoom(s: Matcher, n: nat, to: nat)
    requires Counted(s, to) && s.lookahead == 0 && n <= 2 && n <= s.strstart
    ensures s.chains.top + n <= s.base + s.strstart
  {
    hide K.Sink.Valid, A.Adler, HC.Chained;
    var c := s.chains;
    HC.TopBefore(c.head[..], c.prev[..], c.ins, c.top, s.seen, s.base, c.key);
  }

  /** How many strings at the end of the input are left to be entered. */
  method SetInsert(s: Matcher, n: nat, ghost to: nat)
    requires Counted(s, to) && s.lookahead == 0 && n <= s.strstart && n <= 2
             && (n > 0 ==> s.chains.top + n <= s.base + s.strstart)
    modifies s`insert
    ensures Counted(s, to)
  {
    hide K.Sink.Valid, Shows, A.Adler, HC.Chained;
    s.insert := n;
  }

  lemma NothingRoom(s: Matcher)
    requires s.Sized() && s.sink.c.lastLit == 0
    ensures s.sink.Room()
  {
  }

  /** What each strategy does when there is no more input: the end of the stream, or of a block. */
  method EndInput(s: Matcher, flush: FlushMode) returns (state: BlockState)
    requires Counted(s, s.base + s.strstart) && Short(s)
    requires s.lookahead == 0 && s.next == |s.input| && !flush.NO_FLUSH?
    modifies s`blockStart, s`out, s`availOut, s.sink, s.sink.c.Parts()
    ensures Stopped(s, state, flush, s.base + s.strstart) && s.sink.c.lastLit == 0 && s.blockStart == s.strstart
    ensures flush.FINISH? ==> state.FinishStarted? || state.FinishDone?
    ensures old(s.sink.extra) <= s.sink.extra <= old(s.sink.extra) + 27
    ensures Follows(old(Here(s)), Here(s), s.input)
  {
    hide K.Sink.Valid, Shows, A.Adler, HC.Chained, AllOut, Follows, Flushed, Matcher.InputOk, Matcher.ChainOk, SinkAt,
         T.Coder.Parts, T.Coder.Statics;
    Elsewhere(s);
    if flush.FINISH? {
      FlushBlock(s, true);
      return if s.availOut == 0 then FinishStarted else FinishDone;
    }
    if s.sink.c.lastLit > 0 {
      EndBlock(s);
      if s.availOut == 0 { return NeedMore; }
    } else {
      s.InputBounds();
      FollowsSelf(Here(s), s.input);
      NothingLeft(s);
      NothingRoom(s);
    }
    state := BlockDone;
  }

  /** All there is has been delivered, unless there was no more space for it. */
  ghost predicate AllOut(s: Matcher)
    reads s`availOut, s.sink, s.sink.c.Parts()
  {
    s.availOut > 0 ==> 8 * |s.sink.output| + 8 > |s.sink.c.w.Stream()|
  }

  /** How a strategy leaves the state behind. */
  ghost predicate Stopped(s: Matcher, state: BlockState, flush: FlushMode, to: nat)
    reads s`input, s`next, s`check, s`strstart, s`lookahead, s`insert, s`blockStart, s`seen, s`base, s`availOut
    reads s.window, s.chains, s.chains.head, s.chains.prev, s.sink, s.sink.c.Parts(), s.sink.c.Statics()
  {
    match state
    case NeedMore => Steady(s, to) && (s.availOut > 0 ==> flush.NO_FLUSH? && s.next == |s.input|)
    case BlockDone =>
      && Steady(s, to) && to == s.base + s.strstart && !flush.NO_FLUSH? && !flush.FINISH? && s.lookahead == 0
      && s.next == |s.input|
      && Flushed(s, false) && s.sink.c.lastLit == 0
    case _ =>
      && flush.FINISH? && s.lookahead == 0 && s.next == |s.input| && s.InputOk() && Flushed(s, true) && AllOut(s)
      && s.sink.tail == [] && (state.FinishDone? <==> s.availOut > 0)
  }

  lemma NeedsInput(s: Matcher, flush: FlushMode, to: nat)
    requires Steady(s, to) && flush.NO_FLUSH? && s.next == |s.input|
    ensures Stopped(s, NeedMore, flush, to)
  {
    hide Steady;
  }

  lemma NeedsSpace(s: Matcher, flush: FlushMode, to: nat)
    requires Steady(s, to) && s.availOut == 0
    ensures Stopped(s, NeedMore, flush, to)
  {
    hide Steady;
  }
}
