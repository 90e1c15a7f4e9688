/** deflate_fast of deflate.c: the longest match at each place, taken at once. */
module StrategyFast {
  import opened HashKey
  import opened HashChains
  import opened MatchFinder
  import opened DeflateWindow
  import opened DeflateSteps
  import K = SymbolSink
  import A = Adler32
  import T = TokenCoder

  type Octet = A.Octet

  /** The string at strstart has been entered, if it is all there. */
  ghost predicate Entered(s: Matcher)
    reads s`strstart, s`lookahead, s`insert, s`insH, s`seen, s`base, s.chains, s.chains.head, s.chains.prev
  {
    && s.chains.Valid(s.seen, s.base)
    && if s.lookahead >= 3 then
         && s.insert == 0 && s.chains.top == s.base + s.strstart + 1 && s.base + s.strstart + 2 < |s.seen|
         && Covers(s.chains.key, s.insH, s.seen[s.base + s.strstart + 1], s.seen[s.base + s.strstart + 2])
       else s.ChainOk()
  }

  /** A turn has begun: the string is entered, and the input up to `to` has been tallied. */
  ghost predicate Mid(s: Matcher, to: nat)
    reads s`input, s`next, s`check, s`strstart, s`lookahead, s`insert, s`insH, s`blockStart, s`seen, s`base
    reads s.window, s.chains, s.chains.head, s.chains.prev, s.sink, s.sink.c.Parts(), s.sink.c.Statics()
  {
    s.Sized() && s.InputOk() && Entered(s) && SinkAt(s, to) && to <= s.base + s.strstart && s.sink.Room()
  }

  /** A match within reach for the string at `at`. */
  ghost predicate MatchIn(seen: seq<Octet>, wsize: nat, at: nat, from: int, length: nat) {
    3 <= length <= MAX_MATCH && 0 <= from < at && at - from <= MaxDist(wsize) && IsMatch(seen, at, from, length)
  }

  ghost predicate Matches(s: Matcher, at: nat, from: int, length: nat)
    reads s`seen
  {
    MatchIn(s.seen, s.wsize, at, from, length)
  }

  /** INSERT_STRING at strstart, if the string is all there. */
  method Enter(s: Matcher, ghost to: nat) returns (head: nat)
    requires Steady(s, to) && s.Hashed()
    modifies s`insH, s.chains`ins, s.chains`top, s.chains.head, s.chains.prev
    ensures Mid(s, to)
    ensures head > 0
            ==> s.lookahead >= 3
                && (s.strstart - head <= MaxDist(s.wsize) ==> Candidate(s.chains, s.seen, s.base, s.strstart, head))
  {
    hide K.Sink.Valid, Shows, A.Adler, Chained, SinkAt, Covers, T.Coder.Parts, T.Coder.Statics, KeyAt;
    Elsewhere(s);
    s.InputBounds();
    head := 0;
    if s.lookahead >= 3 { head := s.InsertString(s.strstart, s.strstart + s.lookahead); }
  }

  /** longest_match for the string at strstart. */
  method Search(s: Matcher, head: nat, ghost to: nat)
    requires Mid(s, to) && s.lookahead >= 3 && Candidate(s.chains, s.seen, s.base, s.strstart, head)
    requires 1 <= s.prevLength <= MAX_MATCH && s.strstart + MIN_LOOKAHEAD <= s.window.Length
    modifies s`matchLength, s`matchStart
    ensures Mid(s, to) && 1 <= s.matchLength <= s.lookahead && s.matchLength <= MAX_MATCH
    ensures s.matchLength > s.prevLength && s.matchLength >= 3
            ==> Matches(s, s.base + s.strstart, s.base + s.matchStart, s.matchLength)
  {
    hide K.Sink.Valid, Shows, A.Adler, Chained, SinkAt, Covers, T.Coder.Parts, T.Coder.Statics, KeyAt, IsMatch,
         Candidate;
    Elsewhere(s);
    s.matchLength, s.matchStart := LongestMatch(s.window, s.chains, s.settings.tuning, s.strstart, s.lookahead,
                                                s.prevLength, s.matchStart, head, s.seen, s.base);
  }

  /** The longest match for the string at strstart, when its key has been seen before. */
  method FindMatch(s: Matcher)
    requires Steady(s, s.base + s.strstart) && s.Hashed() && s.matchLength < 3 && s.prevLength == 2
             && s.strstart + MIN_LOOKAHEAD <= s.window.Length
    modifies s`insH, s.chains`ins, s.chains`top, s.chains.head, s.chains.prev, s`matchLength, s`matchStart
    ensures Mid(s, s.base + s.strstart)
    ensures s.matchLength >= 3
            ==> s.matchLength <= s.lookahead
                && Matches(s, s.base + s.strstart, s.base + s.matchStart, s.matchLength)
  {
    hide K.Sink.Valid, Shows, A.Adler, Chained, SinkAt, Covers, T.Coder.Parts, T.Coder.Statics, KeyAt, IsMatch,
         Candidate, Mid, Steady;
    SteadyBounds(s, s.base + s.strstart);
    var head := Enter(s, s.base + s.strstart);
    if head != 0 && s.strstart - head <= MaxDist(s.wsize) { Search(s, head, s.base + s.strstart); }
  }

  /** All strings of a match entered but the first, which has been. */
  method InsertAll(s: Matcher, ghost n: nat)
    requires s.Sized() && n <= s.window.Length && Shows(s.window[..], n, s.seen, s.base)
             && s.chains.Valid(s.seen, s.base)
    requires 3 <= s.matchLength && s.strstart + s.matchLength + 3 <= n && s.chains.top == s.base + s.strstart + 1
    requires s.base + s.strstart + 2 < |s.seen|
             && Covers(s.chains.key, s.insH, s.seen[s.base + s.strstart + 1], s.seen[s.base + s.strstart + 2])
    modifies s`strstart, s`matchLength, s`insH, s.chains`ins, s.chains`top, s.chains.head, s.chains.prev
    ensures s.strstart == old(s.strstart + s.matchLength) && s.matchLength == 0
    ensures s.chains.Valid(s.seen, s.base) && s.chains.top == s.base + s.strstart
    ensures s.base + s.strstart + 1 < |s.seen|
            && Covers(s.chains.key, s.insH, s.seen[s.base + s.strstart], s.seen[s.base + s.strstart + 1])
  {
    hide Shows, Chained, Covers, KeyAt, Candidate;
    ShowsSize(s.window[..], n, s.seen, s.base);
    ghost var end := s.strstart + s.matchLength;
    s.matchLength := s.matchLength - 1;
    while s.matchLength != 0
      invariant s.strstart + s.matchLength + 1 == end && s.chains.Valid(s.seen, s.base)
                && s.chains.top == s.base + s.strstart + 1
      invariant Covers(s.chains.key, s.insH, s.seen[s.base + s.strstart + 1], s.seen[s.base + s.strstart + 2])
      decreases s.matchLength
    {
      s.strstart := s.strstart + 1;
      var head := s.InsertString(s.strstart, n);
      s.matchLength := s.matchLength - 1;
    }
    s.strstart := s.strstart + 1;
  }

  /** The strings of a match entered, or the key started anew after it. */
  method AfterMatch(s: Matcher)
    requires s.Sized() && s.insert == 0 && 3 <= s.matchLength <= MAX_MATCH && s.chains.Valid(s.seen, s.base)
    requires s.next <= |s.input| && s.strstart + s.matchLength + s.lookahead <= s.window.Length
             && s.strstart + MIN_LOOKAHEAD <= s.window.Length
    requires Shows(s.window[..], s.strstart + s.matchLength + s.lookahead, s.seen, s.base)
             && (s.settings.wrap ==> s.check == A.Adler(s.seen))
    requires s.chains.top == s.base + s.strstart + 1 && s.base + s.strstart + 2 < |s.seen|
    requires Covers(s.chains.key, s.insH, s.seen[s.base + s.strstart + 1], s.seen[s.base + s.strstart + 2])
    modifies s`strstart, s`matchLength, s`insH, s.chains`ins, s.chains`top, s.chains.head, s.chains.prev
    ensures s.strstart == old(s.strstart + s.matchLength) && s.matchLength == 0
    ensures s.InputOk() && s.ChainOk() && s.Hashed()
    ensures s.sink.extra == old(s.sink.extra)
  {
    hide Shows, Chained, Covers, A.Adler;
    ghost var n := s.strstart + s.matchLength + s.lookahead;
    ShowsSize(s.window[..], n, s.seen, s.base);
    if s.matchLength <= s.settings.tuning.lazy && s.lookahead >= 3 {
      InsertAll(s, n);
    } else {
      s.strstart := s.strstart + s.matchLength;
      s.matchLength := 0;
      s.StartKey(s.strstart);
      if s.lookahead >= 3 {
        ShowsAt(s.window[..], n, s.seen, s.base, s.strstart);
        ShowsAt(s.window[..], n, s.seen, s.base, s.strstart + 1);
      }
    }
  }

  /** A turn is over, but for a block that is full. */
  ghost predicate Turned(s: Matcher, full: bool)
    reads s`input, s`next, s`check, s`strstart, s`lookahead, s`insert, s`insH, s`blockStart, s`matchLength, s`seen,
          s`base
    reads s.window, s.chains, s.chains.head, s.chains.prev, s.sink, s.sink.c.Parts(), s.sink.c.Statics()
  {
    && Counted(s, s.base + s.strstart) && Short(s)
    && full == !s.sink.Room() && s.Hashed() && s.matchLength < 3
  }

  /** The match taken. */
  method FastMatch(s: Matcher) returns (full: bool)
    requires Mid(s, s.base + s.strstart) && s.matchLength <= s.lookahead
             && s.strstart + MIN_LOOKAHEAD <= s.window.Length
    requires Matches(s, s.base + s.strstart, s.base + s.matchStart, s.matchLength)
    modifies s`lookahead, s`strstart, s`matchLength, s`insH, s.chains`ins, s.chains`top, s.chains.head, s.chains.prev
    modifies s.sink`plain, s.sink.c`lastLit, s.sink.c.dBuf, s.sink.c.lBuf, s.sink.c.lt.fc, s.sink.c.dt.fc
    ensures Turned(s, full) && s.lookahead == old(s.lookahead - s.matchLength)
  {
    hide K.Sink.Valid, Shows, A.Adler, Chained, Covers, IsMatch, T.Coder.Parts, T.Coder.Statics, SinkAt;
    Elsewhere(s);
    full := TallyMatch(s, s.strstart - s.matchStart, s.matchLength, s.base + s.strstart);
    s.lookahead := s.lookahead - s.matchLength;
    AfterMatch(s);
  }

  /** No match: the byte as a literal. */
  method FastLiteral(s: Matcher) returns (full: bool)
    requires Mid(s, s.base + s.strstart) && s.matchLength < 3 && s.lookahead > 0
             && s.strstart + MIN_LOOKAHEAD <= s.window.Length
    requires s.insert > 0 ==> s.lookahead < 3
    modifies s`lookahead, s`strstart, s.sink`plain, s.sink.c`lastLit, s.sink.c.dBuf, s.sink.c.lBuf, s.sink.c.lt.fc,
             s.sink.c.dt.fc
    ensures Turned(s, full) && s.lookahead == old(s.lookahead) - 1
    ensures s.sink.extra == old(s.sink.extra)
  {
    hide K.Sink.Valid, Shows, A.Adler, Chained, Covers, T.Coder.Parts, T.Coder.Statics, SinkAt;
    Elsewhere(s);
    s.InputBounds();
    full := TallyLiteral(s, s.strstart);
    s.lookahead := s.lookahead - 1;
    s.strstart := s.strstart + 1;
  }

  /** Between the turns of deflate_fast. */
  ghost predicate FastOk(s: Matcher)
    reads s`input, s`next, s`check, s`strstart, s`lookahead, s`insert, s`insH, s`blockStart, s`matchLength,
          s`prevLength, s`seen, s`base
    reads s.window, s.chains, s.chains.head, s.chains.prev, s.sink, s.sink.c.Parts(), s.sink.c.Statics()
  {
    Steady(s, s.base + s.strstart) && s.Hashed() && s.matchLength < 3 && s.prevLength == 2
  }

  /** if (bflush) FLUSH_BLOCK(s, 0) */
  method EndTurn(s: Matcher, full: bool) returns (stop: bool)
    requires Turned(s, full) && s.prevLength == 2
    modifies s`blockStart, s`out, s`availOut, s.sink, s.sink.c.Parts()
    ensures FastOk(s) && Follows(old(Here(s)), Here(s), s.input) && (stop ==> s.availOut == 0)
    ensures s.sink.extra == old(s.sink.extra)
  {
    hide K.Sink.Valid, Shows, A.Adler, Chained, Covers, T.Coder.Parts, T.Coder.Statics, Steady, Follows, Matcher.Hashed,
         Matcher.InputOk, Matcher.ChainOk, SinkAt;
    Elsewhere(s);
    stop := EndIfFull(s, full);
  }

  lemma FastBounds(s: Matcher)
    requires FastOk(s)
    ensures s.Sized() && s.next <= |s.input| && s.strstart + s.lookahead <= s.window.Length
            && Steady(s, s.base + s.strstart)
    ensures (s.insert > 0 ==> s.lookahead < 3) && s.matchLength < 3 && s.prevLength == 2 && s.Hashed()
  {
    hide K.Sink.Valid, A.Adler, Chained, Covers;
  }

  /** A match or a literal, and the block when it is full. */
  method FastStep(s: Matcher) returns (stop: bool)
    requires FastOk(s) && s.lookahead > 0 && s.strstart + MIN_LOOKAHEAD <= s.window.Length
    modifies s`lookahead, s`strstart, s`blockStart, s`matchLength, s`matchStart, s`insH, s`out, s`availOut
    modifies s.chains`ins, s.chains`top, s.chains.head, s.chains.prev, s.sink, s.sink.c.Parts()
    ensures FastOk(s) && Follows(old(Here(s)), Here(s), s.input) && s.lookahead < old(s.lookahead)
            && (stop ==> s.availOut == 0)
    ensures s.sink.extra == old(s.sink.extra)
  {
    hide K.Sink.Valid, Shows, A.Adler, Chained, Covers, T.Coder.Parts, T.Coder.Statics, Steady, Mid, Matches, Follows,
         FastOk, Turned, Matcher.Hashed;
    Elsewhere(s);
    FastBounds(s);
    FindMatch(s);
    var full;
    if s.matchLength >= MIN_MATCH {
      MatchLonger(s, s.base + s.strstart, s.base + s.matchStart, s.matchLength);
      full := FastMatch(s);
    } else {
      full := FastLiteral(s);
    }
    stop := EndTurn(s, full);
  }

  lemma MatchLonger(s: Matcher, at: nat, from: int, length: nat)
    requires Matches(s, at, from, length)
    ensures 3 <= length <= MAX_MATCH
  {
  }

  /** One turn of the loop of deflate_fast. */
  method FastTurn(s: Matcher, flush: FlushMode) returns (r: Ahead)
    requires FastOk(s)
    modifies s`next, s`check, s`lookahead, s`seen, s`insH, s`insert, s`strstart, s`blockStart, s`matchStart,
             s`matchLength, s`base, s`highWater
    modifies s`out, s`availOut, s.window, s.chains`ins, s.chains`top, s.chains.head, s.chains.prev, s.sink,
             s.sink.c.Parts()
    ensures FastOk(s) && Follows(old(Here(s)), Here(s), s.input)
    ensures r.Go? ==> s.lookahead + |s.input| - s.next < old(s.lookahead + |s.input| - s.next)
    ensures r.Wait? ==> Stopped(s, NeedMore, flush, s.base + s.strstart)
    ensures r.End?
            ==> s.lookahead == 0 && s.next == |s.input| && !flush.NO_FLUSH?
                && s.strstart + MIN_LOOKAHEAD <= s.window.Length
    ensures s.sink.extra == old(s.sink.extra)
  {
    hide K.Sink.Valid, Shows, A.Adler, Chained, Covers, Steady, Follows, Stopped, T.Coder.Parts, T.Coder.Statics,
         Matcher.Hashed;
    ghost var p := Here(s);
    Elsewhere(s);
    r := MoreInput(s, MIN_LOOKAHEAD, flush, s.base + s.strstart);
    if r.Wait? { NeedsInput(s, flush, s.base + s.strstart); }
    if !r.Go? { return; }
    ghost var q := Here(s);
    var stop := FastStep(s);
    FollowsTrans(p, q, Here(s), s.input);
    if stop {
      NeedsSpace(s, flush, s.base + s.strstart);
      r := Wait;
    }
  }

  /** What deflate_fast does in the end: the last strings are entered when there is more input. */
  method FastEnd(s: Matcher, flush: FlushMode) returns (state: BlockState)
    requires FastOk(s) && s.lookahead == 0 && s.strstart + MIN_LOOKAHEAD <= s.window.Length && s.next == |s.input|
             && !flush.NO_FLUSH?
    modifies s`insert, s`blockStart, s`out, s`availOut, s.sink, s.sink.c.Parts()
    ensures Stopped(s, state, flush, s.base + s.strstart) && Follows(old(Here(s)), Here(s), s.input)
    ensures state.NeedMore? || state.BlockDone? ==> FastOk(s)
    ensures old(s.sink.extra) <= s.sink.extra <= old(s.sink.extra) + 27
  {
    hide K.Sink.Valid, Steady, Counted, Follows, Stopped, FastOk, T.Coder.Parts, T.Coder.Statics, Covers;
    Elsewhere(s);
    FastBounds(s);
    SteadyBounds(s, s.base + s.strstart);
    var n := if s.strstart < 2 then s.strstart else 2;
    EndRoom(s, n, s.base + s.strstart);
    SetInsert(s, n, s.base + s.strstart);
    state := EndInput(s, flush);
    if !flush.FINISH? { StillFast(s, state, flush); }
  }

  /** deflate_fast */
  method DeflateFast(s: Matcher, flush: FlushMode) returns (state: BlockState)
    requires FastOk(s)
    modifies s`next, s`check, s`lookahead, s`seen, s`insH, s`insert, s`strstart, s`blockStart, s`matchStart,
             s`matchLength, s`base, s`highWater
    modifies s`out, s`availOut, s.window, s.chains`ins, s.chains`top, s.chains.head, s.chains.prev, s.sink,
             s.sink.c.Parts()
    ensures Stopped(s, state, flush, s.base + s.strstart) && Follows(old(Here(s)), Here(s), s.input)
    ensures state.NeedMore? || state.BlockDone? ==> FastOk(s)
    ensures old(s.sink.extra) <= s.sink.extra <= old(s.sink.extra) + 27
  {
    hide K.Sink.Valid, Shows, A.Adler, Chained, Covers, Steady, Follows, Stopped, FastOk, T.Coder.Parts,
         T.Coder.Statics;
    ghost var p := Here(s);
    Elsewhere(s);
    FastBounds(s);
    FollowsSelf(p, s.input);
    var r := Go;
    while r.Go?
      invariant FastOk(s) && Follows(p, Here(s), s.input) && s.sink.extra == old(s.sink.extra)
      invariant r.Wait? ==> Stopped(s, NeedMore, flush, s.base + s.strstart)
      invariant r.End?
                ==> s.lookahead == 0 && s.next == |s.input| && !flush.NO_FLUSH?
                    && s.strstart + MIN_LOOKAHEAD <= s.window.Length
      decreases if r.Go? then s.lookahead + |s.input| - s.next + 1 else 0
    {
      ghost var q := Here(s);
      FastBounds(s);
      r := FastTurn(s, flush);
      FollowsTrans(p, q, Here(s), s.input);
    }
    if r.Wait? { return NeedMore; }
    ghost var q := Here(s);
    state := FastEnd(s, flush);
    FollowsTrans(p, q, Here(s), s.input);
  }

  lemma StillFast(s: Matcher, state: BlockState, flush: FlushMode)
    requires Stopped(s, state, flush, s.base + s.strstart) && !flush.FINISH? && s.lookahead == 0 && s.matchLength < 3
             && s.prevLength == 2
    ensures FastOk(s)
  {
    hide Steady, Flushed;
  }
}
