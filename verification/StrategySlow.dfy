/** deflate_slow of deflate.c: a match is taken only when there is none better one byte on. */
module StrategySlow {
  import opened HashKey
  import opened HashChains
  import opened MatchFinder
  import opened DeflateWindow
  import opened DeflateSteps
  import opened StrategyFast
  import K = SymbolSink
  import A = Adler32
  import T = TokenCoder

  type Octet = A.Octet

  const TOO_FAR: nat := 4096

  /** What has been tallied does not include the byte before strstart when that is still to be decided on. */
  ghost function Done(s: Matcher): nat
    reads s`strstart, s`matchAvailable, s`base
  {
    if s.matchAvailable && s.strstart > 0 then s.base + s.strstart - 1 else s.base + s.strstart
  }

  /** The match found for the string at `at`, if one was. */
  ghost predicate CandidateIn(seen: seq<Octet>, wsize: nat, at: int, from: int, length: nat, ahead: nat) {
    1 <= length <= MAX_MATCH && (length >= 3 ==> 0 <= at && MatchIn(seen, wsize, at, from, length) && length <= ahead)
  }

  ghost predicate Candidacy(s: Matcher, at: int, from: int, length: nat, ahead: nat)
    reads s`seen
  {
    CandidateIn(s.seen, s.wsize, at, from, length, ahead)
  }

  /** Between the turns of deflate_slow. */
  ghost predicate SlowOk(s: Matcher)
    reads s`input, s`next, s`check, s`strstart, s`lookahead, s`insert, s`insH, s`blockStart, s`matchLength,
          s`matchStart, s`matchAvailable, s`seen, s`base
    reads s.window, s.chains, s.chains.head, s.chains.prev, s.sink, s.sink.c.Parts(), s.sink.c.Statics()
  {
    && (s.matchAvailable ==> s.strstart > 0) && (s.matchLength >= 3 ==> s.matchAvailable)
    && Steady(s, Done(s)) && s.Hashed()
    && Candidacy(s, s.base + s.strstart - 1, s.base + s.matchStart, s.matchLength, s.lookahead + 1)
  }

  lemma SlowBounds(s: Matcher)
    requires SlowOk(s)
    ensures s.Sized() && s.next <= |s.input| && s.strstart + s.lookahead <= s.window.Length
            && s.base + s.strstart + s.lookahead == |s.seen|
    ensures Steady(s, Done(s)) && s.Hashed() && (s.insert > 0 ==> s.lookahead < 3) && s.insert <= 2
    ensures (s.matchAvailable ==> s.strstart > 0) && (s.matchLength >= 3 ==> s.matchAvailable)
    ensures Candidacy(s, s.base + s.strstart - 1, s.base + s.matchStart, s.matchLength, s.lookahead + 1)
  {
    hide K.Sink.Valid, A.Adler, Chained, Covers, Candidacy;
  }

  /** More input does not undo a match. */
  lemma MatchStays(old': seq<Octet>, seen: seq<Octet>, at: nat, from: nat, length: nat)
    requires old' <= seen && IsMatch(old', at, from, length)
    ensures IsMatch(seen, at, from, length)
  {
    assert seen[at..at + length] == old'[at..at + length] && seen[from..from + length] == old'[from..from + length];
  }

  /** The search, unless the match before was long enough; short matches far away are not taken. */
  method LazySearch(s: Matcher, head: nat, ghost to: nat)
    requires Mid(s, to) && s.strstart + MIN_LOOKAHEAD <= s.window.Length && 1 <= s.prevLength <= MAX_MATCH
    requires head > 0
             ==> s.lookahead >= 3
                 && (s.strstart - head <= MaxDist(s.wsize) ==> Candidate(s.chains, s.seen, s.base, s.strstart, head))
    modifies s`matchLength, s`matchStart
    ensures Mid(s, to) && 1 <= s.matchLength <= MAX_MATCH
    ensures s.matchLength > s.prevLength && s.matchLength >= 3
            ==> s.matchLength <= s.lookahead && Matches(s, s.base + s.strstart, s.base + s.matchStart, s.matchLength)
  {
    hide K.Sink.Valid, A.Adler, Chained, Covers, Mid, Matches, Candidate, T.Coder.Parts, T.Coder.Statics;
    Elsewhere(s);
    s.matchLength := MIN_MATCH - 1;
    if head != 0 && s.prevLength < s.settings.tuning.lazy && s.strstart - head <= MaxDist(s.wsize) {
      Search(s, head, to);
      if s.matchLength <= 5 && (s.settings.filtered
                                || (s.matchLength == MIN_MATCH && s.strstart - s.matchStart > TOO_FAR)) {
        s.matchLength := MIN_MATCH - 1;
      }
    }
  }

  /** The string at strstart has been entered, if it ends within the first n bytes of the window. */
  ghost predicate EnteredTo(s: Matcher, n: nat)
    reads s`strstart, s`insert, s`insH, s`seen, s`base, s.chains
  {
    s.strstart + 3 <= n ==>
      && s.insert == 0 && s.chains.top == s.base + s.strstart + 1 && s.base + s.strstart + 2 < |s.seen|
      && Covers(s.chains.key, s.insH, s.seen[s.base + s.strstart + 1], s.seen[s.base + s.strstart + 2])
  }

  /** The strings up to the end of the match entered, as far as they are all there. */
  method InsertRest(s: Matcher, maxInsert: nat)
    requires s.Sized() && maxInsert + 3 <= s.window.Length && Shows(s.window[..], maxInsert + 3, s.seen, s.base)
             && s.chains.Valid(s.seen, s.base)
    requires 1 <= s.prevLength && s.chains.top + s.insert <= s.base + s.strstart + 1 && EnteredTo(s, maxInsert + 3)
    modifies s`strstart, s`prevLength, s`insH, s.chains`ins, s.chains`top, s.chains.head, s.chains.prev
    ensures s.strstart == old(s.strstart + s.prevLength) && s.prevLength == 0
    ensures s.chains.Valid(s.seen, s.base) && s.chains.top + s.insert <= s.base + s.strstart + 1
            && EnteredTo(s, maxInsert + 3)
  {
    hide Shows, Chained, Covers, KeyAt, Candidate;
    ShowsSize(s.window[..], maxInsert + 3, s.seen, s.base);
    ghost var end := s.strstart + s.prevLength;
    while s.prevLength != 0
      invariant s.strstart + s.prevLength == end && s.chains.Valid(s.seen, s.base)
      invariant s.chains.top + s.insert <= s.base + s.strstart + 1 && EnteredTo(s, maxInsert + 3)
      decreases s.prevLength
    {
      s.strstart := s.strstart + 1;
      if s.strstart <= maxInsert { var head := s.InsertString(s.strstart, maxInsert + 3); }
      s.prevLength := s.prevLength - 1;
    }
  }

  /** On to the end of the match before. */
  method PassPrevious(s: Matcher)
    requires s.Sized() && s.InputOk() && Entered(s) && (s.insert > 0 ==> s.lookahead < 3) && s.insert <= 2
    requires s.strstart > 0 && 3 <= s.prevLength <= s.lookahead + 1
    modifies s`lookahead, s`strstart, s`prevLength, s`matchAvailable, s`matchLength, s`insH, s.chains`ins, s.chains`top,
             s.chains.head, s.chains.prev
    ensures s.InputOk() && s.ChainOk() && s.Hashed() && (s.insert > 0 ==> s.lookahead < 3) && !s.matchAvailable
            && s.matchLength == 2
    ensures s.strstart == old(s.strstart + s.prevLength - 1) && s.lookahead == old(s.lookahead - (s.prevLength - 1))
  {
    hide Shows, Chained, Covers, A.Adler;
    s.InputBounds();
    var maxInsert := s.strstart + s.lookahead - MIN_MATCH;
    s.lookahead := s.lookahead - (s.prevLength - 1);
    s.prevLength := s.prevLength - 2;
    InsertRest(s, maxInsert);
    s.matchAvailable := false;
    s.matchLength := MIN_MATCH - 1;
    s.strstart := s.strstart + 1;
  }

  /** The match before is the better one. */
  method TakePrevious(s: Matcher) returns (full: bool)
    requires s.strstart > 0 && Mid(s, s.base + s.strstart - 1) && s.strstart + MIN_LOOKAHEAD <= s.window.Length
    requires (s.insert > 0 ==> s.lookahead < 3) && s.insert <= 2
    requires s.prevLength <= s.lookahead + 1 && Matches(s, s.base + s.strstart - 1, s.base + s.prevMatch, s.prevLength)
    modifies s`lookahead, s`strstart, s`prevLength, s`matchAvailable, s`matchLength, s`insH, s.chains`ins, s.chains`top,
             s.chains.head, s.chains.prev
    modifies s.sink`plain, s.sink.c`lastLit, s.sink.c.dBuf, s.sink.c.lBuf, s.sink.c.lt.fc, s.sink.c.dt.fc
    ensures Turned(s, full) && !s.matchAvailable && s.matchLength == 2 && s.lookahead < old(s.lookahead)
  {
    hide K.Sink.Valid, Shows, A.Adler, Chained, Covers, IsMatch, T.Coder.Parts, T.Coder.Statics, SinkAt, Entered,
         Matcher.InputOk, Matcher.ChainOk, Matcher.Hashed;
    Elsewhere(s);
    s.InputBounds();
    full := TallyMatch(s, s.strstart - 1 - s.prevMatch, s.prevLength, s.base + s.strstart - 1);
    PassPrevious(s);
  }

  /** One byte on; what to do with it is decided in the next turn. */
  method Postpone(s: Matcher)
    requires Mid(s, s.base + s.strstart) && s.lookahead > 0 && (s.insert > 0 ==> s.lookahead < 3)
    requires Candidacy(s, s.base + s.strstart, s.base + s.matchStart, s.matchLength, s.lookahead)
    modifies s`lookahead, s`strstart, s`matchAvailable
    ensures SlowOk(s) && s.matchAvailable && s.strstart == old(s.strstart) + 1 && s.lookahead == old(s.lookahead) - 1
  {
    hide K.Sink.Valid, Shows, A.Adler, Chained, Covers, Matches, T.Coder.Parts, T.Coder.Statics, SinkAt;
    Elsewhere(s);
    s.InputBounds();
    s.matchAvailable := true;
    s.strstart := s.strstart + 1;
    s.lookahead := s.lookahead - 1;
  }

  /** The byte before as a literal, and the block when it is full. */
  method LiteralBefore(s: Matcher)
    requires s.strstart > 0 && Mid(s, s.base + s.strstart - 1) && s.strstart + MIN_LOOKAHEAD <= s.window.Length
    modifies s`blockStart, s`out, s`availOut, s.sink, s.sink.c.Parts()
    ensures Mid(s, s.base + s.strstart) && Follows(old(Here(s)), Here(s), s.input)
    ensures s.sink.extra == old(s.sink.extra)
  {
    hide K.Sink.Valid, Shows, A.Adler, Chained, Covers, T.Coder.Parts, T.Coder.Statics, SinkAt, Entered,
         Matcher.InputOk, K.Sink.Room, Flushed, Follows;
    Elsewhere(s);
    s.InputBounds();
    FollowsSelf(Here(s), s.input);
    var full := TallyLiteral(s, s.strstart - 1);
    if full {
      FullBlock(s);
      FlushBlock(s, false);
      FlushedGoesOn(s);
    }
  }

  /** The match before, and whether there is a better one now. */
  ghost predicate Looked(s: Matcher)
    reads s`input, s`next, s`check, s`strstart, s`lookahead, s`insert, s`insH, s`blockStart, s`matchLength,
          s`matchStart, s`prevLength, s`prevMatch
    reads s`matchAvailable, s`seen, s`base, s.window, s.chains, s.chains.head, s.chains.prev, s.sink, s.sink.c.Parts(),
          s.sink.c.Statics()
  {
    && (s.matchAvailable ==> s.strstart > 0) && Mid(s, Done(s)) && (s.insert > 0 ==> s.lookahead < 3) && s.insert <= 2
    && if s.prevLength >= MIN_MATCH && s.matchLength <= s.prevLength then
         s.matchAvailable && Matches(s, s.base + s.strstart - 1, s.base + s.prevMatch, s.prevLength)
           && s.prevLength <= s.lookahead + 1
       else Candidacy(s, s.base + s.strstart, s.base + s.matchStart, s.matchLength, s.lookahead)
  }

  /** The string entered, and the search for a match. */
  method Look(s: Matcher)
    requires SlowOk(s) && s.strstart + MIN_LOOKAHEAD <= s.window.Length
    modifies s`matchLength, s`matchStart, s`prevLength, s`prevMatch, s`insH, s.chains`ins, s.chains`top, s.chains.head,
             s.chains.prev
    ensures Looked(s)
  {
    hide K.Sink.Valid, Shows, A.Adler, Chained, Covers, T.Coder.Parts, T.Coder.Statics, Steady, Mid, Matches, SlowOk,
         Matcher.Hashed, Candidacy, Candidate;
    Elsewhere(s);
    SlowBounds(s);
    ghost var to := Done(s);
    var head := Enter(s, to);
    s.prevLength, s.prevMatch := s.matchLength, s.matchStart;
    LengthRange(s, s.base + s.strstart - 1, s.base + s.prevMatch, s.prevLength, s.lookahead + 1);
    LazySearch(s, head, to);
    Better(s);
  }

  /** What is done in a turn of deflate_slow. */
  method SlowStep(s: Matcher) returns (stop: bool)
    requires SlowOk(s) && s.lookahead > 0 && s.strstart + MIN_LOOKAHEAD <= s.window.Length
    modifies s`lookahead, s`strstart, s`blockStart, s`matchLength, s`matchStart, s`prevLength, s`prevMatch,
             s`matchAvailable, s`insH, s`out, s`availOut
    modifies s.chains`ins, s.chains`top, s.chains.head, s.chains.prev, s.sink, s.sink.c.Parts()
    ensures SlowOk(s) && Follows(old(Here(s)), Here(s), s.input) && s.lookahead < old(s.lookahead)
            && (stop ==> s.availOut == 0)
    ensures s.sink.extra == old(s.sink.extra)
  {
    hide K.Sink.Valid, Shows, A.Adler, Chained, Covers, T.Coder.Parts, T.Coder.Statics, Steady, Mid, Matches, Follows,
         SlowOk, Turned, Candidacy;
    Elsewhere(s);
    SlowBounds(s);
    Look(s);
    stop := false;
    if s.prevLength >= MIN_MATCH && s.matchLength <= s.prevLength {
      var full := TakePrevious(s);
      stop := EndPrevious(s, full);
    } else if s.matchAvailable {
      stop := TakeLiteral(s);
    } else {
      FollowsSelf(Here(s), s.input);
      Postpone(s);
    }
  }

  /** No match before, or a better one now: the byte before as a literal. */
  method TakeLiteral(s: Matcher) returns (stop: bool)
    requires Looked(s) && s.matchAvailable && !(s.prevLength >= MIN_MATCH && s.matchLength <= s.prevLength)
    requires s.lookahead > 0 && s.strstart + MIN_LOOKAHEAD <= s.window.Length
    modifies s`lookahead, s`strstart, s`blockStart, s`matchAvailable, s`out, s`availOut, s.sink, s.sink.c.Parts()
    ensures SlowOk(s) && Follows(old(Here(s)), Here(s), s.input) && s.lookahead < old(s.lookahead)
            && (stop ==> s.availOut == 0)
    ensures s.sink.extra == old(s.sink.extra)
  {
    hide K.Sink.Valid, Shows, A.Adler, Chained, Covers, T.Coder.Parts, T.Coder.Statics, Steady, Mid, Matches, Follows,
         SlowOk, Candidacy;
    Elsewhere(s);
    LiteralBefore(s);
    Postpone(s);
    stop := s.availOut == 0;
  }

  lemma LengthRange(s: Matcher, at: int, from: int, length: nat, ahead: nat)
    requires Candidacy(s, at, from, length, ahead)
    ensures 1 <= length <= MAX_MATCH && (length >= 3 ==> 0 <= at && Matches(s, at, from, length) && length <= ahead)
  {
  }

  /** A match that is better than the one before is a match. */
  lemma Better(s: Matcher)
    requires 1 <= s.matchLength <= MAX_MATCH
    requires s.matchLength > s.prevLength && s.matchLength >= 3
             ==> s.matchLength <= s.lookahead && Matches(s, s.base + s.strstart, s.base + s.matchStart, s.matchLength)
    ensures !(s.prevLength >= MIN_MATCH && s.matchLength <= s.prevLength)
            ==> Candidacy(s, s.base + s.strstart, s.base + s.matchStart, s.matchLength, s.lookahead)
  {
    hide MatchIn;
  }

  /** if (bflush) FLUSH_BLOCK(s, 0) */
  method EndPrevious(s: Matcher, full: bool) returns (stop: bool)
    requires Turned(s, full) && !s.matchAvailable && s.matchLength == 2
    modifies s`blockStart, s`out, s`availOut, s.sink, s.sink.c.Parts()
    ensures SlowOk(s) && Follows(old(Here(s)), Here(s), s.input) && (stop ==> s.availOut == 0)
    ensures s.sink.extra == old(s.sink.extra)
  {
    hide K.Sink.Valid, Shows, A.Adler, Chained, Covers, T.Coder.Parts, T.Coder.Statics, Steady, Follows, Matcher.Hashed,
         Matcher.InputOk, Matcher.ChainOk, SinkAt, Counted;
    Elsewhere(s);
    stop := EndIfFull(s, full);
  }

  /** More input does not undo the match found before. */
  lemma StillCandidate(seen: seq<Octet>, seen': seq<Octet>, wsize: nat, at: int, from: int, length: nat, ahead: nat,
                       ahead': nat)
    requires CandidateIn(seen, wsize, at, from, length, ahead) && seen <= seen' && ahead <= ahead'
    ensures CandidateIn(seen', wsize, at, from, length, ahead')
  {
    hide IsMatch;
    if length >= 3 { MatchStays(seen, seen', at, from, length); }
  }

  lemma SeenGrows(p: Point, q: Point, input: seq<Octet>)
    requires Follows(p, q, input)
    ensures p.seen <= q.seen && p.next <= q.next
  {
  }

  /** The top of the loop of deflate_slow. */
  method SlowMore(s: Matcher, flush: FlushMode) returns (r: Ahead)
    requires SlowOk(s)
    modifies s`next, s`check, s`lookahead, s`seen, s`insH, s`insert, s`strstart, s`blockStart, s`matchStart, s`base,
             s`highWater
    modifies s.window, s.chains`ins, s.chains`top, s.chains.head, s.chains.prev
    ensures SlowOk(s) && Follows(old(Here(s)), Here(s), s.input)
    ensures s.lookahead + |s.input| - s.next == old(s.lookahead + |s.input| - s.next)
    ensures r.Go? ==> s.lookahead > 0 && s.strstart + MIN_LOOKAHEAD <= s.window.Length
    ensures r.Wait? ==> flush.NO_FLUSH? && s.next == |s.input|
    ensures r.End?
            ==> s.lookahead == 0 && s.next == |s.input| && !flush.NO_FLUSH?
                && s.strstart + MIN_LOOKAHEAD <= s.window.Length
  {
    hide K.Sink.Valid, Shows, A.Adler, Chained, Covers, Steady, T.Coder.Parts, T.Coder.Statics, Matcher.Hashed, Follows,
         CandidateIn;
    Elsewhere(s);
    SlowBounds(s);
    ghost var p, ahead := Here(s), s.lookahead;
    r := MoreInput(s, MIN_LOOKAHEAD, flush, Done(s));
    SeenGrows(p, Here(s), s.input);
    StillCandidate(p.seen, s.seen, s.wsize, s.base + s.strstart - 1, s.base + s.matchStart, s.matchLength, ahead + 1,
                   s.lookahead + 1);
  }

  /** One turn of the loop of deflate_slow. */
  method SlowTurn(s: Matcher, flush: FlushMode) returns (r: Ahead)
    requires SlowOk(s)
    modifies s`next, s`check, s`lookahead, s`seen, s`insH, s`insert, s`strstart, s`blockStart, s`matchStart,
             s`matchLength, s`base, s`highWater
    modifies s`prevLength, s`prevMatch, s`matchAvailable
    modifies s`out, s`availOut, s.window, s.chains`ins, s.chains`top, s.chains.head, s.chains.prev, s.sink,
             s.sink.c.Parts()
    ensures SlowOk(s) && Follows(old(Here(s)), Here(s), s.input)
    ensures r.Go? ==> s.lookahead + |s.input| - s.next < old(s.lookahead + |s.input| - s.next)
    ensures r.Wait? ==> Stopped(s, NeedMore, flush, Done(s))
    ensures r.End?
            ==> s.lookahead == 0 && s.next == |s.input| && !flush.NO_FLUSH?
                && s.strstart + MIN_LOOKAHEAD <= s.window.Length
    ensures s.sink.extra == old(s.sink.extra)
  {
    hide K.Sink.Valid, Covers, Steady, Follows, Stopped, SlowOk, T.Coder.Parts, T.Coder.Statics, Matcher.Hashed,
         Candidacy;
    ghost var p := Here(s);
    Elsewhere(s);
    r := SlowMore(s, flush);
    SlowBounds(s);
    if r.Wait? { NeedsInput(s, flush, Done(s)); }
    if !r.Go? { return; }
    ghost var q := Here(s);
    var stop := SlowStep(s);
    FollowsTrans(p, q, Here(s), s.input);
    if stop {
      SlowBounds(s);
      NeedsSpace(s, flush, Done(s));
      r := Wait;
    }
  }

  /** Where a match found one byte before the window slides may start: match_start goes below zero, by no more than one,
      and the distance worked out from it in words of 32 bits is right all the same. */
  lemma StartBelowZero(wsize: nat)
    requires 512 <= wsize <= 32768
    ensures var strstart, max := wsize + MaxDist(wsize), MaxDist(wsize);
            var start := strstart - 1 - max; var seen: seq<Octet> :=
              seq(strstart + 2, i => if i == start || i == strstart - 1 then 1 else 0);
            && 0 < start && start + MaxDist(wsize) >= strstart - 1 && IsMatch(seen, strstart - 1, start, 3)
            && start - wsize == -1 && (strstart - wsize - 1 - (start - wsize + 0x1_0000_0000)) % 0x1_0000_0000 == max
  {
    var strstart := wsize + MaxDist(wsize);
    var start: nat := strstart - 1 - MaxDist(wsize);
    var seen: seq<Octet> := seq(strstart + 2, i => if i == start || i == strstart - 1 then 1 else 0);
    assert seen[strstart - 1..strstart + 2] == [1, 0, 0] == seen[start..start + 3];
  }

  /** The byte still to be decided on, when there is no more input. */
  method LastLiteral(s: Matcher)
    requires SlowOk(s) && s.lookahead == 0 && s.strstart + MIN_LOOKAHEAD <= s.window.Length
    modifies s`matchAvailable, s.sink`plain, s.sink.c`lastLit, s.sink.c.dBuf, s.sink.c.lBuf, s.sink.c.lt.fc,
             s.sink.c.dt.fc
    ensures Counted(s, s.base + s.strstart) && Short(s) && !s.matchAvailable && s.matchLength < 3 && s.matchLength >= 1
  {
    hide K.Sink.Valid, Shows, A.Adler, Chained, Covers, T.Coder.Parts, T.Coder.Statics, SinkAt, Matches;
    Elsewhere(s);
    if s.matchAvailable {
      var full := TallyLiteral(s, s.strstart - 1);
      s.matchAvailable := false;
    }
  }

  /** What deflate_slow does in the end: the last strings are entered when there is more input. */
  method SlowEnd(s: Matcher, flush: FlushMode) returns (state: BlockState)
    requires SlowOk(s) && s.lookahead == 0 && s.strstart + MIN_LOOKAHEAD <= s.window.Length && s.next == |s.input|
             && !flush.NO_FLUSH?
    modifies s`insert, s`matchAvailable, s`blockStart, s`out, s`availOut, s.sink, s.sink.c.Parts()
    ensures Stopped(s, state, flush, Done(s)) && Follows(old(Here(s)), Here(s), s.input) && !s.matchAvailable
    ensures state.NeedMore? || state.BlockDone? ==> SlowOk(s)
    ensures old(s.sink.extra) <= s.sink.extra <= old(s.sink.extra) + 27
  {
    hide K.Sink.Valid, Steady, Counted, Follows, Stopped, SlowOk, T.Coder.Parts, T.Coder.Statics, Covers;
    Elsewhere(s);
    LastLiteral(s);
    var n := if s.strstart < 2 then s.strstart else 2;
    EndRoom(s, n, s.base + s.strstart);
    SetInsert(s, n, s.base + s.strstart);
    state := EndInput(s, flush);
    if !flush.FINISH? { StillSlow(s, state, flush); }
  }

  lemma StillSlow(s: Matcher, state: BlockState, flush: FlushMode)
    requires Stopped(s, state, flush, s.base + s.strstart) && !flush.FINISH? && s.lookahead == 0 && !s.matchAvailable
             && 1 <= s.matchLength < 3
    ensures SlowOk(s)
  {
    hide Steady, Flushed;
  }

  /** deflate_slow */
  method DeflateSlow(s: Matcher, flush: FlushMode) returns (state: BlockState)
    requires SlowOk(s)
    modifies s`next, s`check, s`lookahead, s`seen, s`insH, s`insert, s`strstart, s`blockStart, s`matchStart,
             s`matchLength, s`base, s`highWater
    modifies s`prevLength, s`prevMatch, s`matchAvailable
    modifies s`out, s`availOut, s.window, s.chains`ins, s.chains`top, s.chains.head, s.chains.prev, s.sink,
             s.sink.c.Parts()
    ensures Stopped(s, state, flush, Done(s)) && Follows(old(Here(s)), Here(s), s.input)
            && (!state.NeedMore? ==> !s.matchAvailable)
    ensures state.NeedMore? || state.BlockDone? ==> SlowOk(s)
    ensures old(s.sink.extra) <= s.sink.extra <= old(s.sink.extra) + 27
  {
    hide K.Sink.Valid, Covers, Steady, Follows, Stopped, SlowOk, T.Coder.Parts, T.Coder.Statics;
    ghost var p := Here(s);
    Elsewhere(s);
    SlowBounds(s);
    FollowsSelf(p, s.input);
    var r := Go;
    while r.Go?
      invariant SlowOk(s) && Follows(p, Here(s), s.input) && s.sink.extra == old(s.sink.extra)
      invariant r.Wait? ==> Stopped(s, NeedMore, flush, Done(s))
      invariant r.End?
                ==> s.lookahead == 0 && s.next == |s.input| && !flush.NO_FLUSH?
                    && s.strstart + MIN_LOOKAHEAD <= s.window.Length
      decreases if r.Go? then s.lookahead + |s.input| - s.next + 1 else 0
    {
      ghost var q := Here(s);
      SlowBounds(s);
      r := SlowTurn(s, flush);
      FollowsTrans(p, q, Here(s), s.input);
    }
    if r.Wait? { return NeedMore; }
    ghost var q := Here(s);
    state := SlowEnd(s, flush);
    FollowsTrans(p, q, Here(s), s.input);
  }
}
