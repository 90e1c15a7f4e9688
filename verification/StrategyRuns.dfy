/** deflate_huff and deflate_rle of deflate.c: literals only, and runs of one byte. */
module StrategyRuns {
  import opened MatchFinder
  import opened DeflateWindow
  import opened DeflateSteps
  import K = SymbolSink
  import HC = HashChains
  import T = TokenCoder
  import A = Adler32

  type Octet = A.Octet

  // -- Literals only ----------------------------------------------------------------------------------------------

  /** A literal for each byte since the last block. */
  ghost predicate OneEach(s: Matcher)
    reads s`blockStart, s`strstart, s.sink.c`lastLit
  {
    s.strstart - s.blockStart == s.sink.c.lastLit
  }

  lemma OneEachShort(s: Matcher, to: nat)
    requires OneEach(s) && SinkAt(s, to)
    ensures Short(s)
  {
    hide K.Sink.Valid;
    s.sink.BlockLimit();
  }

  lemma SteadyShort(s: Matcher)
    requires OneEach(s) && Counted(s, s.base + s.strstart)
    ensures Short(s)
  {
    hide K.Sink.Valid, A.Adler, HC.Chained;
    OneEachShort(s, s.base + s.strstart);
  }

  /** The byte at strstart as a literal. */
  method LiteralTurn(s: Matcher) returns (full: bool)
    requires Steady(s, s.base + s.strstart) && s.lookahead > 0
    modifies s`lookahead, s`strstart, s.sink`plain, s.sink.c`lastLit, s.sink.c.dBuf, s.sink.c.lBuf, s.sink.c.lt.fc,
             s.sink.c.dt.fc
    ensures s.strstart == old(s.strstart) + 1 && s.lookahead == old(s.lookahead) - 1
            && s.sink.c.lastLit == old(s.sink.c.lastLit) + 1
    ensures Counted(s, s.base + s.strstart) && full == !s.sink.Room()
  {
    hide K.Sink.Valid, Shows, A.Adler, HC.Chained, Matcher.InputOk, Matcher.ChainOk;
    full := TallyLiteral(s, s.strstart);
    Advance(s, 1);
  }

  /** A literal, and the block when it is full. */
  method LiteralStep(s: Matcher) returns (stop: bool)
    requires Steady(s, s.base + s.strstart) && OneEach(s) && s.lookahead > 0
    modifies s`lookahead, s`strstart, s`blockStart, s`out, s`availOut, s.sink, s.sink.c.Parts()
    ensures Steady(s, s.base + s.strstart) && OneEach(s) && Follows(old(Here(s)), Here(s), s.input)
    ensures s.lookahead == old(s.lookahead) - 1 && s.strstart == old(s.strstart) + 1 && (stop ==> s.availOut == 0)
    ensures s.sink.extra == old(s.sink.extra)
  {
    hide K.Sink.Valid, Shows, A.Adler, HC.Chained, Matcher.InputOk, Matcher.ChainOk, SinkAt, Follows, T.Coder.Parts,
         T.Coder.Statics;
    Elsewhere(s);
    var full := LiteralTurn(s);
    SteadyShort(s);
    stop := EndIfFull(s, full);
  }

  /** One turn of the loop of deflate_huff. */
  method HuffTurn(s: Matcher, flush: FlushMode) returns (r: Ahead)
    requires Steady(s, s.base + s.strstart) && OneEach(s)
    modifies s`next, s`check, s`lookahead, s`seen, s`insH, s`insert, s`strstart, s`blockStart, s`matchStart,
             s`matchLength, s`base, s`highWater
    modifies s`out, s`availOut, s.window, s.chains`ins, s.chains`top, s.chains.head, s.chains.prev, s.sink,
             s.sink.c.Parts()
    ensures Steady(s, s.base + s.strstart) && OneEach(s) && Follows(old(Here(s)), Here(s), s.input)
    ensures r.Go? ==> s.lookahead + |s.input| - s.next < old(s.lookahead + |s.input| - s.next)
    ensures r.Wait? ==> Stopped(s, NeedMore, flush, s.base + s.strstart)
    ensures r.End? ==> s.lookahead == 0 && s.next == |s.input| && !flush.NO_FLUSH?
    ensures s.sink.extra == old(s.sink.extra)
  {
    hide K.Sink.Valid, Shows, A.Adler, HC.Chained, Steady, Follows, Stopped, T.Coder.Parts, T.Coder.Statics;
    ghost var p := Here(s);
    Elsewhere(s);
    r := MoreInput(s, 1, flush, s.base + s.strstart);
    if r.Wait? { NeedsInput(s, flush, s.base + s.strstart); }
    if !r.Go? { return; }
    ghost var q := Here(s);
    s.matchLength := 0;
    var stop := LiteralStep(s);
    FollowsTrans(p, q, Here(s), s.input);
    if stop {
      NeedsSpace(s, flush, s.base + s.strstart);
      r := Wait;
    }
  }

  /** What deflate_huff does in the end. */
  method HuffEnd(s: Matcher, flush: FlushMode) returns (state: BlockState)
    requires Steady(s, s.base + s.strstart) && OneEach(s) && s.lookahead == 0 && s.next == |s.input| && !flush.NO_FLUSH?
    modifies s`insert, s`blockStart, s`out, s`availOut, s.sink, s.sink.c.Parts()
    ensures Stopped(s, state, flush, s.base + s.strstart) && OneEach(s) && Follows(old(Here(s)), Here(s), s.input)
    ensures old(s.sink.extra) <= s.sink.extra <= old(s.sink.extra) + 27
  {
    hide K.Sink.Valid, Steady, Counted, Follows, Stopped, T.Coder.Parts, T.Coder.Statics, Short;
    Elsewhere(s);
    SteadyBounds(s, s.base + s.strstart);
    SteadyShort(s);
    SetInsert(s, 0, s.base + s.strstart);
    state := EndInput(s, flush);
  }

  /** deflate_huff */
  method DeflateHuff(s: Matcher, flush: FlushMode) returns (state: BlockState)
    requires Steady(s, s.base + s.strstart) && OneEach(s)
    modifies s`next, s`check, s`lookahead, s`seen, s`insH, s`insert, s`strstart, s`blockStart, s`matchStart,
             s`matchLength, s`base, s`highWater
    modifies s`out, s`availOut, s.window, s.chains`ins, s.chains`top, s.chains.head, s.chains.prev, s.sink,
             s.sink.c.Parts()
    ensures Stopped(s, state, flush, s.base + s.strstart) && OneEach(s) && Follows(old(Here(s)), Here(s), s.input)
    ensures old(s.sink.extra) <= s.sink.extra <= old(s.sink.extra) + 27
  {
    hide K.Sink.Valid, Steady, Follows, Stopped, T.Coder.Parts, T.Coder.Statics;
    ghost var p := Here(s);
    Elsewhere(s);
    SteadyBounds(s, s.base + s.strstart);
    FollowsSelf(p, s.input);
    var r := Go;
    while r.Go?
      invariant Steady(s, s.base + s.strstart) && OneEach(s) && Follows(p, Here(s), s.input)
                && s.sink.extra == old(s.sink.extra)
      invariant r.Wait? ==> Stopped(s, NeedMore, flush, s.base + s.strstart)
      invariant r.End? ==> s.lookahead == 0 && s.next == |s.input| && !flush.NO_FLUSH?
      decreases if r.Go? then s.lookahead + |s.input| - s.next + 1 else 0
    {
      ghost var q := Here(s);
      SteadyBounds(s, s.base + s.strstart);
      r := HuffTurn(s, flush);
      FollowsTrans(p, q, Here(s), s.input);
    }
    if r.Wait? { return NeedMore; }
    ghost var q := Here(s);
    state := HuffEnd(s, flush);
    FollowsTrans(p, q, Here(s), s.input);
  }

  // -- Runs -------------------------------------------------------------------------------------------------------

  /** All n bytes from `at` on are b. */
  ghost predicate AllAre(w: seq<Octet>, at: nat, n: nat, b: Octet) {
    at + n <= |w| && forall i | at <= i < at + n :: w[i] == b
  }

  /** A run that starts one byte before `at` is a match at distance one. */
  lemma RunMatches(w: seq<Octet>, at: nat, n: nat, b: Octet)
    requires at > 0 && AllAre(w, at - 1, n + 1, b)
    ensures IsMatch(w, at, at - 1, n)
  {
  }

  /** Where a byte differs from the first of the run, the run is over. */
  lemma RunIs(w: seq<Octet>, at: nat, k: nat)
    requires 0 < at && at + MAX_MATCH < |w| && k <= MAX_MATCH
    ensures k < MAX_MATCH && w[at + k] != w[at - 1] ==> Same(w, at, at - 1, MAX_MATCH) <= k
  {
    hide IsMatch;
    var n := Same(w, at, at - 1, MAX_MATCH);
    hide Same;
    SameMatches(w, at, at - 1, MAX_MATCH);
    if k < n { RunThrough(w, at, n, k); }
  }

  lemma {:induction false} RunThrough(w: seq<Octet>, at: nat, n: nat, k: nat)
    requires 0 < at && IsMatch(w, at, at - 1, n) && k < n
    ensures w[at + k] == w[at - 1]
  {
    hide IsMatch;
    MatchAt(w, at, at - 1, n, k);
    if k > 0 { RunThrough(w, at, n, k - 1); }
  }

  /** The comparison of eight bytes with the first of the run. */
  method RunEight(window: array<Octet>, at: nat, k: nat, prev: Octet) returns (len: nat, equal: bool)
    requires 0 < at && 2 <= k && k + 8 <= MAX_MATCH && at + MAX_MATCH < window.Length
             && AllAre(window[..], at - 1, k + 2, prev)
    ensures k < len <= k + 8 && AllAre(window[..], at - 1, len + 1, prev)
    ensures if equal then len == k + 8 && AllAre(window[..], at - 1, len + 2, prev) else window[at + len] != prev
  {
    len, equal := k, true;
    var left := 8;
    while equal && left > 0
      invariant 0 <= left <= 8 && len == k + 8 - left && (left == 8 ==> equal)
      invariant AllAre(window[..], at - 1, len + 1, prev)
      invariant if equal then AllAre(window[..], at - 1, len + 2, prev) else window[at + len] != prev
    {
      len, left := len + 1, left - 1;
      equal := window[at + len] == prev;
    }
  }

  /** How often the byte before `at` is repeated, up to the longest match; 0 for less than three times. */
  method RunLength(window: array<Octet>, at: nat) returns (len: nat)
    requires 0 < at && at + MAX_MATCH < window.Length
    ensures len <= MAX_MATCH && (len > 0 ==> 3 <= len && IsMatch(window[..], at, at - 1, len))
    ensures var run := Same(window[..], at, at - 1, MAX_MATCH); len == if run >= 3 then run else 0
  {
    hide IsMatch, Same;
    RunIs(window[..], at, 0);
    RunIs(window[..], at, 1);
    RunIs(window[..], at, 2);
    var prev := window[at - 1];
    if window[at] != prev || window[at + 1] != prev || window[at + 2] != prev { return 0; }
    var equal;
    len, equal := RunEight(window, at, 2, prev);
    while equal && len < MAX_MATCH
      invariant equal ==> (len - 2) % 8 == 0
      invariant 3 <= len <= MAX_MATCH && AllAre(window[..], at - 1, len + 1, prev)
      invariant if equal then AllAre(window[..], at - 1, len + 2, prev) else window[at + len] != prev
      decreases MAX_MATCH - len
    {
      len, equal := RunEight(window, at, len, prev);
    }
    RunMatches(window[..], at, len, prev);
    SameIs(window[..], at, at - 1, MAX_MATCH, len);
    RunIs(window[..], at, len);
  }

  /** The run in the window is that in the input, as far as that goes. */
  lemma RunInInput(w: seq<Octet>, n: nat, seen: seq<Octet>, base: nat, at: nat, most: nat)
    requires Shows(w, n, seen, base) && 0 < at && at + MAX_MATCH < |w| && at + most <= n && most <= MAX_MATCH
    ensures base + at + most <= |seen|
    ensures var run := Same(w, at, at - 1, MAX_MATCH);
            Same(seen, base + at, base + at - 1, most) == if run > most then most else run
  {
    hide Shows, Same, IsMatch;
    ShowsSize(w, n, seen, base);
    var run := Same(w, at, at - 1, MAX_MATCH);
    var k := if run > most then most else run;
    SameMatches(w, at, at - 1, MAX_MATCH);
    InInput(w, n, seen, base, at, at - 1, run, k);
    SameIs(seen, base + at, base + at - 1, most, k);
    if run < MAX_MATCH { SameInput(w, n, seen, base, at, at - 1, most, run); }
  }

  /** How often the byte before `at` is repeated within what is ahead, up to the longest match, if that makes a match.
      */
  function LongRun(seen: seq<Octet>, at: nat, lookahead: nat): nat {
    var most := Min(lookahead, MAX_MATCH);
    if 0 < at && at + most <= |seen| && Same(seen, at, at - 1, most) >= 3 then Same(seen, at, at - 1, most) else 0
  }

  /** See how many times the previous byte repeats. */
  method RunAhead(window: array<Octet>, strstart: nat, lookahead: nat, ghost seen: seq<Octet>, ghost base: nat)
      returns (length: nat)
    requires Shows(window[..], strstart + lookahead, seen, base) && strstart + MAX_MATCH < window.Length
    ensures length == if lookahead >= 3 && strstart > 0 then LongRun(seen, base + strstart, lookahead) else 0
    ensures length > 0 ==> 3 <= length <= MAX_MATCH && length <= lookahead && base + strstart >= 1
    ensures length > 0 ==> IsMatch(seen, base + strstart, base + strstart - 1, length)
  {
    hide Shows, IsMatch, Same;
    length := 0;
    if lookahead >= 3 && strstart > 0 {
      ShowsSize(window[..], strstart + lookahead, seen, base);
      var run := RunLength(window, strstart);
      length := if run > lookahead then lookahead else run;
      RunInInput(window[..], strstart + lookahead, seen, base, strstart, Min(lookahead, MAX_MATCH));
      if length > 0 { InInput(window[..], strstart + lookahead, seen, base, strstart, strstart - 1, run, length); }
    }
  }

  method FindRun(s: Matcher)
    requires Steady(s, s.base + s.strstart) && s.lookahead > 0 && s.strstart + MAX_MATCH < s.window.Length
    modifies s`matchLength
    ensures Steady(s, s.base + s.strstart)
    ensures s.matchLength >= 3
            ==> s.matchLength <= MAX_MATCH && s.matchLength <= s.lookahead
                && s.base + s.strstart >= 1
    ensures s.matchLength >= 3 ==> IsMatch(s.seen, s.base + s.strstart, s.base + s.strstart - 1, s.matchLength)
    ensures s.matchLength == if s.lookahead >= 3 && s.strstart > 0
            then LongRun(s.seen, s.base + s.strstart, s.lookahead) else 0
  {
    hide K.Sink.Valid, Shows, A.Adler, HC.Chained, IsMatch, LongRun, SinkAt, T.Coder.Parts, T.Coder.Statics;
    Elsewhere(s);
    s.matchLength := RunAhead(s.window, s.strstart, s.lookahead, s.seen, s.base);
  }

  /** A run as a match at distance one. */
  method RunTurn(s: Matcher, length: nat) returns (full: bool)
    requires Steady(s, s.base + s.strstart) && length == s.matchLength && 3 <= length <= MAX_MATCH
             && length <= s.lookahead && 1 <= s.base + s.strstart
    requires IsMatch(s.seen, s.base + s.strstart, s.base + s.strstart - 1, length)
    modifies s`lookahead, s`strstart, s`matchLength, s.sink`plain, s.sink.c`lastLit, s.sink.c.dBuf, s.sink.c.lBuf,
             s.sink.c.lt.fc, s.sink.c.dt.fc
    ensures s.strstart == old(s.strstart) + length && s.lookahead == old(s.lookahead) - length
    ensures Counted(s, s.base + s.strstart) && full == !s.sink.Room()
  {
    hide K.Sink.Valid, Shows, A.Adler, HC.Chained, Matcher.InputOk, Matcher.ChainOk, IsMatch;
    full := TallyMatch(s, 1, length, s.base + s.strstart);
    Advance(s, length);
    s.matchLength := 0;
  }

  /** A run or a literal, and the block when it is full. */
  method RleStep(s: Matcher) returns (stop: bool)
    requires Steady(s, s.base + s.strstart) && s.lookahead > 0 && s.strstart + MAX_MATCH < s.window.Length
    modifies s`lookahead, s`strstart, s`blockStart, s`matchLength, s`out, s`availOut, s.sink, s.sink.c.Parts()
    ensures Steady(s, s.base + s.strstart) && Follows(old(Here(s)), Here(s), s.input)
    ensures s.lookahead < old(s.lookahead) && (stop ==> s.availOut == 0)
    ensures s.sink.extra == old(s.sink.extra)
  {
    hide K.Sink.Valid, Shows, A.Adler, HC.Chained, Matcher.InputOk, Matcher.ChainOk, SinkAt, Follows, T.Coder.Parts,
         T.Coder.Statics, IsMatch, Steady;
    Elsewhere(s);
    SteadyBounds(s, s.base + s.strstart);
    FindRun(s);
    var full;
    if s.matchLength >= MIN_MATCH {
      full := RunTurn(s, s.matchLength);
    } else {
      full := LiteralTurn(s);
    }
    stop := EndIfFull(s, full);
  }

  /** One turn of the loop of deflate_rle. */
  method RleTurn(s: Matcher, flush: FlushMode) returns (r: Ahead)
    requires Steady(s, s.base + s.strstart)
    modifies s`next, s`check, s`lookahead, s`seen, s`insH, s`insert, s`strstart, s`blockStart, s`matchStart,
             s`matchLength, s`base, s`highWater
    modifies s`out, s`availOut, s.window, s.chains`ins, s.chains`top, s.chains.head, s.chains.prev, s.sink,
             s.sink.c.Parts()
    ensures Steady(s, s.base + s.strstart) && Follows(old(Here(s)), Here(s), s.input)
    ensures r.Go? ==> s.lookahead + |s.input| - s.next < old(s.lookahead + |s.input| - s.next)
    ensures r.Wait? ==> Stopped(s, NeedMore, flush, s.base + s.strstart)
    ensures r.End?
            ==> s.lookahead == 0 && s.next == |s.input| && !flush.NO_FLUSH?
                && s.strstart + MIN_LOOKAHEAD <= s.window.Length
    ensures s.sink.extra == old(s.sink.extra)
  {
    hide K.Sink.Valid, Shows, A.Adler, HC.Chained, Steady, Follows, Stopped, T.Coder.Parts, T.Coder.Statics;
    ghost var p := Here(s);
    Elsewhere(s);
    r := MoreInput(s, MAX_MATCH + 1, flush, s.base + s.strstart);
    if r.Wait? { NeedsInput(s, flush, s.base + s.strstart); }
    if !r.Go? { return; }
    ghost var q := Here(s);
    var stop := RleStep(s);
    FollowsTrans(p, q, Here(s), s.input);
    if stop {
      NeedsSpace(s, flush, s.base + s.strstart);
      r := Wait;
    }
  }

  /** What deflate_rle does in the end. */
  method RleEnd(s: Matcher, flush: FlushMode) returns (state: BlockState)
    requires Steady(s, s.base + s.strstart) && s.strstart + MIN_LOOKAHEAD <= s.window.Length
    requires s.lookahead == 0 && s.next == |s.input| && !flush.NO_FLUSH?
    modifies s`insert, s`blockStart, s`out, s`availOut, s.sink, s.sink.c.Parts()
    ensures Stopped(s, state, flush, s.base + s.strstart) && Follows(old(Here(s)), Here(s), s.input)
    ensures old(s.sink.extra) <= s.sink.extra <= old(s.sink.extra) + 27
  {
    hide K.Sink.Valid, Steady, Counted, Follows, Stopped, T.Coder.Parts, T.Coder.Statics;
    Elsewhere(s);
    SteadyBounds(s, s.base + s.strstart);
    SetInsert(s, 0, s.base + s.strstart);
    state := EndInput(s, flush);
  }

  /** deflate_rle */
  method DeflateRle(s: Matcher, flush: FlushMode) returns (state: BlockState)
    requires Steady(s, s.base + s.strstart)
    modifies s`next, s`check, s`lookahead, s`seen, s`insH, s`insert, s`strstart, s`blockStart, s`matchStart,
             s`matchLength, s`base, s`highWater
    modifies s`out, s`availOut, s.window, s.chains`ins, s.chains`top, s.chains.head, s.chains.prev, s.sink,
             s.sink.c.Parts()
    ensures Stopped(s, state, flush, s.base + s.strstart) && Follows(old(Here(s)), Here(s), s.input)
    ensures old(s.sink.extra) <= s.sink.extra <= old(s.sink.extra) + 27
  {
    hide K.Sink.Valid, Shows, A.Adler, HC.Chained, Steady, Follows, Stopped, T.Coder.Parts, T.Coder.Statics;
    ghost var p := Here(s);
    Elsewhere(s);
    SteadyBounds(s, s.base + s.strstart);
    FollowsSelf(p, s.input);
    var r := Go;
    while r.Go?
      invariant Steady(s, s.base + s.strstart) && Follows(p, Here(s), s.input) && s.sink.extra == old(s.sink.extra)
      invariant r.Wait? ==> Stopped(s, NeedMore, flush, s.base + s.strstart)
      invariant r.End?
                ==> s.lookahead == 0 && s.next == |s.input| && !flush.NO_FLUSH?
                    && s.strstart + MIN_LOOKAHEAD <= s.window.Length
      decreases if r.Go? then s.lookahead + |s.input| - s.next + 1 else 0
    {
      ghost var q := Here(s);
      SteadyBounds(s, s.base + s.strstart);
      r := RleTurn(s, flush);
      FollowsTrans(p, q, Here(s), s.input);
    }
    if r.Wait? { return NeedMore; }
    ghost var q := Here(s);
    state := RleEnd(s, flush);
    FollowsTrans(p, q, Here(s), s.input);
  }
}
