/** The window of deflate.c: filled from the input, slid by its half, and its strings entered in the hash table. */
module DeflateWindow {
  import opened HashKey
  import opened HashChains
  import opened MatchFinder
  import K = SymbolSink
  import A = Adler32

  type Octet = A.Octet

  /** What deflateInit2_ is given, how adler32 is compiled, and the values for the level. */
  datatype Settings = Settings(wrap: bool, fixed: bool, filtered: bool, divide: bool, tuning: Tuning)

  class Matcher {
    const sink: K.Sink
    const chains: Chains
    const window: array<Octet>
    const wsize: nat
    const settings: Settings

    /** next_in and avail_in, and the check value of what has been read. */
    var input: seq<Octet>
    var next: nat
    var check: nat

    /** What has been delivered in this call, and how much space is left. */
    var out: seq<Octet>
    var availOut: nat

    var strstart: nat
    var lookahead: nat
    var insert: nat
    var insH: nat
    var blockStart: int
    var matchLength: nat
    var matchStart: int
    var prevLength: nat
    var prevMatch: int
    var matchAvailable: bool
    var highWater: nat

    /** All input read so far, and how much of it has slid out of the window. */
    ghost var seen: seq<Octet>
    ghost var base: nat

    ghost predicate Sized() {
      && window.Length == 2 * wsize && chains.wsize == wsize && 512 <= wsize <= 32768 && wsize <= sink.cfg.wsize
      && Suits(chains.key) && chains.head != chains.prev && chains.head.Length > 0 && sink.c.dBuf.Length >= 128
    }

    /** The window shows the end of what has been read. */
    ghost predicate InputOk()
      reads this`input, this`next, this`check, this`strstart, this`lookahead, this`seen, this`base, window
    {
      && next <= |input| && strstart + lookahead <= window.Length && Shows(window[..], strstart + lookahead, seen, base)
      && (settings.wrap ==> check == A.Adler(seen))
    }

    /** What has been entered lies before what is to be entered. */
    ghost predicate ChainOk()
      reads this`strstart, this`insert, this`seen, this`base, chains, chains.head, chains.prev
    {
      chains.Valid(seen, base) && insert <= strstart && insert <= 2 && chains.top + insert <= base + strstart
    }

    /** The running key is right for the next string, if there is one. */
    ghost predicate Hashed()
      reads this`strstart, this`lookahead, this`insert, this`insH, this`seen, this`base, chains
    {
      lookahead >= 3 ==>
        insert == 0 && base + strstart + 1 < |seen|
        && Covers(chains.key, insH, seen[base + strstart], seen[base + strstart + 1])
    }

    /** lm_init */
    constructor (sink: K.Sink, key: Hash, wsize: nat, settings: Settings)
      requires 512 <= wsize <= 32768 && wsize <= sink.cfg.wsize && sink.c.dBuf.Length >= 128 && Suits(key)
      ensures this.sink == sink && this.settings == settings && this.wsize == wsize && chains.key == key
      ensures Sized() && InputOk() && ChainOk() && Hashed() && fresh(chains) && fresh(chains.head) && fresh(chains.prev)
              && fresh(window)
      ensures strstart == lookahead == insert == 0 && blockStart == 0 && matchLength == prevLength == 2
              && !matchAvailable
      ensures input == [] && next == 0 && out == [] && availOut == 0 && seen == [] && base == 0
    {
      this.sink, this.settings, this.wsize := sink, settings, wsize;
      chains := new Chains(key, wsize);
      window := new Octet[2 * wsize](_ => 0);
      input, next, check, out, availOut := [], 0, 1, [], 0;
      strstart, lookahead, insert, insH, blockStart := 0, 0, 0, 0, 0;
      matchLength, prevLength, matchStart, prevMatch, matchAvailable, highWater := 2, 2, 0, 0, false, 0;
      seen, base := [], 0;
      new;
      A.AdlerNone();
    }

    // -- Filling the window -----------------------------------------------------------------------------------------

    /** The upper half of the window moved down. */
    method SlideWindow(ghost n: nat)
      requires Sized() && wsize <= strstart && n == strstart + lookahead <= window.Length
               && Shows(window[..], n, seen, base) && chains.Valid(seen, base)
      modifies this`strstart, this`blockStart, this`matchStart, this`base, window, chains.head, chains.prev
      ensures strstart == old(strstart) - wsize && base == old(base) + wsize && blockStart == old(blockStart) - wsize
      ensures matchStart == old(matchStart) - wsize
      ensures Shows(window[..], n - wsize, seen, base) && chains.Valid(seen, base)
    {
      hide Chained, Key, Shows;
      ghost var before := window[..];
      var more := window.Length - lookahead - strstart;
      MoveDown(window, wsize, wsize - more);
      matchStart := matchStart - wsize;
      strstart := strstart - wsize;
      blockStart := blockStart - wsize;
      SlidShows(before, window[..], n, seen, base, wsize);
      chains.Slide(seen, base);
      base := base + wsize;
    }

    /** read_buf, to the end of what the window shows. */
    method ReadBuf() returns (n: nat)
      requires Sized() && InputOk() && strstart + lookahead < window.Length && next < |input|
      modifies this`next, this`check, this`lookahead, this`seen, window
      ensures InputOk() && n > 0 && lookahead == old(lookahead) + n && next == old(next) + n
      ensures seen == old(seen) + input[old(next)..next]
    {
      hide A.Adler, A.Checksum, A.OneByteFails, Shows;
      ghost var before, at := window[..], strstart + lookahead;
      n := |input| - next;
      if n > window.Length - lookahead - strstart { n := window.Length - lookahead - strstart; }
      ghost var chunk := input[next..next + n];
      var p := strstart + lookahead;
      CopyIn(window, p, input[next..next + n]);
      if settings.wrap {
        A.AdlerContinues(seen, chunk);
        check := A.AdlerOf(check, window, p, n, settings.divide);
      }
      ReadShows(before, window[..], at, n, seen, base, chunk);
      seen := seen + chunk;
      next := next + n;
      lookahead := lookahead + n;
    }

    // -- Strings entered in the hash table ------------------------------------------------------------------------

    /** The key goes on with the two bytes before the third of this string. */
    ghost predicate At(str: nat)
      reads this`insH, this`seen, this`base, chains
    {
      base + str + 3 <= |seen| && chains.top <= base + str
        && Covers(chains.key, insH, seen[base + str], seen[base + str + 1])
    }

    /** INSERT_STRING */
    method InsertString(str: nat, ghost n: nat) returns (found: nat)
      requires Sized() && n <= window.Length && Shows(window[..], n, seen, base) && chains.Valid(seen, base) && At(str)
      modifies this`insH, chains`ins, chains`top, chains.head, chains.prev
      ensures chains.Valid(seen, base) && chains.top == base + str + 1
      ensures base + str + 4 <= |seen| ==> At(str + 1)
      ensures base + str + 2 < |seen| && Covers(chains.key, insH, seen[base + str + 1], seen[base + str + 2])
      ensures found > 0 && str - found <= MaxDist(wsize) ==> Candidate(chains, seen, base, str, found)
    {
      hide Chained, Update, Key, Covers, A.Adler, Shows;
      ShowsSize(window[..], n, seen, base);
      ShowsAt(window[..], n, seen, base, str + 2);
      CoversNext(chains.key, insH, seen[base + str], seen[base + str + 1], seen[base + str + 2]);
      insH := Update(chains.key, insH, window[str + 2]);
      found := chains.Insert(insH, str, seen, base);
    }

    /** The key from two bytes alone. */
    method StartKey(str: nat)
      requires Sized() && str + 1 < window.Length
      modifies this`insH
      ensures Covers(chains.key, insH, window[str], window[str + 1])
    {
      hide Covers;
      CoversFirst(chains.key, window[str], window[str + 1]);
      insH := Update(chains.key, window[str], window[str + 1]);
    }

    /** The strings left over from before, now that there may be input for them. */
    method Rehash()
      requires Sized() && InputOk() && ChainOk()
      modifies this`insH, this`insert, chains`ins, chains`top, chains.head, chains.prev
      ensures ChainOk() && Hashed() && (insert > 0 ==> lookahead < 3)
    {
      hide Chained, Update, Key, Covers, A.Adler, Shows;
      if lookahead + insert < 3 { return; }
      ShowsSize(window[..], strstart + lookahead, seen, base);
      var str := strstart - insert;
      StartKey(str);
      ShowsAt(window[..], strstart + lookahead, seen, base, str);
      ShowsAt(window[..], strstart + lookahead, seen, base, str + 1);
      while insert > 0
        invariant str == strstart - insert && insert <= strstart && ChainOk() && lookahead + insert >= 2
        invariant base + str + 1 < |seen| && Covers(chains.key, insH, seen[base + str], seen[base + str + 1])
        invariant insert > 0 ==> lookahead + insert >= 3
      {
        var found := InsertString(str, strstart + lookahead);
        str, insert := str + 1, insert - 1;
        if lookahead + insert < 3 { break; }
      }
    }

    // -- fill_window ------------------------------------------------------------------------------------------------

    /** The window slid when it is nearly full. */
    method MakeRoom()
      requires Sized() && InputOk() && ChainOk() && lookahead < MIN_LOOKAHEAD
      modifies this`strstart, this`blockStart, this`matchStart, this`base, window, chains.head, chains.prev
      ensures InputOk() && ChainOk() && strstart + MIN_LOOKAHEAD <= window.Length
              && strstart + lookahead < window.Length
      ensures (old(Hashed()) ==> Hashed()) && (old(strstart) > 0 ==> strstart > 0)
      ensures base + strstart == old(base + strstart) && base + blockStart == old(base + blockStart)
              && base + matchStart == old(base + matchStart)
    {
      hide Chained, A.Adler, Shows;
      if strstart >= wsize + MaxDist(wsize) { SlideWindow(strstart + lookahead); }
    }

    /** One read, and what comes of it. */
    method ReadMore()
      requires Sized() && InputOk() && ChainOk() && strstart + lookahead < window.Length && next < |input|
      modifies this`next, this`check, this`lookahead, this`seen, this`insH, this`insert, window, chains`ins, chains`top,
               chains.head, chains.prev
      ensures InputOk() && ChainOk() && Hashed() && (insert > 0 ==> lookahead < 3)
      ensures next > old(next) && seen == old(seen) + input[old(next)..next]
    {
      hide Chained, Update, Key, Covers, A.Adler, Shows;
      ghost var before := seen;
      var n := ReadBuf();
      chains.More(before, seen, base);
      Rehash();
    }

    /** The bytes ahead of the input that longest_match may look at. */
    method ZeroAhead()
      requires Sized() && InputOk()
      modifies this`highWater, window
      ensures InputOk()
    {
      hide A.Adler;
      if highWater < window.Length {
        var curr := strstart + lookahead;
        if highWater < curr {
          var init := window.Length - curr;
          if init > MAX_MATCH { init := MAX_MATCH; }
          Zero(window, curr, init);
          ZeroShows(old(window[..]), window[..], curr, curr, seen, base);
          highWater := curr + init;
        } else if highWater < curr + MAX_MATCH {
          var init := curr + MAX_MATCH - highWater;
          if init > window.Length - highWater { init := window.Length - highWater; }
          Zero(window, highWater, init);
          ZeroShows(old(window[..]), window[..], curr, highWater, seen, base);
          highWater := highWater + init;
        }
      }
    }

    lemma InputBounds()
      requires InputOk()
      ensures next <= |input| && strstart + lookahead <= window.Length && base + strstart + lookahead == |seen|
    {
    }

    /** One turn of the loop of fill_window. */
    method FillOnce() returns (again: bool)
      requires Sized() && InputOk() && ChainOk() && lookahead < MIN_LOOKAHEAD && (insert > 0 ==> lookahead < 3)
      modifies this`next, this`check, this`lookahead, this`seen, this`insH, this`insert, this`strstart, this`blockStart,
               this`matchStart
      modifies this`base, window, chains`ins, chains`top, chains.head, chains.prev
      ensures InputOk() && ChainOk() && (insert > 0 ==> lookahead < 3) && (old(Hashed()) ==> Hashed())
      ensures if again then lookahead < MIN_LOOKAHEAD && next > old(next)
              else strstart + MIN_LOOKAHEAD <= window.Length && (lookahead >= MIN_LOOKAHEAD || next == |input|)
      ensures base + strstart == old(base + strstart) && base + blockStart == old(base + blockStart)
              && base + matchStart == old(base + matchStart)
      ensures old(next) <= next <= |input| && seen == old(seen) + input[old(next)..next]
              && (old(strstart) > 0 ==> strstart > 0)
    {
      hide Chained, Update, Key, Covers, A.Adler, Shows, ChainOk, Hashed, InputOk;
      InputBounds();
      MakeRoom();
      if next == |input| { return false; }
      ReadMore();
      InputBounds();
      again := lookahead < MIN_LOOKAHEAD && next != |input|;
    }

    /** fill_window */
    method FillWindow()
      requires Sized() && InputOk() && ChainOk() && lookahead < MIN_LOOKAHEAD && (insert > 0 ==> lookahead < 3)
      modifies this`next, this`check, this`lookahead, this`seen, this`insH, this`insert, this`strstart, this`blockStart,
               this`matchStart
      modifies this`base, this`highWater, window, chains`ins, chains`top, chains.head, chains.prev
      ensures InputOk() && ChainOk() && (insert > 0 ==> lookahead < 3) && (old(Hashed()) ==> Hashed())
      ensures strstart + MIN_LOOKAHEAD <= window.Length && (lookahead >= MIN_LOOKAHEAD || next == |input|)
      ensures base + strstart == old(base + strstart) && base + blockStart == old(base + blockStart)
              && base + matchStart == old(base + matchStart)
      ensures old(next) <= next <= |input| && seen == old(seen) + input[old(next)..next]
              && (old(strstart) > 0 ==> strstart > 0)
    {
      hide Chained, Update, Key, Covers, A.Adler, Shows, ChainOk, Hashed, InputOk;
      InputBounds();
      var again := true;
      while again
        invariant InputOk() && ChainOk() && (insert > 0 ==> lookahead < 3) && (old(Hashed()) ==> Hashed())
        invariant if again then lookahead < MIN_LOOKAHEAD
                  else strstart + MIN_LOOKAHEAD <= window.Length && (lookahead >= MIN_LOOKAHEAD || next == |input|)
        invariant base + strstart == old(base + strstart) && base + blockStart == old(base + blockStart)
                  && base + matchStart == old(base + matchStart)
        invariant old(next) <= next <= |input| && seen == old(seen) + input[old(next)..next]
                  && (old(strstart) > 0 ==> strstart > 0)
        decreases |input| - next, again
      {
        ghost var at := next;
        again := FillOnce();
        InputMore(input, old(next), at, next);
      }
      ZeroAhead();
    }
  }

  /** zmemcpy from the upper half of the window to the lower. */
  method MoveDown(window: array<Octet>, wsize: nat, n: nat)
    requires window.Length == 2 * wsize && n <= wsize
    modifies window
    ensures window[..n] == old(window[wsize..wsize + n])
  {
    forall i | 0 <= i < n { window[i] := window[wsize + i]; }
  }

  /** zmemcpy into the window. */
  method CopyIn(window: array<Octet>, at: nat, bytes: seq<Octet>)
    requires at + |bytes| <= window.Length
    modifies window
    ensures window[..at] == old(window[..at]) && window[at..at + |bytes|] == bytes
  {
    forall i | 0 <= i < |bytes| { window[at + i] := bytes[i]; }
  }

  lemma SlidShows(w: seq<Octet>, w': seq<Octet>, n: nat, seen: seq<Octet>, base: nat, wsize: nat)
    requires Shows(w, n, seen, base) && wsize <= n <= 2 * wsize == |w| == |w'| && w'[..n - wsize] == w[wsize..n]
    ensures Shows(w', n - wsize, seen, base + wsize)
  {
    assert w[wsize..n] == w[..n][wsize..];
    assert seen[base + wsize..] == seen[base..][wsize..];
  }

  lemma ReadShows(w: seq<Octet>, w': seq<Octet>, at: nat, n: nat, seen: seq<Octet>, base: nat, chunk: seq<Octet>)
    requires Shows(w, at, seen, base) && at + n <= |w'| && w'[..at] == w[..at] && w'[at..at + n] == chunk
    ensures Shows(w', at + n, seen + chunk, base)
  {
    assert w'[..at + n] == w'[..at] + w'[at..at + n];
    assert (seen + chunk)[base..] == seen[base..] + chunk;
  }

  /** zmemzero */
  method Zero(window: array<Octet>, at: nat, n: nat)
    requires at + n <= window.Length
    modifies window
    ensures window[..at] == old(window[..at])
  {
    forall i | at <= i < at + n { window[i] := 0; }
  }

  lemma ZeroShows(w: seq<Octet>, w': seq<Octet>, n: nat, at: nat, seen: seq<Octet>, base: nat)
    requires Shows(w, n, seen, base) && n <= at <= |w| == |w'| && w'[..at] == w[..at]
    ensures Shows(w', n, seen, base)
  {
    assert w'[..n] == w'[..at][..n] && w[..n] == w[..at][..n];
  }

  lemma InputMore(input: seq<Octet>, a: nat, b: nat, c: nat)
    requires a <= b <= c <= |input|
    ensures input[a..b] + input[b..c] == input[a..c]
  {
  }
}
