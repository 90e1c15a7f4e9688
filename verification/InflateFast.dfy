/** inflate_fast of inffast.c: literals, lengths and distances without checks for input and space, which give what the
    states LEN to LIT give one step at a time, and never take more than there is. */
module InflateFast {
  import opened Kraft
  import opened BlockTables
  import opened BlockHeader
  import opened BlockCode
  import opened GenCodes
  import opened TableCode
  import opened DecodeTable
  import opened SymbolTables
  import B = BitReader
  import S = InflateStep
  import I = InflateRead
  import W = Window
  import O = OutputBuffer
  import A = Adler32

  type Octet = A.Octet

  // -- Copying --------------------------------------------------------------------------------------------------

  /** One more byte at the distance. */
  lemma {:induction false} CopiedMore(all: seq<Octet>, k: nat, dist: nat)
    requires 0 < dist <= |all|
    ensures var s := I.Copied(all, k, dist);
            |s| == |all| + k && all <= s && I.Copied(all, k + 1, dist) == s + [s[|s| - dist]]
    decreases k
  {
    I.CopiedSize(all, k, dist);
    if k > 0 {
      CopiedMore(all + [all[|all| - dist]], k - 1, dist);
    } else {
      var s := all + [all[|all| - dist]];
      assert I.Copied(all, 1, dist) == I.Copied(s, 0, dist) == s;
    }
  }

  lemma {:induction false} CopiedAdd(all: seq<Octet>, a: nat, b: nat, dist: nat)
    requires 0 < dist <= |all|
    ensures I.Copied(I.Copied(all, a, dist), b, dist) == I.Copied(all, a + b, dist)
    decreases a
  {
    if a > 0 { CopiedAdd(all + [all[|all| - dist]], a - 1, b, dist); }
  }

  /** k of n bytes have been copied after `all`, and the rest of them start at `from` in `src`, which is the output or
      holds bytes that were there before. */
  ghost predicate Copying(o: O.Output, src: array<Octet>, from: nat, k: nat, n: nat, dist: nat, all: seq<Octet>)
    reads o, o.buf, src
  {
    && o.Valid() && 0 < dist <= |all| && k <= n && n - k <= o.end - o.put && o.All() == I.Copied(all, k, dist)
    && if src == o.buf then o.start <= from && from + dist == o.put
       else from + (n - k) <= src.Length && n <= dist
            && src[from..from + (n - k)] == all[|all| - dist + k..|all| - dist + n]
  }

  /** *out++ = *from++ */
  method CopyOne(o: O.Output, src: array<Octet>, from: nat, ghost k: nat, ghost n: nat, ghost dist: nat,
                 ghost all: seq<Octet>) returns (next: nat)
    requires Copying(o, src, from, k, n, dist, all) && k < n
    modifies o`put, o.buf
    ensures Copying(o, src, next, k + 1, n, dist, all) && next == from + 1 && o.put == old(o.put) + 1
  {
    hide I.Copied;
    CopiedMore(all, k, dist);
    ghost var done := o.All();
    assert src[from] == done[|done| - dist] by {
      if src == o.buf {
        assert o.Back(dist) == src[from];
      } else {
        assert src[from] == src[from..from + (n - k)][0] == all[|all| - dist + k];
      }
    }
    assert src != o.buf ==> src[from + 1..from + (n - k)] == src[from..from + (n - k)][1..];
    o.PutByte(src[from]);
    next := from + 1;
  }

  /** All n bytes, one at a time. */
  method CopyBytes(o: O.Output, src: array<Octet>, from: nat, n: nat, ghost dist: nat)
    requires o.Valid() && Copying(o, src, from, 0, n, dist, o.All())
    modifies o`put, o.buf
    ensures o.Valid() && o.put == old(o.put) + n && o.All() == I.Copied(old(o.All()), n, dist)
  {
    hide I.Copied;
    ghost var all := o.All();
    var op, next := n, from;
    while op > 0
      invariant op <= n && Copying(o, src, next, n - op, n, dist, all) && o.put == old(o.put) + (n - op)
    {
      next := CopyOne(o, src, next, n - op, n, dist, all);
      op := op - 1;
    }
  }

  /** All n bytes, three at a time. */
  method CopyThrees(o: O.Output, src: array<Octet>, from: nat, n: nat, ghost dist: nat)
    requires o.Valid() && Copying(o, src, from, 0, n, dist, o.All())
    modifies o`put, o.buf
    ensures o.Valid() && o.put == old(o.put) + n && o.All() == I.Copied(old(o.All()), n, dist)
  {
    hide I.Copied, Copying, O.Output.All;
    ghost var all := o.All();
    var len, next := n, from;
    ghost var k := 0;
    while len > 2
      invariant 0 <= len <= n && k == n - len && Copying(o, src, next, k, n, dist, all) && o.put == old(o.put) + k
    {
      next := CopyOne(o, src, next, k, n, dist, all);
      next := CopyOne(o, src, next, k + 1, n, dist, all);
      next := CopyOne(o, src, next, k + 2, n, dist, all);
      len, k := len - 3, k + 3;
    }
    if len > 0 {
      next := CopyOne(o, src, next, k, n, dist, all);
      k := k + 1;
      if len > 1 {
        next := CopyOne(o, src, next, k, n, dist, all);
        k := k + 1;
      }
    }
    AllCopied(o, src, next, n, dist, all);
  }

  lemma AllCopied(o: O.Output, src: array<Octet>, from: nat, n: nat, dist: nat, all: seq<Octet>)
    requires Copying(o, src, from, n, n, dist, all)
    ensures o.Valid() && o.All() == I.Copied(all, n, dist)
  {
  }

  // -- The window and the output --------------------------------------------------------------------------------

  /** The window holds the output of the calls before. */
  ghost predicate Behind(o: O.Output, win: W.Window)
    reads win, win.data, o`hist, o`buf
  {
    win.Valid() && (win.data != null ==> win.data != o.buf) && if win.wsize == 0 then o.hist == []
      else win.seen == o.hist
  }

  lemma BehindApart(o: O.Output, win: W.Window)
    requires Behind(o, win)
    ensures win.data != null ==> win.data != o.buf
  {
  }

  /** A run of n bytes in one piece of the window, the first at distance d before the output of this call. */
  lemma WindowRun(win: W.Window, from: nat, d: nat, n: nat)
    requires win.Valid() && win.wsize > 0 && n <= d <= win.whave && 0 < d
             && from == W.IndexBack(win.wsize, win.wnext, d)
    requires d > win.wnext ==> n <= d - win.wnext
    ensures win.data != null && from + n <= win.data.Length && d <= |win.seen|
    ensures win.data[from..from + n] == win.seen[|win.seen| - d..|win.seen| - d + n]
  {
    hide W.Holds;
    win.Sizes();
    win.Back(d);
    var a, b := win.data[from..from + n], win.seen[|win.seen| - d..|win.seen| - d + n];
    forall i | 0 <= i < n
      ensures a[i] == b[i]
    {
      win.Back(d - i);
    }
  }

  /** The next n bytes of a match come from one piece of the window. */
  lemma FromWindow(o: O.Output, win: W.Window, from: nat, n: nat, d: nat, dist: nat)
    requires o.Valid() && Behind(o, win) && d == dist - (o.put - o.start) && n <= d <= win.whave && 0 < d
             && n <= o.end - o.put
    requires win.wsize > 0 && from == W.IndexBack(win.wsize, win.wnext, d) && (d > win.wnext ==> n <= d - win.wnext)
    ensures win.data != null && Copying(o, win.data, from, 0, n, dist, o.All())
  {
    hide W.Holds;
    WindowRun(win, from, d, n);
    var all := o.All();
    assert all[|all| - dist..|all| - dist + n] == o.hist[|o.hist| - d..|o.hist| - d + n];
    assert I.Copied(all, 0, dist) == all;
  }

  lemma FromOutput(o: O.Output, n: nat, dist: nat)
    requires o.Valid() && 0 < dist <= o.put - o.start && n <= o.end - o.put
    ensures Copying(o, o.buf, o.put - dist, 0, n, dist, o.All())
  {
    assert I.Copied(o.All(), 0, dist) == o.All();
  }

  /** A match that starts in the window, at distance op before the output of this call. */
  method CopyWindow(o: O.Output, win: W.Window, length: nat, dist: nat, back: nat)
    requires o.Valid() && Behind(o, win) && back == dist - (o.put - o.start) && 0 < back <= win.whave
             && length <= o.end - o.put
    modifies o`put, o.buf
    ensures o.Valid() && o.put == old(o.put) + length && o.All() == I.Copied(old(o.All()), length, dist)
  {
    hide I.Copied, W.Holds, Copying, O.Output.All, W.Window.Valid;
    win.Sizes();
    ghost var all := o.All();
    AllSize(o);
    var src, from := win.data, 0;
    var len, op: nat := length, back;
    NoneCopied(all, dist);
    if win.wnext == 0 {
      from := win.wsize - op;
      if op < len {
        FromWindow(o, win, from, op, op, dist);
        len := Piece(o, win, from, op, len, length, dist, all);
        src, from := o.buf, o.put - dist;
        FromOutput(o, len, dist);
      } else {
        FromWindow(o, win, from, len, op, dist);
      }
    } else if win.wnext < op {
      from := win.wsize + win.wnext - op;
      op := op - win.wnext;
      if op < len {
        FromWindow(o, win, from, op, back, dist);
        len := Piece(o, win, from, op, len, length, dist, all);
        from := 0;
        if win.wnext < len {
          op := win.wnext;
          FromWindow(o, win, from, op, op, dist);
          len := Piece(o, win, from, op, len, length, dist, all);
          src, from := o.buf, o.put - dist;
          FromOutput(o, len, dist);
        } else {
          FromWindow(o, win, from, len, win.wnext, dist);
        }
      } else {
        FromWindow(o, win, from, len, back, dist);
      }
    } else {
      from := win.wnext - op;
      if op < len {
        FromWindow(o, win, from, op, op, dist);
        len := Piece(o, win, from, op, len, length, dist, all);
        src, from := o.buf, o.put - dist;
        FromOutput(o, len, dist);
      } else {
        FromWindow(o, win, from, len, op, dist);
      }
    }
    CopyThrees(o, src, from, len, dist);
    CopiedAdd(all, length - len, len, dist);
  }

  lemma AllSize(o: O.Output)
    requires o.Valid()
    ensures |o.All()| == |o.hist| + o.put - o.start
  {
  }

  lemma NoneCopied(all: seq<Octet>, dist: nat)
    ensures I.Copied(all, 0, dist) == all
  {
  }

  /** op bytes of a match from one piece of the window, more to follow. */
  method Piece(o: O.Output, win: W.Window, from: nat, op: nat, n: nat, ghost length: nat, ghost dist: nat,
               ghost all: seq<Octet>) returns (len: nat)
    requires o.Valid() && win.data != null && win.data != o.buf && Copying(o, win.data, from, 0, op, dist, o.All())
             && op <= n <= length
    requires 0 < dist <= |all| && o.All() == I.Copied(all, length - n, dist)
    modifies o`put, o.buf
    ensures o.Valid() && o.put == old(o.put) + op && len == n - op && o.All() == I.Copied(all, length - len, dist)
  {
    hide I.Copied, Copying, O.Output.All;
    CopyBytes(o, win.data, from, op, dist);
    CopiedAdd(all, length - n, op, dist);
    len := n - op;
  }

  /** The three ways to copy a match are one: each byte is the one at the distance.  Nothing is copied when the distance
      is too far back. */
  method CopyMatch(o: O.Output, win: W.Window, length: nat, dist: nat) returns (ok: bool)
    requires o.Valid() && Behind(o, win) && 3 <= length <= o.end - o.put && 0 < dist
    modifies o`put, o.buf
    ensures o.Valid() && o.put == old(o.put) + (if ok then length else 0)
    ensures ok ==> dist <= |old(o.All())| && o.All() == I.Copied(old(o.All()), length, dist)
    ensures !ok ==> o.All() == old(o.All()) && (dist > |o.All()| || dist > Pow2(win.wbits))
  {
    hide I.Copied, W.Holds, Copying, Pow2, O.Output.All;
    win.Sizes();
    AllSize(o);
    var op := o.put - o.start;
    if dist > op {
      op := dist - op;
      if op > win.whave { return false; }
      CopyWindow(o, win, length, dist, op);
    } else {
      FromOutput(o, length, dist);
      CopyThrees(o, o.buf, o.put - dist, length, dist);
    }
    ok := true;
  }

  // -- One literal or match -------------------------------------------------------------------------------------

  /** A decoding table and the bits of its first level. */
  datatype Lookups = Lookups(table: array<Entry>, at: nat, bits: nat)

  ghost predicate Holds(l: Lookups, w: seq<Entry>, c: Coding)
    reads l.table
  {
    TableIn(l.table, l.at, w) && CodeIn(w, c) && l.bits == c.root
  }

  lemma HoldsUsable(l: Lookups, w: seq<Entry>, c: Coding)
    requires Holds(l, w, c)
    ensures B.Usable(c.lens)
  {
  }

  /** n bits have been taken. */
  twostate predicate Took(r: B.Reader, n: nat)
    requires old(r.next) <= |old(r.input)|
    reads r
  {
    r.Valid() && r.bits <= 30 && r.input == old(r.input) && n <= |old(r.Rest())| && r.Rest() == old(r.Rest())[n..]
  }

  /** One symbol of a code. */
  method FastCode(r: B.Reader, l: Lookups, ghost w: seq<Entry>, ghost c: Coding, ghost m: nat)
      returns (here: Entry, ghost n: nat)
    requires r.Valid() && r.bits <= 30 && |r.Rest()| >= 23 && Holds(l, w, c)
    requires m <= r.bits && (m > 0 ==> B.Decode(c.lens, r.Buffer()[..m]).More?)
    modifies r`next, r`hold, r`bits
    ensures Took(r, n) && m < n <= 15 && B.IsDecoded(c, old(r.Rest()), here, r.Rest())
  {
    hide Pow2, Bits, B.Decode, B.Stream, B.IsDecoded, DecodeTable.Table, B.Usable;
    TableInIs(l.table, l.at, w);
    ghost var b, rest := r.Buffer(), r.Rest();
    r.Refill();
    assert b[..m] == r.Buffer()[..m];
    n := r.bits;
    here := r.FastSymbol(l.table, l.at, l.bits, c, w, m);
    n := n - r.bits;
  }

  /** The base of a length, and its extra bits. */
  method FastLength(r: B.Reader, base: nat, extra: nat) returns (length: nat)
    requires r.Valid() && r.bits <= 30 && extra <= 5 && |r.Rest()| >= extra
    modifies r`next, r`hold, r`bits
    ensures Took(r, extra) && length == base + FromBits(old(r.Rest())[..extra])
  {
    hide Pow2, Bits, B.Stream, FromBits;
    length := base;
    if extra != 0 {
      r.Another(extra);
      var v := r.Take(extra);
      length := length + v;
    } else {
      NoExtra(r.Rest());
    }
  }

  lemma NoExtra(s: seq<bool>)
    ensures FromBits(s[..0]) == 0 && s[0..] == s
  {
  }

  /** The base of a distance, and its extra bits. */
  method FastDistance(r: B.Reader, base: nat, extra: nat) returns (dist: nat)
    requires r.Valid() && r.bits <= 30 && extra <= 13 && |r.Rest()| >= extra
    modifies r`next, r`hold, r`bits
    ensures Took(r, extra) && dist == base + FromBits(old(r.Rest())[..extra])
  {
    hide Pow2, Bits, B.Stream, FromBits;
    dist := base;
    r.Another(extra);
    r.Another(extra);
    var v := r.Take(extra);
    dist := dist + v;
  }

  // -- What the states LEN to MATCH make of it ------------------------------------------------------------------

  lemma LengthStep(c: S.Config, t: Trees, last: bool, s: seq<bool>, out: seq<Octet>, base: nat, extra: nat)
    requires extra <= |s|
    ensures S.Reaches(c, S.State(S.LenExt(t, base, extra), last, s, out),
                      S.State(S.Dist(t, base + FromBits(s[..extra])), last, s[extra..], out))
  {
    var a := S.State(S.LenExt(t, base, extra), last, s, out);
    S.IsLenExt(c, a);
    hide S.Step, S.Reaches, FromBits;
    S.ReachesStep(c, a);
  }

  lemma DistStep(c: S.Config, t: Trees, last: bool, s: seq<bool>, out: seq<Octet>, length: nat, bits: nat, here: Entry,
                 rest: seq<bool>)
    requires B.IsDecoded(Coding(Dists, t.dl, bits), s, here, rest)
    ensures S.Reaches(c, S.State(S.Dist(t, length), last, s, out), S.State(DistMode(t, length, here), last, rest, out))
  {
    var a := S.State(S.Dist(t, length), last, s, out);
    S.IsDist(c, a);
    DistModeIs(t, length, bits, s, here, rest, a);
    hide S.Step, S.Reaches, B.IsDecoded, DistMode, S.StepDist;
    S.ReachesStep(c, a);
  }

  lemma OffsetStep(c: S.Config, t: Trees, last: bool, s: seq<bool>, out: seq<Octet>, length: nat, base: nat, extra: nat)
    requires extra <= |s|
    ensures S.Reaches(c, S.State(S.DistExt(t, length, base, extra), last, s, out),
                      S.State(S.Mode.Match(t, length, base + FromBits(s[..extra])), last, s[extra..], out))
  {
    var a := S.State(S.DistExt(t, length, base, extra), last, s, out);
    S.IsDistExt(c, a);
    hide S.Step, S.Reaches, FromBits;
    S.ReachesStep(c, a);
  }

  /** The whole match, unless its distance is beyond the window. */
  lemma MatchEnd(c: S.Config, t: Trees, last: bool, s: seq<bool>, out: seq<Octet>, length: nat, dist: nat)
    requires 0 < length && 0 < dist <= |out|
    ensures S.Tracks(c, S.State(S.Mode.Match(t, length, dist), last, s, out),
                     S.State(S.Len(t), last, s, I.Copied(out, length, dist)))
  {
    hide S.Reaches, S.ReachesFar, S.Step, I.Copied;
    var a := S.State(S.Mode.Match(t, length, dist), last, s, out);
    if dist <= c.wsize {
      I.MatchRuns(c, t, last, s, out, length, dist);
    } else {
      S.IsMatch(c, a);
      S.ReachesSelf(c, a);
      S.TracksStep(c, a, a);
      S.FarFound(c, a, S.Step(c, a));
    }
  }

  lemma OneRun(c: S.Config, a: S.State, b: S.State)
    requires S.Reaches(c, a, b)
    ensures S.Tracks(c, a, b)
  {
  }

  /** From a length to its distance. */
  lemma DistanceTracks(c: S.Config, t: Trees, last: bool, s: seq<bool>, out: seq<Octet>, base: nat, extra: nat,
                       bits: nat, here: Entry, rest: seq<bool>)
    requires extra <= |s| && B.IsDecoded(Coding(Dists, t.dl, bits), s[extra..], here, rest)
    ensures S.Tracks(c, S.State(S.LenExt(t, base, extra), last, s, out),
                     S.State(DistMode(t, base + FromBits(s[..extra]), here), last, rest, out))
  {
    hide S.Reaches, FromBits, B.IsDecoded, DistMode, S.Tracks;
    LengthStep(c, t, last, s, out, base, extra);
    var length := base + FromBits(s[..extra]);
    DistStep(c, t, last, s[extra..], out, length, bits, here, rest);
    S.ReachesTrans(c, S.State(S.LenExt(t, base, extra), last, s, out),
                   S.State(S.Dist(t, length), last, s[extra..], out),
                   S.State(DistMode(t, length, here), last, rest, out));
    OneRun(c, S.State(S.LenExt(t, base, extra), last, s, out), S.State(DistMode(t, length, here), last, rest, out));
  }

  /** From a distance to the end of its match. */
  lemma MatchTracks(c: S.Config, t: Trees, last: bool, s: seq<bool>, out: seq<Octet>, length: nat, base: nat,
                    extra: nat)
    requires extra <= |s| && 0 < length && 0 < base
    ensures var a, dist := S.State(S.DistExt(t, length, base, extra), last, s, out), base + FromBits(s[..extra]);
      && (dist <= |out| ==> S.Tracks(c, a, S.State(S.Len(t), last, s[extra..], I.Copied(out, length, dist))))
      && (dist > |out| || dist > c.wsize ==> S.Tracks(c, a, S.State(S.Bad, last, s[extra..], out)))
  {
    hide S.Reaches, FromBits, S.Tracks, I.Copied;
    var a, dist := S.State(S.DistExt(t, length, base, extra), last, s, out), base + FromBits(s[..extra]);
    var b := S.State(S.Mode.Match(t, length, dist), last, s[extra..], out);
    OffsetStep(c, t, last, s, out, length, base, extra);
    OneRun(c, a, b);
    if dist <= |out| {
      MatchEnd(c, t, last, s[extra..], out, length, dist);
      S.TracksTrans(c, a, b, S.State(S.Len(t), last, s[extra..], I.Copied(out, length, dist)));
    }
    if dist > |out| || dist > c.wsize {
      S.TooFar(c, b);
      S.TracksTrans(c, a, b, S.State(S.Bad, last, s[extra..], out));
    }
  }

  /** The distance of a match, from its symbol on, and the match. */
  method FastOffset(r: B.Reader, o: O.Output, win: W.Window, t: Trees, length: nat, here: Entry, ghost c: S.Config,
                    ghost last: bool, ghost f: seq<bool>)
    returns (mode: S.Mode, ghost n: nat)
    requires r.Valid() && r.bits <= 30 && |r.Rest()| >= 13 && o.Valid() && Behind(o, win)
             && 3 <= length <= 258 <= o.end - o.put
    requires here.op % 16 <= 13 && here.val > 0 && c.wsize == Pow2(win.wbits)
    modifies r`next, r`hold, r`bits, o`put, o.buf
    ensures Took(r, n) && o.Valid() && old(o.All()) <= o.All() && old(o.put) <= o.put && mode in {S.Len(t), S.Bad}
    ensures S.Tracks(c, old(S.State(S.DistExt(t, length, here.val, here.op % 16), last, r.Rest() + f, o.All())),
                     S.State(mode, last, r.Rest() + f, o.All()))
  {
    hide Pow2, Bits, B.Stream, FromBits, S.Tracks, I.Copied, Behind, O.Output.All;
    n := here.op % 16;
    ghost var s, out := r.Rest(), o.All();
    var dist := FastDistance(r, here.val, here.op % 16);
    Cut(s, f, n);
    MatchTracks(c, t, last, s + f, out, length, here.val, n);
    var ok := CopyMatch(o, win, length, dist);
    if ok { I.CopiedSize(out, length, dist); }
    mode := if ok then S.Len(t) else S.Bad;
  }

  /** A match, from its length on. */
  method FastMatch(r: B.Reader, o: O.Output, win: W.Window, dl: Lookups, t: Trees, base: nat, extra: nat,
                   ghost dw: seq<Entry>, ghost c: S.Config, ghost last: bool, ghost f: seq<bool>)
                     returns (mode: S.Mode, ghost n: nat)
    requires r.Valid() && r.bits <= 30 && |r.Rest()| >= 33 && o.Valid() && Behind(o, win) && 258 <= o.end - o.put
    requires Holds(dl, dw, Coding(Dists, t.dl, dl.bits)) && c.wsize == Pow2(win.wbits)
    requires 3 <= base && extra <= 5 && base + Pow2(extra) <= 259
    modifies r`next, r`hold, r`bits, o`put, o.buf
    ensures Took(r, n) && o.Valid() && old(o.All()) <= o.All() && old(o.put) <= o.put && mode in {S.Len(t), S.Bad}
    ensures S.Tracks(c, old(S.State(S.LenExt(t, base, extra), last, r.Rest() + f, o.All())),
                     S.State(mode, last, r.Rest() + f, o.All()))
  {
    hide Pow2, Bits, B.Stream, FromBits, S.Tracks, Behind, O.Output.All, Holds, B.IsDecoded, B.Decode, DistMode,
         B.Usable;
    ghost var s, out := r.Rest(), o.All();
    FromFits(s[..extra]);
    var length := FastLength(r, base, extra);
    var here;
    ghost var s1 := r.Rest();
    here, n := FastCode(r, dl, dw, Coding(Dists, t.dl, dl.bits), 0);
    ghost var s2 := r.Rest();
    assert s2 == s[extra + n..];
    HoldsUsable(dl, dw, Coding(Dists, t.dl, dl.bits));
    DistanceAhead(c, t, last, s, out, base, extra, dl.bits, here, s2, f);
    FastDistTests(t, dl.bits, s1, here, s2);
    DistModeTests(t, length, here);
    n := n + extra;
    if here.op / 16 % 2 == 1 {
      ghost var k;
      mode, k := FastOffset(r, o, win, t, length, here, c, last, f);
      S.TracksTrans(c, S.State(S.LenExt(t, base, extra), last, s + f, out),
                    S.State(DistMode(t, length, here), last, s2 + f, out),
                    S.State(mode, last, r.Rest() + f, o.All()));
      assert s2[k..] == s[n + k..];
      n := n + k;
    } else {
      mode := S.Bad;
    }
  }

  lemma DistModeTests(t: Trees, length: nat, here: Entry)
    ensures DistMode(t, length, here) == if here.op / 64 % 2 == 1 then S.Bad
            else S.DistExt(t, length, here.val, here.op % 16)
  {
  }

  lemma DistanceAhead(c: S.Config, t: Trees, last: bool, s: seq<bool>, out: seq<Octet>, base: nat, extra: nat,
                      bits: nat,
                      here: Entry, rest: seq<bool>, f: seq<bool>)
    requires extra <= |s| && B.IsDecoded(Coding(Dists, t.dl, bits), s[extra..], here, rest) && B.Usable(t.dl)
    ensures S.Tracks(c, S.State(S.LenExt(t, base, extra), last, s + f, out),
                     S.State(DistMode(t, base + FromBits(s[..extra]), here), last, rest + f, out))
  {
    hide FromBits, S.Tracks, B.IsDecoded, DistMode, B.Usable;
    Cut(s, f, extra);
    B.DecodedAhead(Coding(Dists, t.dl, bits), s[extra..], here, rest, f);
    DistanceTracks(c, t, last, s + f, out, base, extra, bits, here, rest + f);
  }

  lemma LenStep(c: S.Config, t: Trees, last: bool, s: seq<bool>, out: seq<Octet>, bits: nat, here: Entry,
                rest: seq<bool>, f: seq<bool>)
    requires B.IsDecoded(Coding(Kind.Lens, t.ll, bits), s, here, rest) && B.Usable(t.ll)
    ensures S.Tracks(c, S.State(S.Len(t), last, s + f, out), S.State(LenMode(t, here), last, rest + f, out))
  {
    hide S.Reaches, B.IsDecoded, LenMode, B.Usable, S.StepLen, S.Step, S.ReachesFar;
    var a := S.State(S.Len(t), last, s + f, out);
    S.IsLen(c, a);
    B.DecodedAhead(Coding(Kind.Lens, t.ll, bits), s, here, rest, f);
    LenModeIs(t, bits, s + f, here, rest + f, a);
    S.ReachesStep(c, a);
  }

  lemma LitStep(c: S.Config, t: Trees, last: bool, s: seq<bool>, out: seq<Octet>, byte: Octet)
    ensures S.Tracks(c, S.State(S.Lit(t, byte), last, s, out), S.State(S.Len(t), last, s, out + [byte]))
  {
    hide S.Reaches, S.Step, S.ReachesFar;
    var a := S.State(S.Lit(t, byte), last, s, out);
    S.IsLit(c, a);
    S.ReachesStep(c, a);
  }

  /** One turn of the loop: a symbol, and the rest of its match. */
  method FastOne(r: B.Reader, o: O.Output, win: W.Window, ll: Lookups, dl: Lookups, t: Trees, ghost lw: seq<Entry>,
                 ghost dw: seq<Entry>,
                 ghost c: S.Config, ghost last: bool, ghost f: seq<bool>, ghost m: nat)
                   returns (mode: S.Mode, ghost n: nat)
    requires r.Valid() && r.bits <= 30 && |r.Rest()| >= 48 && o.Valid() && Behind(o, win) && 258 <= o.end - o.put
    requires Holds(ll, lw, Coding(Kind.Lens, t.ll, ll.bits)) && Holds(dl, dw, Coding(Dists, t.dl, dl.bits))
             && c.wsize == Pow2(win.wbits)
    requires m <= r.bits && (m > 0 ==> B.Decode(t.ll, r.Buffer()[..m]).More?)
    modifies r`next, r`hold, r`bits, o`put, o.buf
    ensures Took(r, n) && m < n && o.Valid() && old(o.All()) <= o.All() && old(o.put) <= o.put
            && mode in {S.Len(t), S.Type, S.Bad}
    ensures S.Tracks(c, old(S.State(S.Len(t), last, r.Rest() + f, o.All())), S.State(mode, last, r.Rest() + f, o.All()))
  {
    hide Pow2, Bits, B.Stream, S.Tracks, Behind, O.Output.All, Holds, B.IsDecoded, B.Decode, LenMode, B.Usable;
    ghost var s, out := r.Rest(), o.All();
    var here;
    here, n := FastCode(r, ll, lw, Coding(Kind.Lens, t.ll, ll.bits), m);
    ghost var s1 := r.Rest();
    HoldsUsable(ll, lw, Coding(Kind.Lens, t.ll, ll.bits));
    LenStep(c, t, last, s, out, ll.bits, here, s1, f);
    FastTests(t, ll.bits, s, here, s1);
    LenModeRange(t, ll.bits, s, here, s1);
    if here.op == 0 {
      LitStep(c, t, last, s1 + f, out, here.val);
      o.PutByte(here.val);
      mode := S.Len(t);
      S.TracksTrans(c, S.State(S.Len(t), last, s + f, out), S.State(LenMode(t, here), last, s1 + f, out),
                    S.State(mode, last, s1 + f, o.All()));
    } else if here.op / 16 % 2 == 1 {
      ghost var k;
      mode, k := FastMatch(r, o, win, dl, t, here.val, here.op % 16, dw, c, last, f);
      S.TracksTrans(c, S.State(S.Len(t), last, s + f, out), S.State(LenMode(t, here), last, s1 + f, out),
                    S.State(mode, last, r.Rest() + f, o.All()));
      assert s1[k..] == s[n + k..];
      n := n + k;
    } else if here.op / 32 % 2 == 1 {
      mode := S.Type;
    } else {
      mode := S.Bad;
    }
  }

  /** inflate_fast.  It starts in state LEN with input for the longest match and space for it, and less than 8 bits
      held, or bits that say nothing yet; it comes to a state that the steps from LEN come to, and gives back whole
      bytes. */
  method InflateFast(r: B.Reader, o: O.Output, win: W.Window, ll: Lookups, dl: Lookups, t: Trees, ghost lw: seq<Entry>,
                     ghost dw: seq<Entry>,
                     ghost c: S.Config, ghost last: bool, ghost f: seq<bool>) returns (mode: S.Mode)
    requires r.Valid() && 6 <= |r.input| - r.next && o.Valid() && Behind(o, win) && 258 <= o.end - o.put
    requires r.bits < 8 || (r.bits <= 30 && B.Decode(t.ll, r.Buffer()).More?)
    requires Holds(ll, lw, Coding(Kind.Lens, t.ll, ll.bits)) && Holds(dl, dw, Coding(Dists, t.dl, dl.bits))
             && c.wsize == Pow2(win.wbits)
    modifies r`next, r`hold, r`bits, o`put, o.buf
    ensures r.Valid() && r.bits < 8 && old(r.next) <= r.next && |r.Rest()| < |old(r.Rest())|
    ensures o.Valid() && old(o.All()) <= o.All() && old(o.put) <= o.put && mode in {S.Len(t), S.Type, S.Bad}
    ensures S.Tracks(c, old(S.State(S.Len(t), last, r.Rest() + f, o.All())), S.State(mode, last, r.Rest() + f, o.All()))
  {
    hide Pow2, Bits, B.Stream, S.Tracks, Behind, O.Output.All, Holds, B.Decode, B.Reader.Buffer, B.Reader.Rest;
    ghost var m := if r.bits < 8 then 0 else r.bits;
    ghost var from, all, b0, st := r.next, r.Rest(), r.bits, S.State(S.Len(t), last, r.Rest() + f, o.All());
    r.RestParts();
    BehindApart(o, win);
    var lastIn, end := |r.input| - 5, o.end - 257;
    ghost var n: nat;
    assert m > 0 ==> r.Buffer()[..m] == r.Buffer();
    mode, n := FastOne(r, o, win, ll, dl, t, lw, dw, c, last, f, m);
    while mode == S.Len(t) && r.next < lastIn && o.put < end
      invariant r.Valid() && r.bits <= 30 && o.Valid() && m < n <= |all| && r.Rest() == all[n..]
      invariant old(o.All()) <= o.All() && old(o.put) <= o.put && mode in {S.Len(t), S.Type, S.Bad}
      invariant S.Tracks(c, st, S.State(mode, last, r.Rest() + f, o.All()))
      decreases |all| - n
    {
      r.RestLength();
      ghost var k, s, at := n, r.Rest(), S.State(mode, last, r.Rest() + f, o.All());
      mode, k := FastOne(r, o, win, ll, dl, t, lw, dw, c, last, f, 0);
      S.TracksTrans(c, st, at, S.State(mode, last, r.Rest() + f, o.All()));
      assert s[k..] == all[n + k..];
      n := n + k;
    }
    r.RestLength();
    r.GiveBack(from, all);
  }
}
