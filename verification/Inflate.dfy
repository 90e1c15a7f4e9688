/** inflate of inflate.c, states TYPE to DONE: whatever part of the stream each call is given, and whatever space for
    output, the calls together make one run of the steps of InflateStep. */
module Inflate {
  import opened Wrappers
  import opened Kraft
  import opened CanonicalCode
  import opened GenCodes
  import opened BlockTables
  import opened BlockCode
  import opened BlockHeader
  import opened TableCode
  import opened DecodeTable
  import opened SymbolTables
  import B = BitReader
  import S = InflateStep
  import T = InflateTable
  import TS = TableSpace
  import TableEnough
  import W = Window
  import O = OutputBuffer
  import Fast = InflateFast
  import A = Adler32
  import F = FixedCodes
  import R = RunLengths

  type Octet = A.Octet

  datatype Ret = OK | STREAM_END | DATA_ERROR | BUF_ERROR | MEM_ERROR

  // -- Tables ---------------------------------------------------------------------------------------------------

  ghost predicate LengthsIn(lw: seq<Entry>, lbits: nat, bl: seq<nat>) {
    CodeIn(lw, Coding(Codes, bl, lbits)) && forall x | 0 <= x < |bl| :: bl[x] <= lbits
  }

  lemma AllZero(lens: seq<nat>, b: nat)
    requires forall x | 0 <= x < |lens| :: lens[x] == 0
    ensures FirstOf(lens, b) == 0 && Count(lens, b) == 0
  {
    if b > 0 {
      AllZero(lens, b - 1);
      RankRun(lens, 0, |lens|, 0, b);
    }
  }

  /** The lengths that inflate_table takes can be decoded with. */
  lemma TakenUsable(kind: Kind, lens: seq<nat>)
    requires !T.Refused(kind, lens) && forall x | 0 <= x < |lens| :: lens[x] <= MAX_BITS
    ensures B.Usable(lens)
  {
    if forall x | 0 <= x < |lens| :: lens[x] == 0 {
      forall b: nat
        ensures FirstOf(lens, b) + Count(lens, b) <= Pow2(b)
      {
        AllZero(lens, b);
      }
    } else {
      FullIsKraft(lens);
      hide Pow2, FirstOf, Count, Taken;
    }
  }

  /** inflate_table for the lengths from `off` on, into the table from `at` on. */
  method MakeTable(kind: Kind, lens: array<nat>, off: nat, codes: nat, table: array<Entry>, at: nat, bits: nat,
                   work: array<nat>,
                   ghost ls: seq<nat>, ghost keep: seq<Entry>, ghost keepAt: nat)
    returns (ret: int, end: nat, root: nat, ghost w: seq<Entry>)
    requires off + codes <= lens.Length && codes <= work.Length && lens != work && codes <= SymbolLimit(kind)
    requires ls == lens[off..off + codes] && forall x | 0 <= x < |ls| :: ls[x] <= MAX_BITS
    requires at <= table.Length && table.Length - at >= TS.Enough(kind)
    requires kind == Codes ==> bits >= 7 && forall x | 0 <= x < |ls| :: ls[x] <= 7
    requires Acceptable(ls, kind == Codes) ==> !TS.Overflows(kind, ls, bits)
    requires TableIn(table, keepAt, keep) && keepAt + |keep| <= at
    modifies table, work
    ensures ret in {-1, 0} && TableIn(table, keepAt, keep)
    ensures bits in ls && bits > 0 && (forall x | 0 <= x < |ls| :: ls[x] <= bits) ==> root == bits
    ensures ret == 0 <==> Acceptable(ls, kind == Codes)
    ensures ret == 0
            ==> TableIn(table, at, w) && end == at + |w| <= at + TS.Enough(kind)
                && CodeIn(w, Coding(kind, ls, root))
    ensures kind == Codes && ret == 0 ==> forall x | 0 <= x < |ls| :: ls[x] <= root
  {
    hide Pow2, Acceptable, DecodeTable.Table, B.Usable, TS.Overflows;
    SliceAll(lens, off, codes, ls);
    ghost var before := table[..];
    assert before[..at] == table[..at] && before[keepAt..keepAt + |keep|] == keep;
    ret, end, root := T.Build(kind, lens, off, codes, table, at, bits, work);
    assert table[..][..at] == table[..at];
    SameSlice(before, table[..], at, keepAt, |keep|);
    assert table[..][keepAt..keepAt + |keep|] == table[keepAt..keepAt + |keep|];
    w := [];
    if ret == 0 {
      w := table[at..end];
      TakenUsable(kind, ls);
    }
  }

  lemma SameSlice(s: seq<Entry>, t: seq<Entry>, at: nat, a: nat, n: nat)
    requires a + n <= at <= |s| && at <= |t| && s[..at] == t[..at]
    ensures s[a..a + n] == t[a..a + n]
  {
    assert s[..at][a..a + n] == s[a..a + n] && t[..at][a..a + n] == t[a..a + n];
  }

  lemma SliceAll(lens: array<nat>, off: nat, codes: nat, ls: seq<nat>)
    requires off + codes <= lens.Length && ls == lens[off..off + codes]
    ensures |ls| == codes && forall x | off <= x < off + codes :: lens[x] == ls[x - off]
  {
  }

  lemma Enough(kind: Kind, lens: seq<nat>, bits: nat)
    requires TableEnough.Asked(kind, |lens|, bits)
    ensures Acceptable(lens, kind == Codes) ==> !TS.Overflows(kind, lens, bits)
  {
    hide Acceptable, TS.Overflows;
    if Acceptable(lens, kind == Codes) { TableEnough.EnoughIsEnough(kind, lens, bits); }
  }

  /** The tables for both codes, one after the other. */
  method BothTables(lens: array<nat>, work: array<nat>, codes: array<Entry>, ls: seq<nat>, nlen: nat)
    returns (ret: int, lbits: nat, next: nat, dbits: nat, ghost lw: seq<Entry>, ghost dw: seq<Entry>)
    requires lens.Length == 320 && work.Length == 320 && lens != work && codes.Length == 1444
    requires 257 <= nlen <= 286 && nlen < |ls| <= nlen + 30 && lens[..|ls|] == ls && forall x | 0 <= x < |ls| ::
             ls[x] <= MAX_BITS
    modifies work, codes
    ensures ret == 0 <==> Acceptable(ls[..nlen], false) && Acceptable(ls[nlen..], false)
    ensures ret == 0
            ==> TableIn(codes, 0, lw) && TableIn(codes, next, dw)
                && TreesIn(lw, lbits, dw, dbits, Trees(ls[..nlen], ls[nlen..]))
  {
    hide CodeIn, Acceptable, TableIn, Pow2, TS.Overflows;
    ghost var ll, dl := ls[..nlen], ls[nlen..];
    Enough(Kind.Lens, ll, 9);
    Enough(Dists, dl, 6);
    Slices(lens, ls, nlen);
    NothingIn(codes, 0);
    lbits, dbits, next, dw := 0, 0, 0, [];
    var end;
    ret, next, lbits, lw := MakeTable(Kind.Lens, lens, 0, nlen, codes, 0, 9, work, ll, [], 0);
    if ret != 0 { return; }
    Slices(lens, ls, nlen);
    ret, end, dbits, dw := MakeTable(Dists, lens, nlen, |ls| - nlen, codes, next, 6, work, dl, lw, 0);
  }

  method LitLengths(lens: array<nat>)
    requires lens.Length == 320
    modifies lens
    ensures lens[0..0 + 288] == F.FixedLit()
  {
    var sym := 0;
    while sym < 144
      invariant 0 <= sym <= 144 && forall x | 0 <= x < sym :: lens[x] == 8
    {
      lens[sym] := 8;
      sym := sym + 1;
    }
    while sym < 256
      invariant 144 <= sym <= 256 && (forall x | 0 <= x < 144 :: lens[x] == 8) && forall x | 144 <= x < sym ::
                lens[x] == 9
    {
      lens[sym] := 9;
      sym := sym + 1;
    }
    while sym < 280
      invariant 256 <= sym <= 280 && (forall x | 0 <= x < 144 :: lens[x] == 8)
                && (forall x | 144 <= x < 256 :: lens[x] == 9)
      invariant forall x | 256 <= x < sym :: lens[x] == 7
    {
      lens[sym] := 7;
      sym := sym + 1;
    }
    while sym < 288
      invariant 280 <= sym <= 288 && (forall x | 0 <= x < 144 :: lens[x] == 8)
                && (forall x | 144 <= x < 256 :: lens[x] == 9)
      invariant (forall x | 256 <= x < 280 :: lens[x] == 7) && forall x | 280 <= x < sym :: lens[x] == 8
    {
      lens[sym] := 8;
      sym := sym + 1;
    }
    assert lens[0..0 + 288] == F.FixedLit();
  }

  method DistLengths(lens: array<nat>)
    requires lens.Length == 320
    modifies lens
    ensures lens[0..0 + 32] == F.FixedDist()
  {
    var sym := 0;
    while sym < 32
      invariant 0 <= sym <= 32 && forall x | 0 <= x < sym :: lens[x] == 5
    {
      lens[sym] := 5;
      sym := sym + 1;
    }
    assert lens[0..0 + 32] == F.FixedDist();
  }

  /** fixedtables */
  method FixedTables() returns (fixed: array<Entry>, distFix: nat, ghost lw: seq<Entry>, ghost dw: seq<Entry>)
    ensures fresh(fixed) && fixed.Length == 1444 && TableIn(fixed, 0, lw) && TableIn(fixed, distFix, dw)
    ensures TreesIn(lw, 9, dw, 5, S.FixedTrees())
  {
    hide Pow2, F.FixedLit, F.FixedDist, DecodeTable.Table, B.Usable, Acceptable, TS.Overflows, TableIn, CodeIn;
    var lens := new nat[320](_ => 0);
    var work := new nat[320](_ => 0);
    fixed := new Entry[1444](_ => Entry(0, 0, 0));
    FixedFacts();
    FixedTaken();
    NothingIn(fixed, 0);
    LitLengths(lens);
    var ret, next, bits;
    ret, next, bits, lw := MakeTable(Kind.Lens, lens, 0, 288, fixed, 0, 9, work, F.FixedLit(), [], 0);
    DistLengths(lens);
    distFix := next;
    ret, next, bits, dw := MakeTable(Dists, lens, 0, 32, fixed, next, 5, work, F.FixedDist(), lw, 0);
  }

  lemma NothingIn(table: array<Entry>, at: nat)
    requires at <= table.Length
    ensures TableIn(table, at, [])
  {
  }

  lemma FixedAccepted()
    ensures Acceptable(F.FixedLit(), false) && Acceptable(F.FixedDist(), false)
  {
    hide Pow2, FirstOf, Count, Taken, F.FixedLit, F.FixedDist, Subscribed;
    F.LitFull();
    F.DistFull();
    FullIsKraft(F.FixedLit());
    FullIsKraft(F.FixedDist());
  }

  lemma FixedTaken()
    ensures Acceptable(F.FixedLit(), false) && Acceptable(F.FixedDist(), false)
    ensures !TS.Overflows(Kind.Lens, F.FixedLit(), 9) && !TS.Overflows(Dists, F.FixedDist(), 5)
  {
    hide Pow2, F.FixedLit, F.FixedDist, TS.Overflows, Acceptable;
    FixedFacts();
    FixedAccepted();
    TS.RootOnly(Kind.Lens, F.FixedLit(), 9);
    TS.RootOnly(Dists, F.FixedDist(), 5);
  }

  lemma FixedFacts()
    ensures Pow2(9) == 512 && Pow2(5) == 32
    ensures 9 in F.FixedLit() && (forall x | 0 <= x < 288 :: 7 <= F.FixedLit()[x] <= 9)
    ensures 5 in F.FixedDist() && (forall x | 0 <= x < 32 :: F.FixedDist()[x] == 5)
  {
    assert Pow2(5) == 32 && Pow2(9) == 16 * Pow2(5);
    hide F.FixedLit, F.FixedDist;
    assert F.FixedLit()[144] == 9 && F.FixedDist()[0] == 5;
  }

  // -- The inflate state ----------------------------------------------------------------------------------------

  class Inflate {
    const r: B.Reader
    const o: O.Output
    const win: W.Window
    const wrap: bool
    const lens: array<nat>
    const work: array<nat>
    const codes: array<Entry>
    const fixed: array<Entry>
    const distFix: nat

    /** The state with what it remembers: length, offset, extra, nlen, ndist, ncode, have and the lengths read so far.
        */
    var mode: S.Mode
    var last: bool
    var lenTable: array<Entry>
    var lenAt: nat
    var lenBits: nat
    var distTable: array<Entry>
    var distAt: nat
    var distBits: nat
    var check: nat
    var mark: nat
    var memory: bool

    /** The tables in use. */
    ghost var lw: seq<Entry>
    ghost var dw: seq<Entry>

    /** The whole stream, and what of it is still to be supplied. */
    ghost const total: seq<bool>
    ghost var left: seq<bool>
    ghost const fixedLw: seq<Entry>
    ghost const fixedDw: seq<Entry>

    ghost function Cfg(): S.Config { S.Config(Pow2(win.wbits), wrap) }

    ghost predicate FixedOk()
      reads fixed
    {
      TableIn(fixed, 0, fixedLw) && TableIn(fixed, distFix, fixedDw) && TreesIn(fixedLw, 9, fixedDw, 5, S.FixedTrees())
    }

    ghost predicate HasTrees(t: Trees)
      reads this`lenTable, this`lenAt, this`lw, lenTable, this`distTable, this`distAt, this`dw, distTable, this`lenBits,
            this`distBits
    {
      TableIn(lenTable, lenAt, lw) && TableIn(distTable, distAt, dw) && TreesIn(lw, lenBits, dw, distBits, t)
    }

    ghost predicate HasLengths(bl: seq<nat>)
      reads this`lenTable, this`lenAt, this`lw, lenTable, this`lenBits
    {
      TableIn(lenTable, lenAt, lw) && LengthsIn(lw, lenBits, bl)
    }

    /** The tables that the state needs are there. */
    ghost predicate TablesFor(m: S.Mode)
      reads this`lenTable, this`lenAt, this`lw, lenTable, this`distTable, this`distAt, this`dw, distTable, this`lenBits,
            this`distBits
    {
      match m
      case CodeLens(_, _, bl, _) => HasLengths(bl)
      case Len(t) => HasTrees(t)
      case LenExt(t, _, _) => HasTrees(t)
      case Dist(t, _) => HasTrees(t)
      case DistExt(t, _, _, _) => HasTrees(t)
      case Match(t, _, _) => HasTrees(t)
      case Lit(t, _) => HasTrees(t)
      case Far => false
      case _ => true
    }

    /** The state, when f is what is still to come of the stream after the input of this call. */
    ghost function Abs(f: seq<bool>): S.State
      reads this`mode, this`last, o, o.buf, r
      requires o.Valid() && r.next <= |r.input|
    {
      S.State(mode, last, r.Rest() + f, o.All())
    }

    /** The state that sees only the bits held. */
    ghost function Held(): S.State
      reads this`mode, this`last, o, o.buf, r
      requires o.Valid()
    {
      S.State(mode, last, r.Buffer(), o.All())
    }

    /** More bits than a byte are held only while they are too few to go on. */
    ghost predicate Lean()
      reads this`mode, this`last, o, o.buf, r
      requires o.Valid()
    {
      && (r.bits < 8 || S.Stuck(Cfg(), Held()))
      && (mode.Copy? ==> r.bits == 0) && (mode.Check? ==> r.bits % 8 == 0)
    }

    ghost predicate Arrays() {
      lens.Length == 320 && work.Length == 320 && lens != work && codes.Length == 1444 && fixed != codes
    }

    ghost predicate Sound()
      reads this`mode, this`last, this`lenTable, this`lenAt, this`lw, lenTable, this`distTable, this`distAt, this`dw,
            distTable, this`lenBits, this`distBits
      reads r, o, o.buf, fixed
    {
      Arrays() && r.Valid() && o.Valid() && FixedOk() && S.Sane(mode) && TablesFor(mode)
    }

    ghost predicate Valid()
      reads this`mode, this`last, this`lenTable, this`lenAt, this`lw, lenTable, this`distTable, this`distAt, this`dw,
            distTable, this`lenBits, this`distBits
      reads r, o, o.buf, fixed
    {
      Sound() && Lean()
    }

    constructor (wbits: nat, wrap: bool, ghost total: seq<bool>)
      requires |total| % 8 == 0
      ensures Valid() && Ready() && Started() && this.total == left == total && memory
      ensures mode == S.Type && o.All() == [] && win.wbits == wbits && this.wrap == wrap
      ensures fresh(r) && fresh(o) && fresh(o.buf) && fresh(win) && fresh(lens) && fresh(work) && fresh(codes)
              && fresh(fixed) && win.data == null
    {
      hide TreesIn, Pow2, TableIn, S.Stuck, A.Adler, S.Tracks, S.FixedTrees, W.Holds, Ready, Started, S.First;
      r := new B.Reader();
      o := new O.Output();
      win := new W.Window(wbits);
      this.wrap := wrap;
      lens := new nat[320](_ => 0);
      work := new nat[320](_ => 0);
      codes := new Entry[1444](_ => Entry(0, 0, 0));
      var f, d;
      ghost var l, t;
      f, d, l, t := FixedTables();
      fixed, distFix, fixedLw, fixedDw := f, d, l, t;
      this.total, left, memory := total, total, true;
      mode, last, check, mark := S.Type, false, 1, 0;
      lenTable, lenAt, lenBits, distTable, distAt, distBits := f, 0, 0, f, 0, 0;
      lw, dw := [], [];
      new;
      BeginsWell();
    }

    lemma BeginsWell()
      requires o.Valid() && r.Valid() && win.Valid() && mode.Type? && !last && o.All() == [] && r.Rest() == []
               && left == total && |total| % 8 == 0
      requires check == 1 && win.data == null && win.wsize == 0
      ensures Ready() && Started()
    {
      hide S.Tracks, A.Adler, S.First;
      A.AdlerNone();
      FirstTracked(Cfg(), total, Abs(left));
    }

    // -- Block headers --------------------------------------------------------------------------------------------

    lemma RestSize(f: seq<bool>)
      requires r.Valid() && |f| % 8 == 0
      ensures |r.Rest() + f| % 8 == r.bits % 8
    {
      B.StreamSize(r.input[r.next..]);
    }

    /** The end of the last block. */
    method LastDone(ghost f: seq<bool>)
      requires Valid() && mode.Type? && last && |f| % 8 == 0
      modifies this`mode, r`hold, r`bits
      ensures Valid() && Abs(f) == S.StepType(old(Abs(f))) && !mode.Type?
    {
      hide TreesIn, Bits, Pow2, B.Stream, S.Step, S.Stuck, TableIn, FixedOk;
      S.StuckType(Cfg(), Held());
      RestSize(f);
      ghost var rest := r.Rest();
      r.ByteBits();
      mode := S.Check;
      Cut(rest, f, |rest + f| % 8);
    }

    method UseFixed()
      requires FixedOk()
      modifies this`lenTable, this`lenAt, this`lenBits, this`distTable, this`distAt, this`distBits, this`lw, this`dw
      ensures HasTrees(S.FixedTrees())
    {
      hide TreesIn, S.FixedTrees, TableIn;
      lenTable, lenAt, lenBits, lw := fixed, 0, 9, fixedLw;
      distTable, distAt, distBits, dw := fixed, distFix, 5, fixedDw;
    }

    /** The three bits of a block header. */
    method BlockHead(ghost f: seq<bool>)
      requires Sound() && mode.Type? && !last && 3 <= r.bits < 11
      modifies this`mode, this`last, this`lenTable, this`lenAt, this`lenBits, this`distTable, this`distAt, this`distBits
      modifies this`lw, this`dw, r`hold, r`bits
      ensures Valid() && Abs(f) == S.StepType(old(Abs(f))) && !mode.Type?
    {
      hide TreesIn, Bits, Pow2, B.Stream, FromBits, S.FixedTrees, S.Step, S.Stuck, TableIn, FixedOk, HasTrees;
      hide S.BlockMode, TablesFor, S.Sane;
      ghost var rest := r.Rest();
      var v := r.Take(1);
      var kind := r.Take(2);
      TypeBits(rest, f);
      OneBit(rest[..1]);
      last := v == 1;
      if kind == 1 { UseFixed(); }
      BlockTables(kind);
      mode := S.BlockMode(kind);
    }

    lemma BlockTables(kind: nat)
      requires kind == 1 ==> HasTrees(S.FixedTrees())
      ensures var m := S.BlockMode(kind); TablesFor(m) && S.Sane(m) && !m.Copy? && !m.Check? && !m.Type?
    {
      hide HasTrees, S.FixedTrees;
    }

    /** TYPEDO */
    method DoType(ghost f: seq<bool>) returns (go: bool)
      requires Valid() && mode.Type? && |f| % 8 == 0
      modifies this`mode, this`last, this`lenTable, this`lenAt, this`lenBits, this`distTable, this`distAt, this`distBits
      modifies this`lw, this`dw, r`next, r`hold, r`bits
      ensures Valid() && old(r.next) <= r.next
      ensures go ==> Abs(f) == S.StepType(old(Abs(f))) && mode != old(mode)
      ensures !go ==> Abs(f) == old(Abs(f)) && r.next == |r.input| && S.Stuck(Cfg(), Held())
    {
      hide TreesIn, Bits, Pow2, B.Stream, S.StepType, S.Step, S.Stuck, TableIn, FixedOk, HasTrees;
      if last {
        LastDone(f);
        return true;
      }
      S.StuckType(Cfg(), Held());
      go := r.NeedBits(3);
      S.StuckType(Cfg(), Held());
      if go { BlockHead(f); }
    }

    /** STORED: the lengths, the second the complement of the first. */
    method StoredHead(ghost f: seq<bool>)
      requires Sound() && mode.Stored? && r.bits == 32 && |f| % 8 == 0
      modifies this`mode, r`hold, r`bits
      ensures Valid() && Abs(f) == S.StepStored(old(Abs(f))) && !mode.Stored?
    {
      hide TreesIn, Bits, Pow2, B.Stream, FromBits, S.Step, S.Stuck, TableIn, FixedOk, HasTrees;
      RestSize(f);
      ghost var rest := r.Rest();
      ghost var held := r.Buffer();
      var n := r.Peek(16);
      var c := r.Upper(16);
      assert held[16..] == held[16..32];
      StoredBits(rest, held, f);
      S.AtRest(Cfg(), S.State(S.Bad, last, held, o.All()));
      if n + c != 0xffff {
        mode := S.Bad;
      } else {
        r.InitBits();
        mode := S.Copy(n);
      }
    }

    method DoStored(ghost f: seq<bool>) returns (go: bool)
      requires Valid() && mode.Stored? && |f| % 8 == 0
      modifies this`mode, r`next, r`hold, r`bits
      ensures Valid() && old(r.next) <= r.next
      ensures S.Reaches(Cfg(), old(Abs(f)), Abs(f))
      ensures go ==> !mode.Stored? && S.Onward(old(Abs(f)), Abs(f))
      ensures !go ==> mode.Stored? && r.next == |r.input| && S.Stuck(Cfg(), Held())
    {
      hide TreesIn, Bits, Pow2, B.Stream, S.Step, S.Stuck, TableIn, FixedOk, HasTrees, S.StepStored, S.Reaches,
           S.Onward;
      if r.bits >= 8 { S.StuckStored(Cfg(), Held()); }
      RestSize(f);
      ghost var rest := r.Rest();
      ghost var st := Abs(f);
      r.ByteBits();
      Cut(rest, f, |rest + f| % 8);
      RestSize(f);
      Aligned(Cfg(), st, Abs(f));
      go := r.NeedBits(32);
      if go {
        RestSize(f);
        ghost var at := Abs(f);
        StoredHead(f);
        OneStep(Cfg(), st, at, Abs(f));
      } else {
        S.StuckStored(Cfg(), Held());
      }
    }

    /** TABLE */
    method TableHead(ghost f: seq<bool>)
      requires Sound() && mode.Table? && 14 <= r.bits < 22
      modifies this`mode, r`hold, r`bits
      ensures Valid() && Abs(f) == S.StepTable(old(Abs(f))) && !mode.Table?
    {
      hide TreesIn, Bits, Pow2, B.Stream, FromBits, S.Step, S.Stuck, TableIn, FixedOk, HasTrees;
      S.SaneTable(Abs(f));
      ghost var rest := r.Rest();
      var nlen := r.Take(5);
      var ndist := r.Take(5);
      var ncode := r.Take(4);
      TableBits(rest, f);
      mode := S.TableMode(nlen + 257, ndist + 1, ncode + 4);
    }

    method DoTable(ghost f: seq<bool>) returns (go: bool)
      requires Valid() && mode.Table?
      modifies this`mode, r`next, r`hold, r`bits
      ensures Valid() && old(r.next) <= r.next
      ensures go ==> Abs(f) == S.StepTable(old(Abs(f))) && mode != old(mode)
      ensures !go ==> Abs(f) == old(Abs(f)) && r.next == |r.input| && S.Stuck(Cfg(), Held())
    {
      hide TreesIn, Bits, Pow2, B.Stream, S.Step, S.Stuck, TableIn, FixedOk, HasTrees, S.StepTable;
      S.StuckTable(Cfg(), Held());
      go := r.NeedBits(14);
      S.StuckTable(Cfg(), Held());
      if go { TableHead(f); }
    }

    /** One length of the code length code, in LENLENS. */
    method OneLength(ghost f: seq<bool>)
      requires Sound() && mode.LenLens? && mode.have < mode.ncode && 3 <= r.bits < 11
      modifies this`mode, r`hold, r`bits
      ensures Valid() && Abs(f) == S.StepLenLens(old(Abs(f))) && mode != old(mode)
    {
      hide TreesIn, Bits, Pow2, B.Stream, FromBits, S.Step, S.Stuck, TableIn, FixedOk, HasTrees, Order, Acceptable;
      S.SaneLenLens(Abs(f));
      ghost var rest := r.Rest();
      var v := r.Take(3);
      Cut(rest, f, 3);
      mode := S.OneLength(mode, v);
    }

    /** LENEXT and DISTEXT */
    method LenExtra(ghost f: seq<bool>)
      requires Sound() && mode.LenExt? && mode.extra <= r.bits && r.bits < mode.extra + 8
      modifies this`mode, r`hold, r`bits
      ensures Valid() && Abs(f) == S.StepLenExt(old(Abs(f))) && !mode.LenExt?
    {
      hide TreesIn, Bits, Pow2, B.Stream, FromBits, S.Step, S.Stuck, TableIn, FixedOk, HasTrees;
      ghost var rest := r.Rest();
      var v := r.Take(mode.extra);
      Cut(rest, f, mode.extra);
      mode := S.Dist(mode.trees, mode.length + v);
    }

    method DoLenExt(ghost f: seq<bool>) returns (go: bool)
      requires Valid() && mode.LenExt?
      modifies this`mode, r`next, r`hold, r`bits
      ensures Valid() && old(r.next) <= r.next
      ensures go ==> Abs(f) == S.StepLenExt(old(Abs(f))) && mode != old(mode)
      ensures !go ==> Abs(f) == old(Abs(f)) && r.next == |r.input| && S.Stuck(Cfg(), Held())
    {
      hide TreesIn, Bits, Pow2, B.Stream, S.Step, S.Stuck, TableIn, FixedOk, HasTrees, S.StepLenExt;
      S.StuckLenExt(Cfg(), Held());
      go := r.NeedBits(mode.extra);
      S.StuckLenExt(Cfg(), Held());
      if go { LenExtra(f); }
    }

    method DistExtra(ghost f: seq<bool>)
      requires Sound() && mode.DistExt? && mode.extra <= r.bits && r.bits < mode.extra + 8
      modifies this`mode, r`hold, r`bits
      ensures Valid() && Abs(f) == S.StepDistExt(old(Abs(f))) && !mode.DistExt?
    {
      hide TreesIn, Bits, Pow2, B.Stream, FromBits, S.Step, S.Stuck, TableIn, FixedOk, HasTrees;
      ghost var rest := r.Rest();
      var v := r.Take(mode.extra);
      Cut(rest, f, mode.extra);
      S.LowBelow(rest + f, mode.extra);
      mode := S.Mode.Match(mode.trees, mode.length, mode.offset + v);
    }

    method DoDistExt(ghost f: seq<bool>) returns (go: bool)
      requires Valid() && mode.DistExt?
      modifies this`mode, r`next, r`hold, r`bits
      ensures Valid() && old(r.next) <= r.next
      ensures go ==> Abs(f) == S.StepDistExt(old(Abs(f))) && mode != old(mode)
      ensures !go ==> Abs(f) == old(Abs(f)) && r.next == |r.input| && S.Stuck(Cfg(), Held())
    {
      hide TreesIn, Bits, Pow2, B.Stream, S.Step, S.Stuck, TableIn, FixedOk, HasTrees, S.StepDistExt;
      S.StuckDistExt(Cfg(), Held());
      go := r.NeedBits(mode.extra);
      S.StuckDistExt(Cfg(), Held());
      if go { DistExtra(f); }
    }

    // -- Symbols --------------------------------------------------------------------------------------------------

    /** LEN: a symbol of the literal and length code. */
    method DoLen(ghost f: seq<bool>) returns (go: bool)
      requires Valid() && mode.Len?
      modifies this`mode, r`next, r`hold, r`bits
      ensures Valid() && old(r.next) <= r.next
      ensures go ==> Abs(f) == S.StepLen(old(Abs(f))) && mode != old(mode) && |r.Rest()| < |old(r.Rest())|
      ensures !go ==> Abs(f) == old(Abs(f)) && r.next == |r.input| && S.Stuck(Cfg(), Held())
    {
      hide Bits, Pow2, B.Stream, S.Step, S.Stuck, FixedOk, B.Usable, DecodeTable.Table, B.Decode, B.IsDecoded, LenMode,
           S.AfterSymbol, Leaf, S.StepLen, S.Sane, TableIn;
      S.SaneLen(Abs(f));
      if r.bits > 0 { S.StuckLen(Cfg(), Held()); }
      var t := mode.trees;
      ghost var c := Coding(Kind.Lens, t.ll, lenBits);
      MoreShort(t.ll, r.Buffer());
      ghost var rest := r.Rest();
      var here;
      TableInIs(lenTable, lenAt, lw);
      go, here := r.DecodeSymbol(lenTable, lenAt, lenBits, c, lw);
      if !go {
        S.StuckMore(Cfg(), Held());
        return;
      }
      B.DecodedAhead(c, rest, here, r.Rest(), f);
      LenModeIs(t, lenBits, rest + f, here, r.Rest() + f, S.State(mode, last, rest + f, o.All()));
      mode := LenMode(t, here);
      LenModeTrees(t, here);
    }

    /** DIST: a symbol of the distance code. */
    method DoDist(ghost f: seq<bool>) returns (go: bool)
      requires Valid() && mode.Dist?
      modifies this`mode, r`next, r`hold, r`bits
      ensures Valid() && old(r.next) <= r.next
      ensures go ==> Abs(f) == S.StepDist(old(Abs(f))) && mode != old(mode) && |r.Rest()| < |old(r.Rest())|
      ensures !go ==> Abs(f) == old(Abs(f)) && r.next == |r.input| && S.Stuck(Cfg(), Held())
    {
      hide Bits, Pow2, B.Stream, S.Step, S.Stuck, FixedOk, B.Usable, DecodeTable.Table, B.Decode, B.IsDecoded, DistMode,
           Leaf, S.StepDist, S.Sane, TableIn;
      S.SaneDist(Abs(f));
      if r.bits > 0 { S.StuckDist(Cfg(), Held()); }
      var t := mode.trees;
      ghost var c := Coding(Dists, t.dl, distBits);
      MoreShort(t.dl, r.Buffer());
      ghost var rest := r.Rest();
      var here;
      TableInIs(distTable, distAt, dw);
      go, here := r.DecodeSymbol(distTable, distAt, distBits, c, dw);
      if !go {
        S.StuckMore(Cfg(), Held());
        return;
      }
      B.DecodedAhead(c, rest, here, r.Rest(), f);
      DistModeIs(t, mode.length, distBits, rest + f, here, r.Rest() + f, S.State(mode, last, rest + f, o.All()));
      mode := DistMode(t, mode.length, here);
    }

    // -- Code lengths ---------------------------------------------------------------------------------------------

    /** The lengths a state remembers, put where inflate_table wants them. */
    method PutLengths(ls: seq<nat>)
      requires |ls| <= lens.Length
      modifies lens
      ensures lens[..|ls|] == ls
    {
      forall i | 0 <= i < |ls| { lens[i] := ls[i]; }
    }

    /** The end of LENLENS: a table for the code length code. */
    method LengthsTable(ghost f: seq<bool>)
      requires Valid() && mode.LenLens? && mode.have == mode.ncode
      modifies this`mode, this`lenTable, this`lenAt, this`lenBits, this`lw, lens, work, codes
      ensures Valid() && Abs(f) == S.StepLenLens(old(Abs(f))) && mode != old(mode)
    {
      hide Bits, Pow2, B.Stream, S.Step, S.Stuck, FixedOk, CodeIn, Acceptable, TableIn, S.StepLenLens, LengthsIn;
      S.StuckLenLens(Cfg(), Held());
      LengthsMode(Abs(f));
      var m := mode;
      var ret, bits;
      ghost var w;
      ret, bits, w := ReadLengths(m.lens);
      if ret != 0 {
        mode := S.Bad;
      } else {
        lenTable, lenAt, lenBits, lw := codes, 0, bits, w;
        mode := S.CodeLens(m.nlen, m.ndist, m.lens, []);
      }
    }

    method ReadLengths(ls: seq<nat>) returns (ret: int, bits: nat, ghost w: seq<Entry>)
      requires Arrays() && |ls| == BL_CODES && forall x | 0 <= x < |ls| :: ls[x] < 8
      modifies lens, work, codes
      ensures ret == 0 <==> Acceptable(ls, true)
      ensures ret == 0 ==> TableIn(codes, 0, w) && LengthsIn(w, bits, ls)
    {
      hide CodeIn, Acceptable, TableIn, Pow2;
      PutLengths(ls);
      NothingIn(codes, 0);
      assert lens[0..0 + 19] == ls;
      var next;
      ret, next, bits, w := MakeTable(Codes, lens, 0, 19, codes, 0, 7, work, ls, [], 0);
    }

    /** LENLENS */
    method DoLenLens(ghost f: seq<bool>) returns (go: bool)
      requires Valid() && mode.LenLens?
      modifies this`mode, this`lenTable, this`lenAt, this`lenBits, this`lw, r`next, r`hold, r`bits, lens, work, codes
      ensures Valid() && old(r.next) <= r.next
      ensures go ==> Abs(f) == S.StepLenLens(old(Abs(f))) && mode != old(mode)
      ensures !go ==> Abs(f) == old(Abs(f)) && r.next == |r.input| && S.Stuck(Cfg(), Held())
    {
      hide TreesIn, Bits, Pow2, B.Stream, S.Step, S.Stuck, TableIn, FixedOk, HasTrees, S.StepLenLens;
      if mode.have == mode.ncode {
        LengthsTable(f);
        return true;
      }
      S.StuckLenLens(Cfg(), Held());
      go := r.NeedBits(3);
      S.StuckLenLens(Cfg(), Held());
      if go { OneLength(f); }
    }

    /** CODELENS: the symbol `here` and its extra bits, all of which are there. */
    ghost predicate RunThere(here: Entry)
      reads this`mode, this`lenBits, r
    {
      && r.next <= |r.input| && mode.CodeLens? && |mode.lens| < mode.nlen + mode.ndist
      && here.bits + S.RepeatBits(here.val) <= r.bits < here.bits + S.RepeatBits(here.val) + 8
      && |r.Rest()| >= here.bits && B.IsDecoded(Coding(Codes, mode.bl, lenBits), r.Rest(), here, r.Rest()[here.bits..])
    }

    lemma RunFacts(here: Entry, f: seq<bool>)
      requires Sound() && RunThere(here)
      ensures S.RepeatBits(here.val) <= |r.Rest()[here.bits..] + f|
      ensures S.StepRun(Abs(f)) == RunResult(Abs(f), here, r.Rest()[here.bits..] + f)
      ensures S.Sane(S.StepRun(Abs(f)).mode) && here.bits > 0
    {
      hide Bits, Pow2, B.Stream, S.Step, S.Stuck, FixedOk, CodeIn, TableIn, FromBits, B.IsDecoded, B.Decode, Leaf,
           S.StepRun, S.AfterRun, LengthsIn, S.Sane;
      ghost var rest := r.Rest();
      S.SaneRun(Abs(f));
      LengthsUsable(lw, lenBits, mode.bl);
      B.DecodedAhead(Coding(Codes, mode.bl, lenBits), rest, here, rest[here.bits..], f);
      RunIs(Abs(f), lenBits, here, rest[here.bits..] + f);
    }

    /** A repeat of nothing. */
    method NoRepeat(here: Entry, ghost f: seq<bool>)
      requires Sound() && RunThere(here) && here.val == 16 && mode.lens == []
      modifies this`mode, r`hold, r`bits
      ensures Valid() && Abs(f) == S.StepRun(old(Abs(f))) && |r.Rest()| < |old(r.Rest())|
    {
      hide Bits, Pow2, B.Stream, S.Step, S.Stuck, FixedOk, CodeIn, TableIn, FromBits, B.IsDecoded, S.StepRun,
           S.AfterRun, S.Sane, HasLengths;
      RunFacts(here, f);
      var v := r.Take(here.bits);
      S.AtRest(Cfg(), S.State(S.Bad, last, r.Buffer(), o.All()));
      mode := S.Bad;
    }

    method TakeRun(here: Entry, ghost f: seq<bool>)
      requires Sound() && RunThere(here) && !(here.val == 16 && mode.lens == [])
      modifies this`mode, r`hold, r`bits
      ensures Valid() && Abs(f) == S.StepRun(old(Abs(f))) && |r.Rest()| < |old(r.Rest())|
    {
      hide Bits, Pow2, B.Stream, S.Step, S.Stuck, FixedOk, CodeIn, TableIn, FromBits, B.IsDecoded, S.StepRun,
           S.AfterRun, S.Sane, HasLengths;
      RunFacts(here, f);
      var v := r.Take(here.bits);
      Cut(r.Rest(), f, S.RepeatBits(here.val));
      v := r.Take(S.RepeatBits(here.val));
      AfterRunIs(mode, here.val, v);
      mode := S.AfterRun(mode, here.val, v);
    }

    /** What a code length is waited for with. */
    lemma AwaitFacts()
      requires Valid() && mode.CodeLens? && |mode.lens| < mode.nlen + mode.ndist
      ensures TableInIs0() && LengthsIn(lw, lenBits, mode.bl) && |mode.bl| == BL_CODES && r.bits <= 24
      ensures r.bits >= 8 ==> S.WaitsForRun(mode.bl, r.Buffer())
    {
      hide S.Stuck, FixedOk, CodeIn, S.Step, B.Decode, S.WaitsForRun, TreesIn, HasTrees, B.Usable, DecodeTable.Table,
           Bits, Pow2;
      S.StuckCodeLens(Cfg(), Held());
      LengthsUsable(lw, lenBits, mode.bl);
      if r.bits >= 8 { WaitsShort(mode.bl, r.Buffer()); }
    }

    ghost predicate TableInIs0()
      reads this`lenTable, this`lenAt, this`lw, lenTable
    {
      lenAt + |lw| <= lenTable.Length && lw == lenTable[lenAt..lenAt + |lw|]
    }

    /** The next symbol of CODELENS, when it and its extra bits are there. */
    method AwaitRun() returns (go: bool, here: Entry)
      requires r.Valid() && r.bits <= 24 && mode.CodeLens? && |mode.lens| < mode.nlen + mode.ndist
               && |mode.bl| == BL_CODES
      requires TableInIs0() && LengthsIn(lw, lenBits, mode.bl) && (r.bits >= 8 ==> S.WaitsForRun(mode.bl, r.Buffer()))
      modifies r`next, r`hold, r`bits
      ensures r.Valid() && old(r.next) <= r.next && r.Rest() == old(r.Rest())
      ensures go ==> RunThere(here)
      ensures !go ==> r.next == |r.input| && S.WaitsForRun(mode.bl, r.Buffer())
    {
      hide Bits, Pow2, B.Stream, B.IsDecoded, B.Decode, LengthsIn, S.WaitsForRun, DecodeTable.Table, B.Usable;
      ghost var c := Coding(Codes, mode.bl, lenBits);
      LengthsUsable(lw, lenBits, mode.bl);
      ghost var b, g := r.Buffer(), r.Rest()[r.bits..];
      go, here := r.PeekLength(lenTable, lenAt, lenBits, c, lw);
      if !go {
        WaitsMore(mode.bl, r.Buffer());
        return;
      }
      if r.next == old(r.next) && r.bits >= 8 {
        assert b + g == r.Rest();
        RunReady(c, b, g, here);
      }
      go := r.NeedBits(here.bits + S.RepeatBits(here.val));
      if !go {
        r.RestHeld();
        RunWaits(c, r.Buffer(), here);
      }
    }

    /** CODELENS, one symbol. */
    method DoRun(ghost f: seq<bool>) returns (go: bool)
      requires Valid() && mode.CodeLens? && |mode.lens| < mode.nlen + mode.ndist
      modifies this`mode, r`next, r`hold, r`bits
      ensures Valid() && old(r.next) <= r.next
      ensures go ==> Abs(f) == S.StepRun(old(Abs(f))) && |r.Rest()| < |old(r.Rest())|
      ensures !go ==> Abs(f) == old(Abs(f)) && r.next == |r.input| && S.Stuck(Cfg(), Held())
    {
      hide RunThere, S.StepRun, S.Stuck, B.Stream, Bits, S.Sane, FixedOk, TreesIn, LengthsIn, S.WaitsForRun, TableInIs0,
           S.Step, TableIn;
      AwaitFacts();
      var here;
      go, here := AwaitRun();
      if go {
        if here.val == 16 && mode.lens == [] { NoRepeat(here, f); } else { TakeRun(here, f); }
      } else {
        S.StuckCodeLens(Cfg(), Held());
      }
    }

    /** The end of CODELENS: the tables for both codes. */
    method TreesTables(ghost f: seq<bool>)
      requires Valid() && mode.CodeLens? && |mode.lens| == mode.nlen + mode.ndist
      modifies this`mode, this`lenTable, this`lenAt, this`lenBits, this`distTable, this`distAt, this`distBits, this`lw,
               this`dw
      modifies lens, work, codes
      ensures Valid() && Abs(f) == S.StepCodeLens(old(Abs(f)))
      ensures mode.Bad? || mode.Len?
    {
      hide Bits, Pow2, B.Stream, S.Step, S.Stuck, FixedOk, TreesIn, S.TreesMode, TableIn, S.StepCodeLens, LengthsIn,
           HasTrees, HasLengths;
      S.StuckCodeLens(Cfg(), Held());
      var m := mode;
      TreesIs(Abs(f));
      var ret, lbits, next, dbits;
      ghost var w, d;
      ret, lbits, next, dbits, w, d := ReadTrees(m.lens, m.nlen);
      if ret != 0 {
        mode := S.Bad;
      } else {
        UseTrees(lbits, next, dbits, w, d, Trees(m.lens[..m.nlen], m.lens[m.nlen..]));
      }
    }

    /** The test for the end-of-block code, and the tables. */
    method ReadTrees(ls: seq<nat>, nlen: nat)
        returns (ret: int, lbits: nat, next: nat, dbits: nat, ghost w: seq<Entry>, ghost d: seq<Entry>)
      requires Arrays() && 257 <= nlen <= 286 && nlen < |ls| <= nlen + 30 && forall x | 0 <= x < |ls| ::
               ls[x] <= MAX_BITS
      modifies lens, work, codes
      ensures S.TreesMode(ls, nlen) == if ret == 0 then S.Len(Trees(ls[..nlen], ls[nlen..])) else S.Bad
      ensures ret == 0
              ==> TableIn(codes, 0, w) && TableIn(codes, next, d)
                  && TreesIn(w, lbits, d, dbits, Trees(ls[..nlen], ls[nlen..]))
    {
      hide TableIn, TreesIn, Acceptable;
      PutLengths(ls);
      if lens[256] == 0 { return -1, 0, 0, 0, [], []; }
      ret, lbits, next, dbits, w, d := BothTables(lens, work, codes, ls, nlen);
    }

    method UseTrees(lbits: nat, next: nat, dbits: nat, ghost w: seq<Entry>, ghost d: seq<Entry>, t: Trees)
      requires TableIn(codes, 0, w) && TableIn(codes, next, d) && TreesIn(w, lbits, d, dbits, t)
      modifies this`mode, this`lenTable, this`lenAt, this`lenBits, this`distTable, this`distAt, this`distBits, this`lw,
               this`dw
      ensures HasTrees(t) && mode == S.Len(t)
    {
      hide TableIn, TreesIn;
      lenTable, lenAt, lenBits, lw := codes, 0, lbits, w;
      distTable, distAt, distBits, dw := codes, next, dbits, d;
      mode := S.Len(t);
    }

    // -- Output ---------------------------------------------------------------------------------------------------

    /** LIT */
    method DoLit(ghost f: seq<bool>) returns (go: bool)
      requires Valid() && mode.Lit?
      modifies this`mode, o`put, o.buf
      ensures Valid() && (go <==> old(o.put) < o.end) && old(o.All()) <= o.All()
      ensures go ==> Abs(f) == S.StepLit(old(Abs(f))) && mode != old(mode) && o.put == old(o.put) + 1
      ensures !go ==> Abs(f) == old(Abs(f))
    {
      hide Bits, Pow2, B.Stream, S.Step, S.Stuck, FixedOk, TreesIn, TableIn;
      S.NeverStuck(Cfg(), Held());
      if o.put == o.end { return false; }
      o.PutByte(mode.byte);
      mode := S.Len(mode.trees);
      go := true;
    }

    /** COPY: as much as there is input and space for. */
    method DoCopy(ghost f: seq<bool>) returns (go: bool)
      requires Valid() && mode.Copy?
      modifies this`mode, r`next, o`put, o.buf
      ensures Valid() && S.Reaches(Cfg(), old(Abs(f)), Abs(f)) && old(r.next) <= r.next && old(o.put) <= o.put
              && old(o.All()) <= o.All()
      ensures go ==> if mode.Type? then r.next == old(r.next) && o.put == old(o.put) else |r.Rest()| < |old(r.Rest())|
      ensures !go ==> o.put == o.end || (r.next == |r.input| && S.Stuck(Cfg(), Held()))
    {
      hide Bits, Pow2, B.Stream, S.Step, S.Stuck, FixedOk, TreesIn, TableIn, S.Reaches;
      ghost var st := Abs(f);
      if mode.length == 0 {
        S.IsCopy(Cfg(), st);
        S.ReachesStep(Cfg(), st);
        mode := S.Type;
        return true;
      }
      var copy := mode.length;
      if copy > |r.input| - r.next { copy := |r.input| - r.next; }
      if copy > o.end - o.put { copy := o.end - o.put; }
      if copy == 0 {
        S.ReachesSelf(Cfg(), st);
        S.StuckCopy(Cfg(), Held());
        return false;
      }
      ghost var bytes := r.input[r.next..r.next + copy];
      o.PutAll(r.input[r.next..r.next + copy]);
      r.SkipBytes(copy);
      mode := S.Copy(mode.length - copy);
      B.StreamSize(bytes);
      assert st.s == B.Stream(bytes) + (r.Rest() + f);
      S.CopySteps(Cfg(), st, bytes, r.Rest() + f);
      go := true;
    }

    // -- Matches --------------------------------------------------------------------------------------------------

    /** The window holds the end of the output of earlier calls, as long as there may be matches. */
    ghost predicate WindowOk()
      reads this`mode, win, win.data, o`buf, o`hist
    {
      && win.Valid() && (win.data != null ==> win.data != o.buf)
      && (mode.Check? || mode.Done? || mode.Bad? || if win.wsize == 0 then o.hist == [] else win.seen == o.hist)
    }

    /** How far back in the window a match starts, and whether that is too far. */
    lemma WindowBack()
      requires WindowOk() && o.Valid() && mode.Match? && o.put - o.start < mode.offset
      ensures var d := mode.offset - (o.put - o.start);
              if d <= win.whave then win.wsize > 0 && d <= |o.hist| && mode.offset <= |o.All()| && win.wnext < win.wsize
                && win.whave <= win.wsize
              else mode.offset > |o.All()| || mode.offset > Cfg().wsize
    {
      hide Pow2;
      win.Sizes();
    }

    /** One byte of a match, the i-th of this piece. */
    method CopyByte(b: Octet, m: S.Mode, i: nat, ghost st: S.State)
      requires o.Valid() && o.put < o.end && m.Match? && i < m.length && 0 < m.offset <= |o.All()|
               && b == o.All()[|o.All()| - m.offset]
      requires S.Tracks(Cfg(), st, S.State(S.MatchAt(m.trees, m.length - i, m.offset), last, st.s, o.All()))
      modifies o`put, o.buf
      ensures o.Valid() && o.put == old(o.put) + 1 && o.All() == old(o.All()) + [b]
      ensures S.Tracks(Cfg(), st, S.State(S.MatchAt(m.trees, m.length - (i + 1), m.offset), last, st.s, o.All()))
    {
      hide S.Tracks, Pow2;
      S.MatchMore(Cfg(), st, S.State(S.MatchAt(m.trees, m.length - i, m.offset), last, st.s, o.All()), m.trees,
                  m.length - i, m.offset);
      o.PutByte(b);
    }

    /** The window's part of a match: `n` bytes that lie in one piece of the window. */
    method FromWindow(n: nat, from: nat, ghost d: nat, ghost f: seq<bool>)
      requires Valid() && WindowOk() && mode.Match? && n <= mode.length && n <= o.end - o.put
      requires d == mode.offset - (o.put - o.start) && 1 <= d <= win.whave && win.wsize > 0 && n <= d
      requires from == W.IndexBack(win.wsize, win.wnext, d) && (d > win.wnext ==> n <= d - win.wnext)
      modifies this`mode, o`put, o.buf
      ensures Valid() && S.Tracks(Cfg(), old(Abs(f)), Abs(f)) && o.put == old(o.put) + n && old(o.All()) <= o.All()
    {
      hide Bits, Pow2, B.Stream, S.Step, S.Stuck, FixedOk, TreesIn, TableIn, S.Tracks, S.Sane, W.Holds, HasTrees;
      win.Sizes();
      ghost var st, out := Abs(f), o.All();
      S.NeverStuck(Cfg(), Held());
      MatchStart(Cfg(), st);
      var m := mode;
      MatchFacts(m);
      CopyWindow(n, from, d, m, st);
      MatchSane(m, n);
      mode := S.MatchAt(m.trees, m.length - n, m.offset);
    }

    method CopyWindow(n: nat, from: nat, ghost d: nat, m: S.Mode, ghost st: S.State)
      requires o.Valid() && win.Valid() && win.data != null && win.data != o.buf && win.seen == o.hist && m.Match?
               && n <= m.length && n <= o.end - o.put
      requires d == m.offset - (o.put - o.start) && 1 <= d <= win.whave && win.wsize > 0 && n <= d && m.offset > 0
      requires from == W.IndexBack(win.wsize, win.wnext, d) && (d > win.wnext ==> n <= d - win.wnext)
      requires S.Tracks(Cfg(), st, S.State(S.MatchAt(m.trees, m.length, m.offset), last, st.s, o.All()))
      modifies o`put, o.buf
      ensures o.Valid() && o.put == old(o.put) + n && old(o.All()) <= o.All()
      ensures S.Tracks(Cfg(), st, S.State(S.MatchAt(m.trees, m.length - n, m.offset), last, st.s, o.All()))
    {
      hide Pow2, S.Tracks, S.MatchAt, W.Holds;
      win.Sizes();
      for i := 0 to n
        invariant o.Valid() && o.put == old(o.put) + i && old(o.All()) <= o.All()
        invariant S.Tracks(Cfg(), st, S.State(S.MatchAt(m.trees, m.length - i, m.offset), last, st.s, o.All()))
      {
        win.Back(d - i);
        ghost var all := o.All();
        assert |all| - m.offset == |o.hist| - (d - i);
        CopyByte(win.data[from + i], m, i, st);
      }
    }

    /** The output's part of a match. */
    method FromOutput(n: nat, ghost f: seq<bool>)
      requires Valid() && mode.Match? && n <= mode.length && n <= o.end - o.put && mode.offset <= o.put - o.start
      modifies this`mode, o`put, o.buf
      ensures Valid() && S.Tracks(Cfg(), old(Abs(f)), Abs(f)) && o.put == old(o.put) + n && old(o.All()) <= o.All()
    {
      hide Bits, Pow2, B.Stream, S.Step, S.Stuck, FixedOk, TreesIn, TableIn, S.Tracks, S.Sane, HasTrees;
      ghost var st := Abs(f);
      S.NeverStuck(Cfg(), Held());
      MatchStart(Cfg(), st);
      var m := mode;
      MatchFacts(m);
      CopyOutput(n, m, st);
      MatchSane(m, n);
      mode := S.MatchAt(m.trees, m.length - n, m.offset);
    }

    method CopyOutput(n: nat, m: S.Mode, ghost st: S.State)
      requires o.Valid() && m.Match? && n <= m.length && n <= o.end - o.put && 0 < m.offset <= o.put - o.start
      requires S.Tracks(Cfg(), st, S.State(S.MatchAt(m.trees, m.length, m.offset), last, st.s, o.All()))
      modifies o`put, o.buf
      ensures o.Valid() && o.put == old(o.put) + n && old(o.All()) <= o.All()
      ensures S.Tracks(Cfg(), st, S.State(S.MatchAt(m.trees, m.length - n, m.offset), last, st.s, o.All()))
    {
      hide Pow2, S.Tracks, S.MatchAt;
      for i := 0 to n
        invariant o.Valid() && o.put == old(o.put) + i && old(o.All()) <= o.All()
        invariant S.Tracks(Cfg(), st, S.State(S.MatchAt(m.trees, m.length - i, m.offset), last, st.s, o.All()))
      {
        CopyByte(o.Back(m.offset), m, i, st);
      }
    }

    /** MATCH: as much of it as lies in one piece and as there is space for. */
    method DoMatch(ghost f: seq<bool>) returns (go: bool)
      requires Valid() && WindowOk() && mode.Match?
      modifies this`mode, o`put, o.buf
      ensures Valid() && S.Tracks(Cfg(), old(Abs(f)), Abs(f)) && old(o.put) <= o.put && old(o.All()) <= o.All()
      ensures go ==> o.put > old(o.put) || (mode.Bad? && o.put == old(o.put))
      ensures !go ==> o.put == o.end
    {
      hide Bits, Pow2, B.Stream, S.Step, S.Stuck, FixedOk, TreesIn, TableIn, S.Tracks, S.Sane, W.Holds, HasTrees;
      MatchFacts(mode);
      if o.put == o.end {
        MatchStart(Cfg(), Abs(f));
        return false;
      }
      var copy := o.put - o.start;
      if mode.offset > copy {
        WindowBack();
        copy := mode.offset - copy;
        ghost var d := copy;
        if copy > win.whave {
          S.TooFar(Cfg(), Abs(f));
          S.AtRest(Cfg(), S.State(S.Bad, last, r.Buffer(), o.All()));
          mode := S.Bad;
          return true;
        }
        var from;
        if copy > win.wnext {
          copy := copy - win.wnext;
          from := win.wsize - copy;
        } else {
          from := win.wnext - copy;
        }
        if copy > mode.length { copy := mode.length; }
        if copy > o.end - o.put { copy := o.end - o.put; }
        FromWindow(copy, from, d, f);
      } else {
        copy := mode.length;
        if copy > o.end - o.put { copy := o.end - o.put; }
        FromOutput(copy, f);
      }
      go := true;
    }

    // -- The trailer ----------------------------------------------------------------------------------------------

    /** The check value covers the output up to `mark`. */
    ghost predicate CheckOk()
      reads this`check, this`mark, o, o.buf
    {
      o.start <= mark <= o.put <= o.end <= o.buf.Length
        && (wrap ==> check == A.Adler(o.All()[..|o.hist| + mark - o.start]))
    }

    /** The check value brought up to date with the output. */
    method UpdateCheck(divide: bool)
      requires o.Valid() && CheckOk()
      modifies this`check, this`mark
      ensures CheckOk() && mark == o.put && (wrap ==> check == A.Adler(o.All()))
    {
      hide A.Adler, A.Checksum, A.OneByteFails;
      if wrap {
        ghost var x, y := o.All()[..|o.hist| + mark - o.start], o.buf[mark..o.put];
        A.AdlerContinues(x, y);
        assert x + y == o.All();
        assert o.buf[mark..mark + (o.put - mark)] == y;
        check := A.AdlerOf(check, o.buf, mark, o.put - mark, divide);
      }
      mark := o.put;
      assert o.All()[..|o.hist| + mark - o.start] == o.All();
    }

    /** The comparison with the trailer. */
    method Compare(divide: bool, ghost f: seq<bool>)
      requires Sound() && mode.Check? && CheckOk() && wrap && r.bits == 32
      modifies this`mode, this`check, this`mark, r`hold, r`bits
      ensures Valid() && CheckOk() && Abs(f) == S.StepCheck(Cfg(), old(Abs(f))) && (mode.Done? || mode.Bad?)
    {
      hide Bits, Pow2, B.Stream, S.Step, S.Stuck, FixedOk, TreesIn, TableIn, A.Adler, FromBits, S.Trailer, Swap32,
           HasTrees, HasLengths;
      UpdateCheck(divide);
      var hold := r.Peek(32);
      ghost var rest, held := r.Rest(), r.Buffer();
      HeldFirst(rest, held, f);
      TrailerIs(rest + f);
      if Swap32(hold) != check {
        S.AtRest(Cfg(), S.State(S.Bad, last, held, o.All()));
        mode := S.Bad;
      } else {
        r.InitBits();
        mode := S.Done;
      }
    }

    /** CHECK */
    method DoCheck(divide: bool, ghost f: seq<bool>) returns (go: bool)
      requires Valid() && mode.Check? && CheckOk()
      modifies this`mode, this`check, this`mark, r`next, r`hold, r`bits
      ensures Valid() && CheckOk() && old(r.next) <= r.next
      ensures go ==> Abs(f) == S.StepCheck(Cfg(), old(Abs(f))) && mode != old(mode)
      ensures mode.Done? || mode.Bad? || (mode.Check? && mark == old(mark))
      ensures !go ==> Abs(f) == old(Abs(f)) && r.next == |r.input| && S.Stuck(Cfg(), Held())
    {
      hide Bits, Pow2, B.Stream, S.Step, S.Stuck, FixedOk, TreesIn, TableIn, A.Adler, FromBits, S.Trailer;
      S.StuckCheck(Cfg(), Held());
      if wrap {
        go := r.NeedBits(32);
        S.StuckCheck(Cfg(), Held());
        if go { Compare(divide, f); }
      } else {
        S.AtRest(Cfg(), S.State(S.Done, last, r.Buffer(), o.All()));
        mode := S.Done;
        go := true;
      }
    }

    // -- One call -------------------------------------------------------------------------------------------------

    /** What is known after a turn of the loop, or when it cannot go on. */
    ghost predicate Turned(st: S.State, go: bool, f: seq<bool>)
      reads this`mode, this`last, r, o, o.buf
      requires o.Valid() && r.Valid()
    {
      && S.Tracks(Cfg(), st, Abs(f)) && (go ==> S.Onward(st, Abs(f)))
      && (!go ==> o.put == o.end || mode.Done? || mode.Bad? || (r.next == |r.input| && S.Stuck(Cfg(), Held())))
    }

    /** The states of code lengths. */
    method TurnLengths(ghost f: seq<bool>) returns (go: bool)
      requires Valid() && (mode.LenLens? || mode.CodeLens?)
      modifies this`mode, this`lenTable, this`lenAt, this`lenBits, this`distTable, this`distAt, this`distBits, this`lw,
               this`dw
      modifies r`next, r`hold, r`bits, lens, work, codes
      ensures Valid() && Turned(old(Abs(f)), go, f)
    {
      hide Lean, FixedOk, TablesFor, S.Step, S.Stuck, S.Onward, S.Tracks, S.StepLenLens, S.StepCodeLens, S.StepRun,
           B.Stream, Bits, Pow2;
      ghost var st := Abs(f);
      if mode.LenLens? {
        go := DoLenLens(f);
        S.IsLenLens(Cfg(), st);
        S.Stepped(Cfg(), st, Abs(f), go);
      } else {
        S.IsCodeLens(Cfg(), st);
        if |mode.lens| < mode.nlen + mode.ndist {
          go := DoRun(f);
          RunStep(st);
          if go { RunGoes(Cfg(), st, Abs(f)); } else { S.Stepped(Cfg(), st, Abs(f), false); }
        } else {
          TreesTables(f);
          go := true;
          S.Stepped(Cfg(), st, Abs(f), true);
        }
      }
    }

    /** The states that read a number of bits. */
    method TurnBits(ghost f: seq<bool>) returns (go: bool)
      requires Valid() && (mode.Type? || mode.Stored? || mode.Table?) && |f| % 8 == 0
      modifies this`mode, this`last, this`lenTable, this`lenAt, this`lenBits, this`distTable, this`distAt, this`distBits
      modifies this`lw, this`dw, r`next, r`hold, r`bits
      ensures Valid() && Turned(old(Abs(f)), go, f)
    {
      hide Lean, FixedOk, TablesFor, S.Sane, S.Step, S.Stuck, S.Onward, S.Tracks, S.StepType, S.StepStored, S.StepTable,
           B.Stream, Bits, Pow2, S.Reaches;
      ghost var st := Abs(f);
      if mode.Type? {
        go := DoType(f);
        S.IsType(Cfg(), st);
        S.Stepped(Cfg(), st, Abs(f), go);
      } else if mode.Stored? {
        go := DoStored(f);
        TracksRun(Cfg(), st, Abs(f));
      } else {
        go := DoTable(f);
        S.IsTable(Cfg(), st);
        S.Stepped(Cfg(), st, Abs(f), go);
      }
    }

    method TurnExtra(ghost f: seq<bool>) returns (go: bool)
      requires Valid() && (mode.LenExt? || mode.DistExt?)
      modifies this`mode, r`next, r`hold, r`bits
      ensures Valid() && Turned(old(Abs(f)), go, f)
    {
      hide Lean, FixedOk, TablesFor, S.Sane, S.Step, S.Stuck, S.Onward, S.Tracks, S.StepLenExt, S.StepDistExt, B.Stream,
           Bits, Pow2;
      ghost var st := Abs(f);
      if mode.LenExt? {
        go := DoLenExt(f);
        S.IsLenExt(Cfg(), st);
      } else {
        go := DoDistExt(f);
        S.IsDistExt(Cfg(), st);
      }
      S.Stepped(Cfg(), st, Abs(f), go);
    }

    /** LEN, while there is input and space for any match: inflate_fast. */
    method DoFast(ghost f: seq<bool>)
      requires Valid() && WindowOk() && mode.Len? && |r.input| - r.next >= 6 && o.end - o.put >= 258
      modifies this`mode, r`next, r`hold, r`bits, o`put, o.buf
      ensures Valid() && WindowOk() && S.Tracks(Cfg(), old(Abs(f)), Abs(f)) && |r.Rest()| < |old(r.Rest())|
      ensures old(o.All()) <= o.All() && old(o.put) <= o.put
    {
      hide Bits, Pow2, B.Stream, S.Step, S.Stuck, FixedOk, B.Usable, DecodeTable.Table, B.Decode, S.Tracks, W.Holds,
           TableIn, O.Output.All;
      var t := mode.trees;
      if r.bits > 0 { S.StuckLen(Cfg(), Held()); }
      MoreShort(t.ll, r.Buffer());
      mode := Fast.InflateFast(r, o, win, Fast.Lookups(lenTable, lenAt, lenBits),
                               Fast.Lookups(distTable, distAt, distBits), t, lw, dw, Cfg(), last, f);
    }

    method TurnSymbol(ghost f: seq<bool>) returns (go: bool)
      requires Valid() && WindowOk() && CheckOk() && (mode.Len? || mode.Dist?)
      modifies this`mode, r`next, r`hold, r`bits, o`put, o.buf
      ensures Valid() && WindowOk() && CheckOk() && Turned(old(Abs(f)), go, f)
    {
      hide Lean, FixedOk, TablesFor, S.Sane, S.Step, S.Stuck, S.Onward, S.Tracks, S.StepLen, S.StepDist, B.Stream, Bits,
           Pow2, W.Holds, A.Adler;
      ghost var st, n := Abs(f), |o.hist| + mark - o.start;
      if mode.Len? && |r.input| - r.next >= 6 && o.end - o.put >= 258 {
        DoFast(f);
        go := true;
        ShorterOnward(st, Abs(f));
      } else if mode.Len? {
        go := DoLen(f);
        S.IsLen(Cfg(), st);
        S.Stepped(Cfg(), st, Abs(f), go);
      } else {
        go := DoDist(f);
        S.IsDist(Cfg(), st);
        S.Stepped(Cfg(), st, Abs(f), go);
      }
      assert o.All()[..n] == st.out[..n];
    }

    /** The states that give output. */
    method TurnOutput(ghost f: seq<bool>) returns (go: bool)
      requires Valid() && WindowOk() && CheckOk() && (mode.Copy? || mode.Match? || mode.Lit?)
      modifies this`mode, r`next, o`put, o.buf
      ensures Valid() && WindowOk() && CheckOk() && Turned(old(Abs(f)), go, f)
    {
      hide Lean, FixedOk, TablesFor, S.Sane, S.Step, S.Stuck, S.Onward, S.Tracks, S.StepLit, B.Stream, Bits, Pow2,
           W.Holds, A.Adler;
      ghost var st, n := Abs(f), |o.hist| + mark - o.start;
      if mode.Copy? {
        go := DoCopy(f);
        TracksRun(Cfg(), st, Abs(f));
        if go { CopyOnward(st, Abs(f)); }
      } else if mode.Match? {
        go := DoMatch(f);
        if go { MatchOnward(st, Abs(f)); }
      } else {
        go := DoLit(f);
        S.IsLit(Cfg(), st);
        S.Stepped(Cfg(), st, Abs(f), go);
      }
      assert o.All()[..n] == st.out[..n];
    }

    /** One turn of the loop. */
    method Turn(divide: bool, ghost f: seq<bool>) returns (go: bool)
      requires Valid() && WindowOk() && CheckOk() && |f| % 8 == 0
      modifies this`mode, this`last, this`lenTable, this`lenAt, this`lenBits, this`distTable, this`distAt,
               this`distBits, this`lw, this`dw
      modifies this`check, this`mark, r`next, r`hold, r`bits, lens, work, codes, o`put, o.buf
      ensures Valid() && WindowOk() && CheckOk() && Turned(old(Abs(f)), go, f)
      ensures mode.Done? || mode.Bad? || mark == old(mark)
      ensures old(mode).Done? || old(mode).Bad? ==> mode == old(mode)
    {
      hide Lean, FixedOk, TablesFor, S.Sane, S.Step, S.Stuck, S.Onward, S.Tracks, B.Stream, Bits, Pow2, W.Holds,
           A.Adler, S.StepCheck;
      ghost var st := Abs(f);
      match mode
      case Type => go := TurnBits(f);
      case Stored => go := TurnBits(f);
      case Table => go := TurnBits(f);
      case LenLens(_, _, _, _, _) => go := TurnLengths(f);
      case CodeLens(_, _, _, _) => go := TurnLengths(f);
      case Len(_) => go := TurnSymbol(f);
      case Dist(_, _) => go := TurnSymbol(f);
      case LenExt(_, _, _) => go := TurnExtra(f);
      case DistExt(_, _, _, _) => go := TurnExtra(f);
      case Copy(_) => go := TurnOutput(f);
      case Match(_, _, _) => go := TurnOutput(f);
      case Lit(_, _) => go := TurnOutput(f);
      case Check =>
        go := DoCheck(divide, f);
        S.IsCheck(Cfg(), st);
        S.Stepped(Cfg(), st, Abs(f), go);
      case _ =>
        go := false;
        NotFar();
        S.Stepped(Cfg(), st, st, false);
    }

    lemma NotFar()
      requires Valid()
      ensures !mode.Far?
    {
      hide FixedOk, Lean, HasTrees, HasLengths, S.Sane;
    }

    /** What has been done with the stream so far is part of its one run. */
    ghost predicate Started()
      reads this`mode, this`last, this`left, r, o, o.buf
      requires o.Valid() && r.Valid()
    {
      |left| % 8 == 0 && S.Tracks(Cfg(), S.First(total), Abs(left))
    }

    /** The window and the check value between calls. */
    ghost predicate Ready()
      reads this`mode, this`check, win, win.data, o, o.buf
      requires o.Valid()
    {
      && win.Valid() && win.data != o.buf && (wrap ==> check == A.Adler(o.All()))
      && (mode.Check? || mode.Done? || mode.Bad? || if win.wsize == 0 then o.All() == [] else win.seen == o.All())
    }

    /** LOAD, with more input after what is left of the last call's. */
    method LoadInput(more: seq<Octet>)
      requires Valid() && Started() && B.Stream(more) <= left
      modifies this`left, r`input, r`next
      ensures Valid() && Started() && left == old(left)[|B.Stream(more)|..]
    {
      hide Bits, Pow2, B.Stream, S.Step, S.Stuck, FixedOk, TablesFor, S.Sane, S.Tracks, S.First;
      B.StreamSize(more);
      ghost var all := r.Rest() + left;
      r.Supply(more);
      left := left[|B.Stream(more)|..];
      assert r.Rest() + left == all;
    }

    method LoadOutput(space: array<Octet>, from: nat, n: nat)
      requires Valid() && Ready() && Started() && from + n <= space.Length && space != win.data
      modifies this`mark, o
      ensures Valid() && WindowOk() && CheckOk() && Started() && mark == o.start == from && o.buf == space
              && o.end == from + n
      ensures o.hist == old(o.All()) == o.All()
    {
      hide Bits, Pow2, B.Stream, S.Step, S.Stuck, FixedOk, TablesFor, S.Sane, W.Holds, A.Adler, S.Tracks, S.First;
      o.Supply(space, from, n);
      mark := o.start;
      assert o.All()[..|o.hist| + mark - o.start] == o.All();
    }

    /** Why a call ends: no more space, the end of the stream or an error, or too little input to go on. */
    ghost predicate Stops()
      reads this`mode, this`last, r, o, o.buf
      requires o.Valid()
    {
      o.put == o.end || mode.Done? || mode.Bad? || (r.next == |r.input| && S.Stuck(Cfg(), Held()))
    }

    /** The loop of inflate. */
    method Loop(divide: bool)
      requires Valid() && WindowOk() && CheckOk() && Started() && mark == o.start
      modifies this`mode, this`last, this`lenTable, this`lenAt, this`lenBits, this`distTable, this`distAt,
               this`distBits, this`lw, this`dw
      modifies this`check, this`mark, r`next, r`hold, r`bits, lens, work, codes, o`put, o.buf
      ensures Valid() && WindowOk() && CheckOk() && Started() && Stops()
      ensures mark == o.start || mode.Done? || mode.Bad?
    {
      hide Sound, Lean, S.Step, S.Stuck, S.Onward, S.Tracks, B.Stream, Bits, Pow2, W.Holds, A.Adler, WindowOk, CheckOk;
      ValidParts();
      while true
        invariant r.Valid() && o.Valid()
        invariant Valid() && WindowOk() && CheckOk() && Started()
        invariant mark == o.start || mode.Done? || mode.Bad?
        decreases |Abs(left).s|, o.end - o.put, S.Rank(mode)
      {
        ghost var st := Abs(left);
        var go := Turn(divide, left);
        ValidParts();
        S.TracksTrans(Cfg(), S.First(total), st, Abs(left));
        if !go { return; }
        OnwardParts(st, Abs(left));
      }
    }

    lemma ValidParts()
      requires Valid()
      ensures r.Valid() && o.Valid()
    {
      hide Lean, FixedOk, TablesFor, S.Sane;
    }

    /** inf_leave: the window and the check value; fails when there is no memory for the window. */
    method Leave(finish: bool, space: bool, divide: bool) returns (failed: bool)
      requires Valid() && WindowOk() && CheckOk() && Started()
      requires mark == o.start || mode.Done? || mode.Bad?
      modifies this`check, this`mark, win, win.data
      ensures Valid() && Started() && Abs(left) == old(Abs(left))
      ensures !failed ==> Ready() && mark == o.put
      ensures failed ==> !space
      ensures win.data == old(win.data) || fresh(win.data)
    {
      hide FixedOk, TablesFor, S.Sane, Lean, S.Step, S.Stuck, S.Tracks, B.Stream, Bits, Pow2, W.Holds, A.Adler;
      ghost var all := o.All();
      failed := false;
      if win.wsize > 0 || (mark != o.put && !mode.Bad? && !((mode.Check? || mode.Done?) && finish)) {
        failed := win.Update(o.buf, o.put, o.put - mark, space);
        if failed { return; }
        assert mark == o.start && old(win.seen) == o.hist ==> win.seen == all;
      } else {
        assert mark == o.put && mark == o.start ==> all == o.hist;
      }
      assert mark == o.start ==> o.hist + o.buf[o.put - (o.put - mark)..o.put] == all;
      UpdateCheck(divide);
    }

    /** avail_in */
    function Unread(): int
      reads r
    {
      |r.input| - r.next
    }

    /** A call up to inf_leave. */
    method Work(more: seq<Octet>, space: array<Octet>, from: nat, n: nat, divide: bool)
      requires Valid() && Ready() && Started() && from + n <= space.Length && space != win.data
               && B.Stream(more) <= left
      modifies this`mode, this`last, this`lenTable, this`lenAt, this`lenBits, this`distTable, this`distAt,
               this`distBits, this`lw, this`dw
      modifies this`check, this`mark, this`left, r, lens, work, codes, o, space
      ensures Valid() && Started() && WindowOk() && CheckOk() && Stops()
      ensures mark == o.start || mode.Done? || mode.Bad?
      ensures from <= o.put <= from + n && left == old(left)[|B.Stream(more)|..]
      ensures o.All() == old(o.All()) + space[from..o.put] && o.buf == space && o.end == from + n
    {
      hide Sound, Lean, S.Step, S.Stuck, S.Tracks, B.Stream, Bits, Pow2, W.Holds, A.Adler, WindowOk, CheckOk;
      LoadInput(more);
      LoadOutput(space, from, n);
      Loop(divide);
      ValidParts();
    }

    /** One call of inflate, with more input and `n` bytes of space for output; `room` says whether there is memory for
        the window, `finish` whether all is to be done in this call, `divide` how adler32 is compiled. */
    method Call(more: seq<Octet>, space: array<Octet>, from: nat, n: nat, finish: bool, room: bool, divide: bool)
        returns (ret: Ret)
      requires Valid() && Ready() && Started() && from + n <= space.Length && space != win.data
               && B.Stream(more) <= left
      modifies this`mode, this`last, this`lenTable, this`lenAt, this`lenBits, this`distTable, this`distAt,
               this`distBits, this`lw, this`dw
      modifies this`check, this`mark, this`left, this`memory, r, lens, work, codes, o, space, win, win.data
      ensures Valid() && Started()
      ensures memory ==> Ready()
      ensures old(memory) ==> Stops() && from <= o.put <= o.end == from + n && left == old(left)[|B.Stream(more)|..]
      ensures old(memory) ==> o.All() == old(o.All()) + space[from..o.put]
      ensures ret == MEM_ERROR <==> !memory
      ensures (old(memory) && room ==> memory) && (win.data == old(win.data) || fresh(win.data))
      ensures ret == STREAM_END <==> memory && mode.Done?
      ensures ret == DATA_ERROR <==> memory && mode.Bad?
      ensures ret == BUF_ERROR
              <==> memory && !mode.Done? && !mode.Bad?
                   && (finish || (o.put == from && old(Unread()) + |more| == Unread()))
    {
      hide Sound, Lean, S.Step, S.Stuck, S.Tracks, B.Stream, Bits, Pow2, W.Holds, A.Adler, WindowOk, CheckOk, Ready,
           Started;
      if !memory { return MEM_ERROR; }
      ValidParts();
      var available := Unread() + |more|;
      Work(more, space, from, n, divide);
      var failed := Leave(finish, room, divide);
      if failed {
        memory := false;
        return MEM_ERROR;
      }
      if mode.Done? { return STREAM_END; }
      if mode.Bad? { return DATA_ERROR; }
      ValidParts();
      var in0 := available == Unread();
      ret := if (in0 && o.put == from) || finish then BUF_ERROR else OK;
    }
  }

  ghost function RunResult(st: S.State, here: Entry, rest: seq<bool>): S.State
    requires st.mode.CodeLens? && S.RepeatBits(here.val) <= |rest|
  {
    if here.val == 16 && st.mode.lens == [] then st.(mode := S.Bad, s := rest)
    else st.(mode := S.AfterRun(st.mode, here.val, FromBits(rest[..S.RepeatBits(here.val)])),
             s := rest[S.RepeatBits(here.val)..])
  }

  /** Too few bits for a symbol that is there, and its extra bits. */
  lemma RunWaits(c: Coding, s: seq<bool>, here: Entry)
    requires c.kind == Codes && |c.lens| == BL_CODES && here.bits <= |s| < here.bits + S.RepeatBits(here.val)
    requires B.IsDecoded(c, s, here, s[here.bits..])
    ensures S.WaitsForRun(c.lens, s)
  {
    hide B.Decode;
  }

  lemma RunReady(c: Coding, b: seq<bool>, g: seq<bool>, here: Entry)
    requires c.kind == Codes && |c.lens| == BL_CODES && B.Usable(c.lens) && S.WaitsForRun(c.lens, b)
             && !B.Decode(c.lens, b).More?
    requires here.bits <= |b| && B.IsDecoded(c, b + g, here, (b + g)[here.bits..])
    ensures |b| < here.bits + S.RepeatBits(here.val)
  {
    hide B.Decode, B.Usable;
    B.DecodeAhead(c.lens, b, g);
  }

  lemma LengthsUsable(w: seq<Entry>, bits: nat, bl: seq<nat>)
    requires LengthsIn(w, bits, bl)
    ensures B.Usable(bl) && DecodeTable.Table(w, Coding(Codes, bl, bits)) && forall x | 0 <= x < |bl| :: bl[x] <= bits
  {
  }

  lemma LengthsMode(st: S.State)
    requires st.mode.LenLens? && st.mode.have == st.mode.ncode
    ensures S.StepLenLens(st)
         == st.(mode := if Acceptable(st.mode.lens, true) then S.CodeLens(st.mode.nlen, st.mode.ndist, st.mode.lens, [])
                else S.Bad)
  {
    hide Acceptable;
  }

  /** An entry of the code length code, in terms of the step. */
  lemma RunIs(st: S.State, bits: nat, here: Entry, rest: seq<bool>)
    requires st.mode.CodeLens? && S.Sane(st.mode) && |st.mode.lens| < st.mode.nlen + st.mode.ndist
    requires B.IsDecoded(Coding(Codes, st.mode.bl, bits), st.s, here, rest)
    ensures here.val == 16 && st.mode.lens == [] && |rest| >= 2 ==> S.StepRun(st) == st.(mode := S.Bad, s := rest)
    ensures !(here.val == 16 && st.mode.lens == []) && S.RepeatBits(here.val) <= |rest| ==>
              S.StepRun(st) == st.(mode := S.AfterRun(st.mode, here.val, S.Low(rest, S.RepeatBits(here.val))),
                                   s := rest[S.RepeatBits(here.val)..])
    ensures |rest| < |st.s|
  {
    hide B.Decode, S.Low, R.ExpandOne;
    match B.Decode(st.mode.bl, st.s) {
      case Symbol(x, after) =>
      case Invalid => ZeroRun(st.mode.lens, st.mode.nlen + st.mode.ndist);
      case More =>
    }
  }

  lemma TreesIs(st: S.State)
    requires st.mode.CodeLens? && |st.mode.lens| == st.mode.nlen + st.mode.ndist && S.Sane(st.mode)
    ensures S.StepCodeLens(st) == st.(mode := S.TreesMode(st.mode.lens, st.mode.nlen)) && |st.mode.lens| > 256
  {
    hide Acceptable;
  }

  lemma Slices(lens: array<nat>, ls: seq<nat>, n: nat)
    requires |ls| <= lens.Length && lens[..|ls|] == ls && n <= |ls|
    ensures lens[0..0 + n] == ls[..n] && lens[n..n + (|ls| - n)] == ls[n..]
  {
  }

  lemma MatchStart(c: S.Config, st: S.State)
    requires st.mode.Match? && S.Sane(st.mode)
    ensures S.Tracks(c, st, S.State(S.MatchAt(st.mode.trees, st.mode.length, st.mode.offset), st.last, st.s, st.out))
    ensures S.Tracks(c, st, st)
  {
    hide S.Reaches;
    S.ReachesSelf(c, st);
    assert st == S.State(S.MatchAt(st.mode.trees, st.mode.length, st.mode.offset), st.last, st.s, st.out);
  }

  lemma MatchFacts(m: S.Mode)
    requires m.Match? && S.Sane(m)
    ensures m.length > 0 && m.offset > 0
  {
  }

  lemma MatchSane(m: S.Mode, n: nat)
    requires m.Match? && S.Sane(m) && n <= m.length
    ensures S.Sane(S.MatchAt(m.trees, m.length - n, m.offset))
  {
  }

  /** ZSWAP32 */
  function Swap32(q: nat): nat {
    var q1 := q / 256;
    var q2 := q1 / 256;
    var q3 := q2 / 256;
    ((q % 256 * 256 + q1 % 256) * 256 + q2 % 256) * 256 + q3 % 256
  }

  lemma {:induction false} FromConcat(a: seq<bool>, b: seq<bool>)
    ensures FromBits(a + b) == FromBits(a) + Pow2(|a|) * FromBits(b)
    decreases |a|
  {
    if a == [] {
      assert a + b == b;
    } else {
      assert (a + b)[1..] == a[1..] + b;
      FromConcat(a[1..], b);
      DoubleTimes(Pow2(|a| - 1), FromBits(b));
    }
  }

  lemma DoubleTimes(p: nat, v: nat)
    ensures (2 * p) * v == 2 * (p * v)
  {
  }

  lemma InBytes(s: seq<bool>)
    requires |s| >= 32
    ensures s[..32] == s[..8] + (s[8..16] + (s[16..24] + s[24..32]))
  {
  }

  /** The trailer is the next 32 bits with their bytes swapped. */
  lemma TrailerIs(s: seq<bool>)
    requires |s| >= 32
    ensures S.Trailer(s) == Swap32(FromBits(s[..32]))
  {
    hide FromBits, Pow2, Swap32;
    var a, b, c, d := s[..8], s[8..16], s[16..24], s[24..32];
    B.Byte256();
    FromFits(a);
    FromFits(b);
    FromFits(c);
    FromFits(d);
    InBytes(s);
    FourBytes(a, b, c, d);
    SwapBytes(FromBits(a), FromBits(b), FromBits(c), FromBits(d));
  }

  lemma FourBytes(a: seq<bool>, b: seq<bool>, c: seq<bool>, d: seq<bool>)
    requires |a| == 8 && |b| == 8 && |c| == 8 && |d| == 8
    ensures FromBits(a + (b + (c + d))) == FromBits(a) + 256 * (FromBits(b) + 256 * (FromBits(c) + 256 * FromBits(d)))
  {
    hide FromBits;
    ByteConcat(a, b + (c + d));
    ByteConcat(b, c + d);
    ByteConcat(c, d);
  }

  lemma ByteConcat(a: seq<bool>, b: seq<bool>)
    requires |a| == 8
    ensures FromBits(a + b) == FromBits(a) + 256 * FromBits(b)
  {
    hide FromBits, Pow2;
    B.Byte256();
    FromConcat(a, b);
    assert Pow2(|a|) == 256;
  }

  lemma SwapBytes(a: nat, b: nat, c: nat, d: nat)
    requires a < 256 && b < 256 && c < 256 && d < 256
    ensures Swap32(a + 256 * (b + 256 * (c + 256 * d))) == ((a * 256 + b) * 256 + c) * 256 + d
  {
    LowByte(a, b + 256 * (c + 256 * d));
    LowByte(b, c + 256 * d);
    LowByte(c, d);
    LowByte(d, 0);
  }

  lemma LowByte(a: nat, q: nat)
    requires a < 256
    ensures (a + 256 * q) % 256 == a && (a + 256 * q) / 256 == q
  {
  }

  lemma HeldFirst(rest: seq<bool>, held: seq<bool>, f: seq<bool>)
    requires held <= rest && |held| == 32
    ensures |rest + f| >= 32 && (rest + f)[..32] == held == held[..32] && (rest + f)[32..] == rest[32..] + f
  {
  }

  lemma RunStep(st: S.State)
    requires st.mode.CodeLens? && |st.mode.lens| < st.mode.nlen + st.mode.ndist
    ensures S.StepCodeLens(st) == S.StepRun(st)
  {
  }

  lemma RunGoes(c: S.Config, a: S.State, b: S.State)
    requires b == S.Step(c, a) && |b.s| < |a.s|
    ensures S.Tracks(c, a, b) && S.Onward(a, b)
  {
    S.ReachesStep(c, a);
  }

  lemma TracksRun(c: S.Config, a: S.State, b: S.State)
    requires S.Reaches(c, a, b)
    ensures S.Tracks(c, a, b)
  {
  }

  lemma CopyOnward(a: S.State, b: S.State)
    requires a.mode.Copy? && |b.s| <= |a.s|
             && (if b.mode.Type? then |b.s| == |a.s| && |b.out| == |a.out| else |b.s| < |a.s|)
    ensures S.Onward(a, b)
  {
  }

  lemma ShorterOnward(a: S.State, b: S.State)
    requires |b.s| < |a.s|
    ensures S.Onward(a, b)
  {
  }

  lemma MatchOnward(a: S.State, b: S.State)
    requires a.mode.Match? && b.s == a.s && (|b.out| > |a.out| || (b.mode.Bad? && |b.out| == |a.out|))
    ensures S.Onward(a, b)
  {
  }

  lemma FirstTracked(c: S.Config, total: seq<bool>, a: S.State)
    requires a.mode.Type? && !a.last && a.out == [] && a.s == [] + total
    ensures S.Tracks(c, S.First(total), a)
  {
    assert a.s == total;
    S.ReachesSelf(c, a);
  }

  lemma OnwardParts(a: S.State, b: S.State)
    requires S.Onward(a, b)
    ensures |b.s| < |a.s| || (|b.s| == |a.s|
                              && (|b.out| > |a.out| || (|b.out| == |a.out| && S.Rank(b.mode) < S.Rank(a.mode))))
  {
  }

  lemma AfterRunIs(m: S.Mode, x: nat, v: nat)
    requires m.CodeLens?
    ensures S.AfterRun(m, x, v).Bad? || (S.AfterRun(m, x, v).CodeLens? && S.AfterRun(m, x, v).bl == m.bl)
  {
  }

  lemma ZeroRun(have: seq<nat>, limit: nat)
    requires |have| < limit
    ensures R.ExpandOne(have, R.Length(0), limit) == Some(have + [0])
  {
  }

  lemma WaitsMore(bl: seq<nat>, s: seq<bool>)
    requires B.Decode(bl, s).More?
    ensures S.WaitsForRun(bl, s)
  {
  }

  /** Nor does a code length or repeat. */
  lemma WaitsShort(bl: seq<nat>, s: seq<bool>)
    requires B.Usable(bl) && S.WaitsForRun(bl, s) && |bl| == BL_CODES && forall x | 0 <= x < |bl| :: bl[x] < 8
    ensures |s| < MAX_BITS
  {
    hide B.Decode, CodeWord, B.Usable;
    MoreShort(bl, s);
    if B.Decode(bl, s).Symbol? { B.DecodeRest(bl, s); }
  }

  /** A symbol needs no more bits than the longest word has. */
  lemma MoreShort(lens: seq<nat>, s: seq<bool>)
    requires B.Usable(lens)
    ensures B.Decode(lens, s).More? ==> |s| < MAX_BITS
  {
    hide CodeWord;
    if B.Decode(lens, s).More? && |s| >= MAX_BITS {
      if Full(lens) {
        var x := FullDecodes(lens, s);
        B.MoreNone(lens, s, x);
      }
    }
  }

  lemma TypeBits(s: seq<bool>, f: seq<bool>)
    requires |s| >= 3
    ensures s[1..][..2] == (s + f)[1..3] && s[1..][2..] + f == (s + f)[3..] && (s + f)[0] == s[..1][0]
  {
  }

  lemma TableBits(s: seq<bool>, f: seq<bool>)
    requires |s| >= 14
    ensures s[..5] == (s + f)[..5] && s[5..][..5] == (s + f)[5..10] && s[5..][5..][..4] == (s + f)[10..14]
    ensures s[5..][5..][4..] + f == (s + f)[14..]
  {
  }

  lemma StoredBits(rest: seq<bool>, held: seq<bool>, f: seq<bool>)
    requires |held| == 32 && held <= rest
    ensures (rest + f)[0..] == rest + f && |rest + f| >= 32
    ensures (rest + f)[..16] == held[..16] && (rest + f)[16..32] == held[16..32] && (rest + f)[32..] == rest[32..] + f
  {
  }

  /** Going to the byte boundary is a step, or none. */
  lemma Aligned(c: S.Config, st: S.State, at: S.State)
    requires st.mode.Stored? && at == st.(s := st.s[|st.s| % 8..])
    ensures S.Reaches(c, st, at)
  {
    if |st.s| % 8 == 0 {
      assert at.s == st.s;
      S.ReachesSelf(c, st);
    } else {
      S.IsStored(c, st);
      hide S.Step, S.Reaches;
      S.ReachesStep(c, st);
    }
  }

  lemma OneStep(c: S.Config, a: S.State, b: S.State, d: S.State)
    requires S.Reaches(c, a, b) && b.mode.Stored? && d == S.StepStored(b) && !d.mode.Stored?
    requires a.mode.Stored? && b.out == a.out && |b.s| <= |a.s|
    ensures S.Reaches(c, a, d) && S.Onward(a, d)
  {
    S.IsStored(c, b);
    S.StepOnward(c, b);
    hide S.Step, S.Reaches, S.StepStored;
    S.ReachesStep(c, b);
    S.ReachesTrans(c, a, b, d);
  }

  lemma OneBit(s: seq<bool>)
    requires |s| == 1
    ensures FromBits(s) == if s[0] then 1 else 0
  {
    assert FromBits(s[1..]) == 0;
  }
}
