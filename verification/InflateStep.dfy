/** The states TYPE to DONE of inflate.c as steps on the whole of a stream, whatever part of it is there: what inflate
    makes of its input one call at a time is one run of these steps. */
module InflateStep {
  import opened Wrappers
  import opened Kraft
  import opened CanonicalCode
  import opened GenCodes
  import opened BlockTables
  import opened BlockCode
  import opened BlockHeader
  import opened TableCode
  import B = BitReader
  import R = RunLengths
  import A = Adler32
  import F = FixedCodes

  type Octet = A.Octet

  /** The states, each with what it remembers. */
  datatype Mode =
    | Type
    | Stored
    | Copy(length: nat)
    | Table
    | LenLens(nlen: nat, ndist: nat, ncode: nat, have: nat, lens: seq<nat>)
    | CodeLens(nlen: nat, ndist: nat, bl: seq<nat>, lens: seq<nat>)
    | Len(trees: Trees)
    | LenExt(trees: Trees, length: nat, extra: nat)
    | Dist(trees: Trees, length: nat)
    | DistExt(trees: Trees, length: nat, offset: nat, extra: nat)
    | Match(trees: Trees, length: nat, offset: nat)
    | Lit(trees: Trees, byte: Octet)
    | Check
    | Done
    | Bad
    /** A distance beyond the window: whether it is accepted depends on the space for output. */
    | Far

  /** `s` is all of the stream still to come, `out` all output so far. */
  datatype State = State(mode: Mode, last: bool, s: seq<bool>, out: seq<Octet>)

  datatype Config = Config(wsize: nat, wrap: bool)

  /** The number in the next n bits. */
  function Low(s: seq<bool>, n: nat): nat
    requires n <= |s|
  {
    FromBits(s[..n])
  }

  function Byte(s: seq<bool>): Octet
    requires |s| >= 8
  {
    FromFits(s[..8]);
    B.Byte256();
    Low(s, 8)
  }

  function StepType(st: State): State {
    if st.last then st.(mode := Check, s := st.s[|st.s| % 8..])
    else if |st.s| < 3 then st
    else
      st.(mode := BlockMode(FromBits(st.s[1..3])), last := st.s[0], s := st.s[3..])
  }

  /** The three kinds of blocks. */
  function BlockMode(kind: nat): Mode {
    if kind == 0 then Stored else if kind == 1 then Len(FixedTrees()) else if kind == 2 then Table else Bad
  }

  function FixedTrees(): Trees { Trees(F.FixedLit(), F.FixedDist()) }

  /** First to the byte boundary. */
  function StepStored(st: State): State {
    if |st.s| % 8 != 0 then st.(s := st.s[|st.s| % 8..])
    else if |st.s| < 32 then st
    else
      var n := Low(st.s, 16);
      if n + FromBits(st.s[16..32]) != 0xffff then st.(mode := Bad) else st.(mode := Copy(n), s := st.s[32..])
  }

  function StepCopy(st: State): State
    requires st.mode.Copy?
  {
    if st.mode.length == 0 then st.(mode := Type)
    else if |st.s| < 8 then st
    else st.(mode := Copy(st.mode.length - 1), s := st.s[8..], out := st.out + [Byte(st.s)])
  }

  function StepTable(st: State): State {
    if |st.s| < 14 then st
    else st.(mode := TableMode(Low(st.s, 5) + 257, FromBits(st.s[5..10]) + 1, FromBits(st.s[10..14]) + 4),
             s := st.s[14..])
  }

  function TableMode(nlen: nat, ndist: nat, ncode: nat): Mode {
    if nlen > 286 || ndist > 30 then Bad else LenLens(nlen, ndist, ncode, 0, seq(BL_CODES, _ => 0))
  }

  ghost function StepLenLens(st: State): State
    requires st.mode.LenLens?
  {
    var m := st.mode;
    if m.have < m.ncode then
      if |st.s| < 3 then st
      else
        st.(mode := OneLength(m, Low(st.s, 3)), s := st.s[3..])
    else if Acceptable(m.lens, true) then st.(mode := CodeLens(m.nlen, m.ndist, m.lens, []))
    else st.(mode := Bad)
  }

  function OneLength(m: Mode, v: nat): Mode
    requires m.LenLens?
  {
    m.(have := m.have + 1, lens := if Order(m.have) < |m.lens| then m.lens[Order(m.have) := v] else m.lens)
  }

  /** Extra bits of a repeat, and the run that symbol x with value v stands for. */
  function RepeatBits(x: nat): nat { if x < 16 then 0 else if x == 16 then 2 else if x == 17 then 3 else 7 }

  function RunFor(x: nat, v: nat): R.Run {
    if x < 16 then R.Length(x) else if x == 16 then R.Again(3 + v) else if x == 17 then R.Zeros(3 + v)
      else R.ManyZeros(11 + v)
  }

  /** One code length or repeat; a code length code without symbols is read as zeros. */
  ghost function StepRun(st: State): State
    requires st.mode.CodeLens?
  {
    var m := st.mode;
    match B.Decode(m.bl, st.s)
    case More => st
    case Invalid => if |st.s| == 0 then st
      else st.(mode := CodeLens(m.nlen, m.ndist, m.bl, m.lens + [0]), s := st.s[1..])
    case Symbol(x, rest) =>
      if |rest| < RepeatBits(x) then st
      else if x == 16 && m.lens == [] then st.(mode := Bad, s := rest)
      else
        st.(mode := AfterRun(m, x, Low(rest, RepeatBits(x))), s := rest[RepeatBits(x)..])
  }

  /** A code length or repeat, with its extra bits in v. */
  function AfterRun(m: Mode, x: nat, v: nat): Mode
    requires m.CodeLens?
  {
    match R.ExpandOne(m.lens, RunFor(x, v), m.nlen + m.ndist)
    case None => Bad
    case Some(lens) => m.(lens := lens)
  }

  /** inflate_table takes both codes. */
  ghost predicate GoodTrees(lens: seq<nat>, nlen: nat) {
    END_BLOCK < nlen <= |lens| && lens[END_BLOCK] != 0 && Acceptable(lens[..nlen], false)
      && Acceptable(lens[nlen..], false)
  }

  ghost function TreesMode(lens: seq<nat>, nlen: nat): Mode {
    if GoodTrees(lens, nlen) then Len(Trees(lens[..nlen], lens[nlen..])) else Bad
  }

  ghost function StepCodeLens(st: State): State
    requires st.mode.CodeLens?
  {
    var m := st.mode;
    if |m.lens| < m.nlen + m.ndist then StepRun(st)
    else st.(mode := TreesMode(m.lens, m.nlen))
  }

  ghost function StepLen(st: State): State
    requires st.mode.Len?
  {
    var t := st.mode.trees;
    match B.Decode(t.ll, st.s)
    case More => st
    case Invalid => if |st.s| == 0 then st else st.(mode := Bad, s := st.s[1..])
    case Symbol(x, rest) => st.(mode := AfterSymbol(t, x), s := rest)
  }

  function AfterSymbol(t: Trees, x: nat): Mode {
    if x < LITERALS then Lit(t, x)
    else if x == END_BLOCK then Type
    else if x - (LITERALS + 1) >= L_CODES then Bad
    else LenExt(t, LengthBase(x - (LITERALS + 1)), LengthXBits(x - (LITERALS + 1)))
  }

  function StepLenExt(st: State): State
    requires st.mode.LenExt?
  {
    var m := st.mode;
    if |st.s| < m.extra then st else st.(mode := Dist(m.trees, m.length + Low(st.s, m.extra)), s := st.s[m.extra..])
  }

  ghost function StepDist(st: State): State
    requires st.mode.Dist?
  {
    var m := st.mode;
    match B.Decode(m.trees.dl, st.s)
    case More => st
    case Invalid => if |st.s| == 0 then st else st.(mode := Bad, s := st.s[1..])
    case Symbol(x, rest) => st.(mode := if x >= D_CODES then Bad
                                else DistExt(m.trees, m.length, DistBase(x), DistXBits(x)), s := rest)
  }

  function StepDistExt(st: State): State
    requires st.mode.DistExt?
  {
    var m := st.mode;
    if |st.s| < m.extra then st else st.(mode := Mode.Match(m.trees, m.length, m.offset + Low(st.s, m.extra)),
                                         s := st.s[m.extra..])
  }

  /** One byte of a match: the byte at its distance. */
  function StepMatch(c: Config, st: State): State
    requires st.mode.Match?
  {
    var m := st.mode;
    if m.length == 0 || m.offset == 0 then st.(mode := Len(m.trees))
    else if m.offset > c.wsize then st.(mode := Far)
    else if m.offset > |st.out| then st.(mode := Bad)
    else
      st.(mode := if m.length == 1 then Len(m.trees)
          else m.(length := m.length - 1), out := st.out + [st.out[|st.out| - m.offset]])
  }

  function StepLit(st: State): State
    requires st.mode.Lit?
  {
    st.(mode := Len(st.mode.trees), out := st.out + [st.mode.byte])
  }

  /** The trailer: the checksum, most significant byte first. */
  function Trailer(s: seq<bool>): nat
    requires |s| >= 32
  {
    ((FromBits(s[..8]) * 256 + FromBits(s[8..16])) * 256 + FromBits(s[16..24])) * 256 + FromBits(s[24..32])
  }

  function StepCheck(c: Config, st: State): State {
    if !c.wrap then st.(mode := Done)
    else if |st.s| < 32 then st
    else if Trailer(st.s) != A.Adler(st.out) then st.(mode := Bad)
    else st.(mode := Done, s := st.s[32..])
  }

  /** One step; a state that cannot go on with the bits there are stays as it is. */
  ghost function Step(c: Config, st: State): State {
    match st.mode
    case Type => StepType(st)
    case Stored => StepStored(st)
    case Copy(_) => StepCopy(st)
    case Table => StepTable(st)
    case LenLens(_, _, _, _, _) => StepLenLens(st)
    case CodeLens(_, _, _, _) => StepCodeLens(st)
    case Len(_) => StepLen(st)
    case LenExt(_, _, _) => StepLenExt(st)
    case Dist(_, _) => StepDist(st)
    case DistExt(_, _, _, _) => StepDistExt(st)
    case Match(_, _, _) => StepMatch(c, st)
    case Lit(_, _) => StepLit(st)
    case Check => StepCheck(c, st)
    case Done => st
    case Bad => st
    case Far => st
  }

  // -- One state at a time --------------------------------------------------------------------------------------

  /** What a step is in each state. */
  lemma IsType(c: Config, st: State)
    requires st.mode.Type?
    ensures Step(c, st) == StepType(st)
  {
  }

  lemma IsStored(c: Config, st: State)
    requires st.mode.Stored?
    ensures Step(c, st) == StepStored(st)
  {
  }

  lemma IsCopy(c: Config, st: State)
    requires st.mode.Copy?
    ensures Step(c, st) == StepCopy(st)
  {
  }

  lemma IsTable(c: Config, st: State)
    requires st.mode.Table?
    ensures Step(c, st) == StepTable(st)
  {
  }

  lemma IsLenLens(c: Config, st: State)
    requires st.mode.LenLens?
    ensures Step(c, st) == StepLenLens(st)
  {
  }

  lemma IsCodeLens(c: Config, st: State)
    requires st.mode.CodeLens?
    ensures Step(c, st) == StepCodeLens(st)
  {
  }

  lemma IsLen(c: Config, st: State)
    requires st.mode.Len?
    ensures Step(c, st) == StepLen(st)
  {
  }

  lemma IsLenExt(c: Config, st: State)
    requires st.mode.LenExt?
    ensures Step(c, st) == StepLenExt(st)
  {
  }

  lemma IsDist(c: Config, st: State)
    requires st.mode.Dist?
    ensures Step(c, st) == StepDist(st)
  {
  }

  lemma IsDistExt(c: Config, st: State)
    requires st.mode.DistExt?
    ensures Step(c, st) == StepDistExt(st)
  {
  }

  lemma IsMatch(c: Config, st: State)
    requires st.mode.Match?
    ensures Step(c, st) == StepMatch(c, st)
  {
  }

  lemma IsLit(c: Config, st: State)
    requires st.mode.Lit?
    ensures Step(c, st) == StepLit(st)
  {
  }

  lemma IsCheck(c: Config, st: State)
    requires st.mode.Check?
    ensures Step(c, st) == StepCheck(c, st)
  {
  }

  lemma AtRest(c: Config, st: State)
    requires st.mode.Done? || st.mode.Bad?
    ensures Stuck(c, st) && Sane(st.mode)
  {
  }

  /** What a state waits for. */
  lemma StuckType(c: Config, st: State)
    requires st.mode.Type?
    ensures Stuck(c, st) <==> !st.last && |st.s| < 3
  {
    IsType(c, st);
    hide Step;
  }

  lemma StuckStored(c: Config, st: State)
    requires st.mode.Stored?
    ensures Stuck(c, st) <==> |st.s| % 8 == 0 && |st.s| < 32
  {
    IsStored(c, st);
    hide Step, FromBits;
  }

  lemma StuckCopy(c: Config, st: State)
    requires st.mode.Copy?
    ensures Stuck(c, st) <==> st.mode.length > 0 && |st.s| < 8
  {
    IsCopy(c, st);
    hide Step, Byte;
  }

  lemma StuckTable(c: Config, st: State)
    requires st.mode.Table?
    ensures Stuck(c, st) <==> |st.s| < 14
  {
    IsTable(c, st);
    hide Step;
  }

  lemma StuckLenLens(c: Config, st: State)
    requires st.mode.LenLens?
    ensures Stuck(c, st) <==> st.mode.have < st.mode.ncode && |st.s| < 3
  {
    IsLenLens(c, st);
    hide Step;
  }

  ghost predicate WaitsForRun(bl: seq<nat>, s: seq<bool>)
  {
    match B.Decode(bl, s)
    case More => true
    case Invalid => s == []
    case Symbol(x, rest) => |rest| < RepeatBits(x)
  }

  lemma StuckCodeLens(c: Config, st: State)
    requires st.mode.CodeLens?
    ensures Stuck(c, st) ==> |st.mode.lens| < st.mode.nlen + st.mode.ndist && WaitsForRun(st.mode.bl, st.s)
    ensures |st.mode.lens| < st.mode.nlen + st.mode.ndist && WaitsForRun(st.mode.bl, st.s) ==> Stuck(c, st)
  {
    IsCodeLens(c, st);
    hide Step, R.ExpandOne, Acceptable, B.Decode;
  }

  lemma StuckLen(c: Config, st: State)
    requires st.mode.Len? && st.s != []
    ensures Stuck(c, st) <==> B.Decode(st.mode.trees.ll, st.s).More?
  {
    IsLen(c, st);
    hide Step, B.Decode;
  }

  lemma StuckLenExt(c: Config, st: State)
    requires st.mode.LenExt?
    ensures Stuck(c, st) <==> |st.s| < st.mode.extra
  {
    IsLenExt(c, st);
    hide Step;
  }

  lemma StuckDist(c: Config, st: State)
    requires st.mode.Dist? && st.s != []
    ensures Stuck(c, st) <==> B.Decode(st.mode.trees.dl, st.s).More?
  {
    IsDist(c, st);
    hide Step, B.Decode;
  }

  lemma StuckMore(c: Config, st: State)
    requires (st.mode.Len? && B.Decode(st.mode.trees.ll, st.s).More?)
             || (st.mode.Dist? && B.Decode(st.mode.trees.dl, st.s).More?)
    ensures Stuck(c, st)
  {
    if st.mode.Len? { IsLen(c, st); } else { IsDist(c, st); }
    hide Step, B.Decode;
  }

  lemma StuckDistExt(c: Config, st: State)
    requires st.mode.DistExt?
    ensures Stuck(c, st) <==> |st.s| < st.mode.extra
  {
    IsDistExt(c, st);
    hide Step;
  }

  lemma NeverStuck(c: Config, st: State)
    requires st.mode.Match? || st.mode.Lit?
    ensures !Stuck(c, st)
  {
    if st.mode.Match? { IsMatch(c, st); } else { IsLit(c, st); }
    hide Step;
  }

  lemma StuckCheck(c: Config, st: State)
    requires st.mode.Check?
    ensures Stuck(c, st) <==> c.wrap && |st.s| < 32
  {
    IsCheck(c, st);
    hide Step, A.Adler, FromBits;
  }

  // -- What states remember ---------------------------------------------------------------------------------------

  /** The bounds on what a state remembers. */
  predicate Sane(m: Mode)
  {
    match m
    case LenLens(nlen, ndist, ncode, have, lens) =>
      257 <= nlen <= 286 && 1 <= ndist <= 30 && 4 <= ncode <= BL_CODES && have <= ncode && |lens| == BL_CODES
        && forall x | 0 <= x < |lens| :: lens[x] < 8
    case CodeLens(nlen, ndist, bl, lens) =>
      257 <= nlen <= 286 && 1 <= ndist <= 30 && |lens| <= nlen + ndist
        && (forall x | 0 <= x < |lens| :: lens[x] <= MAX_BITS)
      && |bl| == BL_CODES && forall x | 0 <= x < |bl| :: bl[x] < 8
    case LenExt(_, length, extra) => length > 0 && extra <= 5
    case Dist(_, length) => length > 0
    case DistExt(_, length, offset, extra) => length > 0 && offset > 0 && extra <= 13 && offset + Pow2(extra) <= 32769
    case Match(_, length, offset) => length > 0 && 0 < offset <= 32768
    case _ => true
  }

  /** No distance is beyond a window of 32K. */
  lemma NeverFar(c: Config, st: State)
    requires Sane(st.mode) && c.wsize >= 32768 && !st.mode.Far?
    ensures !Step(c, st).mode.Far?
  {
    hide B.Decode, Acceptable, FromBits, A.Adler, R.ExpandOne, Order, Pow2;
  }

  lemma TablesSane(x: nat)
    ensures x < L_CODES ==> LengthBase(x) > 0 && LengthXBits(x) <= 5
    ensures x < D_CODES ==> DistBase(x) > 0 && DistXBits(x) <= 13 && DistBase(x) + Pow2(DistXBits(x)) <= 32769
  {
    SmallPowers();
    hide Pow2;
  }

  lemma LowBelow(s: seq<bool>, n: nat)
    requires n <= |s|
    ensures Low(s, n) < Pow2(n)
  {
    FromFits(s[..n]);
  }

  lemma SaneTable(st: State)
    requires st.mode.Table?
    ensures Sane(StepTable(st).mode)
  {
    SmallPowers();
    if |st.s| >= 14 { FromFits(st.s[10..14]); }
    hide FromBits, Pow2;
  }

  lemma SaneLenLens(st: State)
    requires st.mode.LenLens? && Sane(st.mode)
    ensures Sane(StepLenLens(st).mode)
  {
    SmallPowers();
    if |st.s| >= 3 { LowBelow(st.s, 3); }
    hide Low, Pow2, Acceptable, Order;
  }

  lemma SaneRun(st: State)
    requires st.mode.CodeLens? && Sane(st.mode) && |st.mode.lens| < st.mode.nlen + st.mode.ndist
    ensures Sane(StepRun(st).mode)
  {
    var m := st.mode;
    match B.Decode(m.bl, st.s) {
      case Symbol(x, rest) =>
        if |rest| >= RepeatBits(x) && !(x == 16 && m.lens == []) {
          R.ExpandSane(m.lens, RunFor(x, Low(rest, RepeatBits(x))), m.nlen + m.ndist, MAX_BITS);
        }
      case _ =>
    }
    hide B.Decode, Low, R.ExpandOne;
  }

  /** Every step keeps the bounds. */
  lemma SaneStep(c: Config, st: State)
    requires Sane(st.mode)
    ensures Sane(Step(c, st).mode)
  {
    hide B.Decode, Low, FromBits, StepRun, StepTable, StepLenLens, Acceptable, A.Adler, Pow2, StepLen, StepDist;
    match st.mode {
      case Table => SaneTable(st);
      case LenLens(_, _, _, _, _) => SaneLenLens(st);
      case CodeLens(_, _, _, _) => if |st.mode.lens| < st.mode.nlen + st.mode.ndist { SaneRun(st); }
      case Len(_) => SaneLen(st);
      case Dist(_, _) => SaneDist(st);
      case DistExt(_, _, _, extra) => if |st.s| >= extra { LowBelow(st.s, extra); }
      case _ =>
    }
  }

  lemma SaneLen(st: State)
    requires st.mode.Len?
    ensures Sane(StepLen(st).mode)
  {
    match B.Decode(st.mode.trees.ll, st.s) {
      case Symbol(x, rest) => if x > LITERALS { TablesSane(x - (LITERALS + 1)); }
      case _ =>
    }
    hide B.Decode, LengthBase, LengthXBits, Pow2;
  }

  lemma SaneDist(st: State)
    requires st.mode.Dist? && Sane(st.mode)
    ensures Sane(StepDist(st).mode)
  {
    match B.Decode(st.mode.trees.dl, st.s) {
      case Symbol(x, rest) => TablesSane(x);
      case _ =>
    }
    hide B.Decode, DistBase, DistXBits, Pow2;
  }

  /** How far a state is from one that takes input or gives output. */
  function Rank(m: Mode): nat {
    match m
    case Done => 0
    case Bad => 0
    case Far => 0
    case Check => 1
    case Type => 2
    case Copy(_) => 3
    case Len(_) => 3
    case CodeLens(_, _, _, _) => 4
    case Match(_, _, _) => 4
    case Dist(_, _) => 4
    case Lit(_, _) => 4
    case _ => 5
  }

  /** Less input, or more output, or nearer to either. */
  predicate Onward(a: State, b: State)
  {
    || |b.s| < |a.s|
    || (|b.s| == |a.s| && |b.out| > |a.out|)
    || (|b.s| == |a.s| && |b.out| == |a.out| && Rank(b.mode) < Rank(a.mode))
  }

  /** What a step that changes the state comes to. */
  predicate Gets(a: State, b: State) { a.mode != b.mode ==> Onward(a, b) && |b.s| <= |a.s| && |b.out| >= |a.out| }

  lemma BlockOnward(st: State)
    requires st.mode.Type? || st.mode.Stored? || st.mode.Copy? || st.mode.Table? || st.mode.LenLens?
    ensures st.mode.Type? ==> Gets(st, StepType(st))
    ensures st.mode.Stored? ==> Gets(st, StepStored(st))
    ensures st.mode.Copy? ==> Gets(st, StepCopy(st))
    ensures st.mode.Table? ==> Gets(st, StepTable(st))
    ensures st.mode.LenLens? ==> Gets(st, StepLenLens(st))
  {
    hide Low, FromBits, FixedTrees, TableMode, OneLength, Acceptable, Byte;
  }

  lemma RunOnward(st: State)
    requires st.mode.CodeLens?
    ensures Gets(st, StepCodeLens(st))
  {
    hide B.Decode, Low, RunFor, AfterRun, GoodTrees;
  }

  lemma SymbolOnward(st: State)
    requires st.mode.Len? || st.mode.Dist?
    ensures st.mode.Len? ==> Gets(st, StepLen(st))
    ensures st.mode.Dist? ==> Gets(st, StepDist(st))
  {
    hide B.Decode, LengthBase, LengthXBits, DistBase, DistXBits;
  }

  lemma MatchOnward(c: Config, st: State)
    requires st.mode.LenExt? || st.mode.DistExt? || st.mode.Match? || st.mode.Lit? || st.mode.Check?
    ensures st.mode.LenExt? ==> Gets(st, StepLenExt(st))
    ensures st.mode.DistExt? ==> Gets(st, StepDistExt(st))
    ensures st.mode.Match? ==> Gets(st, StepMatch(c, st))
    ensures st.mode.Lit? ==> Gets(st, StepLit(st))
    ensures st.mode.Check? ==> Gets(st, StepCheck(c, st))
  {
    hide Low, Trailer, A.Adler;
  }

  /** A step that changes the state gets somewhere. */
  lemma StepOnward(c: Config, st: State)
    requires Step(c, st).mode != st.mode
    ensures Onward(st, Step(c, st)) && |Step(c, st).s| <= |st.s| && |Step(c, st).out| >= |st.out|
  {
    hide StepType, StepStored, StepCopy, StepTable, StepLenLens, StepCodeLens, StepLen, StepLenExt, StepDist,
         StepDistExt, StepMatch;
    hide StepLit, StepCheck, Onward;
    match st.mode {
      case CodeLens(_, _, _, _) => RunOnward(st);
      case Len(_) => SymbolOnward(st);
      case Dist(_, _) => SymbolOnward(st);
      case LenExt(_, _, _) => MatchOnward(c, st);
      case DistExt(_, _, _, _) => MatchOnward(c, st);
      case Match(_, _, _) => MatchOnward(c, st);
      case Lit(_, _) => MatchOnward(c, st);
      case Check => MatchOnward(c, st);
      case Done =>
      case Bad =>
      case Far =>
      case _ => BlockOnward(st);
    }
  }

  // -- Runs -----------------------------------------------------------------------------------------------------

  ghost function Iterate(c: Config, st: State, n: nat): State
    decreases n
  {
    if n == 0 then st else Iterate(c, Step(c, st), n - 1)
  }

  ghost predicate Reaches(c: Config, a: State, b: State) { exists n: nat :: Iterate(c, a, n) == b }

  ghost predicate Stuck(c: Config, st: State) { Step(c, st) == st }

  lemma {:induction false} IterateAdd(c: Config, a: State, n: nat, m: nat)
    ensures Iterate(c, a, n + m) == Iterate(c, Iterate(c, a, n), m)
    decreases n
  {
    hide Step;
    if n > 0 { IterateAdd(c, Step(c, a), n - 1, m); }
  }

  lemma {:induction false} StuckStays(c: Config, a: State, n: nat)
    requires Stuck(c, a)
    ensures Iterate(c, a, n) == a
  {
    hide Step;
    if n > 0 { StuckStays(c, a, n - 1); }
  }

  lemma ReachesSelf(c: Config, a: State)
    ensures Reaches(c, a, a)
  {
    assert Iterate(c, a, 0) == a;
  }

  lemma ReachesStep(c: Config, a: State)
    ensures Reaches(c, a, Step(c, a))
  {
    hide Step;
    assert Iterate(c, a, 1) == Iterate(c, Step(c, a), 0) == Step(c, a);
  }

  lemma ReachesTrans(c: Config, a: State, b: State, d: State)
    requires Reaches(c, a, b) && Reaches(c, b, d)
    ensures Reaches(c, a, d)
  {
    hide Iterate;
    var n: nat :| Iterate(c, a, n) == b;
    var m: nat :| Iterate(c, b, m) == d;
    IterateAdd(c, a, n, m);
  }

  /** All runs from one state that get stuck get stuck in the same state. */
  lemma OneEnd(c: Config, a: State, b: State, d: State)
    requires Reaches(c, a, b) && Reaches(c, a, d) && Stuck(c, b) && Stuck(c, d)
    ensures b == d
  {
    hide Iterate, Step;
    var n: nat :| Iterate(c, a, n) == b;
    var m: nat :| Iterate(c, a, m) == d;
    if n <= m {
      IterateAdd(c, a, n, m - n);
      StuckStays(c, b, m - n);
    } else {
      IterateAdd(c, a, m, n - m);
      StuckStays(c, d, n - m);
    }
  }

  ghost predicate ReachesFar(c: Config, a: State) { exists n: nat :: Iterate(c, a, n).mode.Far? }

  /** One run, unless it comes to a distance beyond the window. */
  ghost predicate Tracks(c: Config, a: State, b: State) { Reaches(c, a, b) || ReachesFar(c, a) }

  lemma TracksTrans(c: Config, a: State, b: State, d: State)
    requires Tracks(c, a, b) && Tracks(c, b, d)
    ensures Tracks(c, a, d)
  {
    hide Iterate;
    if !ReachesFar(c, a) {
      var n: nat :| Iterate(c, a, n) == b;
      if m: nat :| Iterate(c, b, m).mode.Far? {
        IterateAdd(c, a, n, m);
      } else {
        ReachesTrans(c, a, b, d);
      }
    }
  }

  /** The state before the first block. */
  function First(total: seq<bool>): State { State(Type, false, total, []) }

  lemma {:induction false} SaneRuns(c: Config, a: State, n: nat)
    requires Sane(a.mode) && c.wsize >= 32768 && !a.mode.Far?
    ensures !Iterate(c, a, n).mode.Far?
    decreases n
  {
    hide Step, Sane;
    if n > 0 {
      SaneStep(c, a);
      NeverFar(c, a);
      SaneRuns(c, Step(c, a), n - 1);
    }
  }

  /** With a window of 32K no stream comes to a distance beyond it. */
  lemma FullWindow(c: Config, total: seq<bool>)
    requires c.wsize >= 32768
    ensures !ReachesFar(c, First(total))
  {
    hide Iterate;
    forall n: nat
      ensures !Iterate(c, First(total), n).mode.Far?
    {
      SaneRuns(c, First(total), n);
    }
  }

  /** However its input and the space for its output are split, a stream has one result. */
  lemma OneResult(c: Config, total: seq<bool>, a: State, b: State)
    requires Tracks(c, First(total), a) && Tracks(c, First(total), b) && Stuck(c, a) && Stuck(c, b)
    requires c.wsize >= 32768 || !ReachesFar(c, First(total))
    ensures a == b
  {
    hide Reaches, ReachesFar, Step;
    if c.wsize >= 32768 { FullWindow(c, total); }
    OneEnd(c, First(total), a, b);
  }

  lemma TracksStep(c: Config, a: State, b: State)
    requires Reaches(c, a, b)
    ensures Tracks(c, a, Step(c, b))
  {
    hide Step, Reaches;
    ReachesStep(c, b);
    ReachesTrans(c, a, b, Step(c, b));
  }

  /** A step that changes the state, or none. */
  lemma Stepped(c: Config, a: State, b: State, go: bool)
    requires if go then b == Step(c, a) && a.mode != b.mode else a == b
    ensures Tracks(c, a, b) && (go ==> Onward(a, b)) && |b.s| <= |a.s| && |b.out| >= |a.out|
  {
    hide Step, Reaches, ReachesFar, Onward;
    if go {
      ReachesStep(c, a);
      StepOnward(c, a);
    } else {
      ReachesSelf(c, a);
    }
  }

  /** Stored bytes, one step each. */
  lemma {:induction false} CopySteps(c: Config, st: State, bytes: seq<Octet>, rest: seq<bool>)
    requires st.mode.Copy? && |bytes| <= st.mode.length && st.s == B.Stream(bytes) + rest
    ensures Reaches(c, st, st.(mode := Copy(st.mode.length - |bytes|), s := rest, out := st.out + bytes))
    decreases |bytes|
  {
    hide Step, Reaches;
    if bytes == [] {
      assert B.Stream(bytes) + rest == rest;
      assert st.out + bytes == st.out;
      ReachesSelf(c, st);
    } else {
      IsCopy(c, st);
      FirstByte(bytes, rest);
      var next := Step(c, st);
      hide Byte, Bits;
      CopySteps(c, next, bytes[1..], rest);
      ReachesStep(c, st);
      assert next.out + bytes[1..] == st.out + bytes;
      ReachesTrans(c, st, next, st.(mode := Copy(st.mode.length - |bytes|), s := rest, out := st.out + bytes));
    }
  }

  lemma FirstByte(bytes: seq<Octet>, rest: seq<bool>)
    requires bytes != []
    ensures var s := B.Stream(bytes) + rest; |s| >= 8 && Byte(s) == bytes[0] && s[8..] == B.Stream(bytes[1..]) + rest
  {
    hide Bits, B.Stream, FromBits, Pow2, Byte;
    B.StreamNext(bytes, 0);
    assert bytes[0..] == bytes;
    var b, tail := Bits(bytes[0], 8), B.Stream(bytes[1..]);
    var s := (b + tail) + rest;
    assert s[..8] == b && s[8..] == tail + rest;
    ByteIs(s, bytes[0]);
  }

  lemma ByteIs(s: seq<bool>, v: Octet)
    requires |s| >= 8 && s[..8] == Bits(v, 8)
    ensures Byte(s) == v
  {
    hide Bits, FromBits, Pow2;
    B.Byte256();
    FromToBits(v, 8);
  }

  /** What is left of a match. */
  function MatchAt(t: Trees, length: nat, offset: nat): Mode {
    if length == 0 then Len(t) else Mode.Match(t, length, offset)
  }

  /** One more byte of a match. */
  lemma MatchMore(c: Config, a: State, b: State, t: Trees, length: nat, offset: nat)
    requires Tracks(c, a, b) && b.mode == Mode.Match(t, length, offset) && 0 < length && 0 < offset <= |b.out|
    ensures Tracks(c, a, b.(mode := MatchAt(t, length - 1, offset), out := b.out + [b.out[|b.out| - offset]]))
  {
    hide Reaches, ReachesFar, Step;
    IsMatch(c, b);
    if Reaches(c, a, b) {
      TracksStep(c, a, b);
      if offset > c.wsize { FarFound(c, a, Step(c, b)); }
    }
  }

  lemma FarFound(c: Config, a: State, b: State)
    requires Tracks(c, a, b) && b.mode.Far?
    ensures ReachesFar(c, a)
  {
    hide Iterate;
    if Reaches(c, a, b) {
      var n: nat :| Iterate(c, a, n) == b;
    }
  }

  /** A distance beyond the window, or before the start of the output. */
  lemma TooFar(c: Config, a: State)
    requires a.mode.Match? && a.mode.length > 0 && a.mode.offset > 0
             && (a.mode.offset > c.wsize || a.mode.offset > |a.out|)
    ensures Tracks(c, a, a.(mode := Bad))
  {
    hide Reaches, ReachesFar, Step;
    IsMatch(c, a);
    ReachesSelf(c, a);
    TracksStep(c, a, a);
    if a.mode.offset > c.wsize { FarFound(c, a, Step(c, a)); }
  }

  /** Output is only ever appended. */
  lemma StepAppends(c: Config, a: State)
    ensures a.out <= Step(c, a).out
  {
    hide B.Decode, Acceptable, FromBits, A.Adler, R.ExpandOne, Order;
  }

  lemma {:induction false} RunAppends(c: Config, a: State, n: nat)
    ensures a.out <= Iterate(c, a, n).out
    decreases n
  {
    hide Step;
    if n > 0 {
      StepAppends(c, a);
      RunAppends(c, Step(c, a), n - 1);
    }
  }
}
