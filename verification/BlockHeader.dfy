/** The header of a block with dynamic trees (section 3.2.7 of RFC 1951): what send_all_trees of trees.c sends, and how
    the states TABLE, LENLENS and CODELENS of inflate.c read it. */
module BlockHeader {
  import opened Wrappers
  import opened Kraft
  import opened CanonicalCode
  import opened GenCodes
  import opened BlockCode
  import R = RunLengths

  const BL_CODES: nat := 19

  /** The order in which the lengths of the code length code are sent. */
  function Order(i: nat): nat {
    match i
    case 0 => 16 case 1 => 17 case 2 => 18 case 3 => 0 case 4 => 8 case 5 => 7 case 6 => 9 case 7 => 6 case 8 =>
      10 case 9 => 5
    case 10 => 11 case 11 => 4 case 12 => 12 case 13 => 3 case 14 => 13 case 15 => 2 case 16 => 14 case 17 =>
      1 case _ => 15
  }

  ghost predicate Ordered(x: nat) { exists i :: 0 <= i < BL_CODES && Order(i) == x }

  lemma OrderPermutes()
    ensures forall i: nat :: Order(i) < BL_CODES
    ensures forall i, j | 0 <= i < j < BL_CODES :: Order(i) != Order(j)
    ensures forall x | 0 <= x < BL_CODES :: Ordered(x)
  {
    assert Order(3) == 0 && Order(17) == 1 && Order(15) == 2 && Order(13) == 3 && Order(11) == 4 && Order(9) == 5
           && Order(7) == 6;
    assert Order(5) == 7 && Order(4) == 8 && Order(6) == 9 && Order(8) == 10 && Order(10) == 11 && Order(12) == 12
           && Order(14) == 13;
    assert Order(16) == 14 && Order(18) == 15 && Order(0) == 16 && Order(1) == 17 && Order(2) == 18;
  }

  // -- Sending --------------------------------------------------------------------------------------------------

  function LengthAt(bl: seq<nat>, i: nat): nat { if Order(i) < |bl| then bl[Order(i)] else 0 }

  /** The lengths of the first n symbols in order. */
  function LenLensBits(bl: seq<nat>, n: nat): seq<bool> {
    if n == 0 then [] else LenLensBits(bl, n - 1) + Bits(LengthAt(bl, n - 1), 3)
  }

  function RunBits(r: R.Run, bl: seq<nat>): seq<bool> {
    Sent(bl, R.Symbol(r)) + Bits(if R.ExtraValue(r) > 0 then R.ExtraValue(r) else 0, R.ExtraBits(r))
  }

  /** send_tree. */
  function RunsBits(runs: seq<R.Run>, bl: seq<nat>): seq<bool> {
    if runs == [] then [] else RunsBits(runs[..|runs| - 1], bl) + RunBits(runs[|runs| - 1], bl)
  }

  function CountBits(lcodes: nat, dcodes: nat, blcodes: nat): seq<bool> {
    Bits(if lcodes > 257 then lcodes - 257 else 0, 5) + Bits(if dcodes > 1 then dcodes - 1 else 0, 5)
      + Bits(if blcodes > 4 then blcodes - 4 else 0, 4)
  }

  /** send_all_trees. */
  function HeaderBits(ll: seq<nat>, dl: seq<nat>, bl: seq<nat>, blcodes: nat): seq<bool> {
    CountBits(|ll|, |dl|, blcodes) + LenLensBits(bl, blcodes) + RunsBits(R.RunsOf(ll), bl) + RunsBits(R.RunsOf(dl), bl)
  }

  // -- Reading --------------------------------------------------------------------------------------------------

  /** The loop of LENLENS: the lengths of symbols i to n - 1 in order. */
  function ReadLenLens(bits: seq<bool>, i: nat, n: nat, lens: seq<nat>): Option<(seq<nat>, seq<bool>)>
    decreases n - i
  {
    if i >= n then Some((lens, bits))
    else
      match Take(bits, 3)
      case None => None
      case Some((v, rest)) => ReadLenLens(rest, i + 1, n, if Order(i) < |lens| then lens[Order(i) := v] else lens)
  }

  /** One symbol of CODELENS with its repeat count. */
  ghost function ReadRun(bl: seq<nat>, bits: seq<bool>): (r: Option<(R.Run, seq<bool>)>)
    ensures r.Some? ==> |r.value.1| < |bits|
  {
    match Symbol(bl, bits)
    case None => None
    case Some((x, rest)) =>
      if x < R.REP_3_6 then Some((R.Length(x), rest))
      else
        match Take(rest, if x == R.REP_3_6 then 2 else if x == R.REPZ_3_10 then 3 else 7)
        case None => None
        case Some((n, rest')) =>
          Some((if x == R.REP_3_6 then R.Again(3 + n) else if x == R.REPZ_3_10 then R.Zeros(3 + n)
                else R.ManyZeros(11 + n), rest'))
  }

  /** The loop of CODELENS. */
  ghost function ReadRuns(bl: seq<nat>, bits: seq<bool>, have: seq<nat>, limit: nat): Option<(seq<nat>, seq<bool>)>
    decreases |bits|
  {
    if |have| >= limit then Some((have, bits))
    else
      match ReadRun(bl, bits)
      case None => None
      case Some((r, rest)) =>
        match R.ExpandOne(have, r, limit)
        case None => None
        case Some(more) => ReadRuns(bl, rest, more, limit)
  }

  /** What inflate_table accepts: a complete code, no code at all, or, but for the code length code, an incomplete code
      of words of one bit. */
  ghost predicate Acceptable(lens: seq<nat>, codes: bool) {
    || (forall x | 0 <= x < |lens| :: lens[x] == 0)
    || (Subscribed(lens) && (Taken(lens, MAX_BITS + 1, MAX_BITS) == Pow2(MAX_BITS)
                             || (!codes && forall x | 0 <= x < |lens| :: lens[x] <= 1)))
  }

  datatype Trees = Trees(ll: seq<nat>, dl: seq<nat>)

  ghost function ReadTrees(bl: seq<nat>, nlen: nat, ndist: nat, bits: seq<bool>): Option<(Trees, seq<bool>)> {
    if !Acceptable(bl, true) then None
    else
      match ReadRuns(bl, bits, [], nlen + ndist)
      case None => None
      case Some((lens, rest)) =>
        if |lens| != nlen + ndist || nlen <= END_BLOCK || lens[END_BLOCK] == 0
           || !Acceptable(lens[..nlen], false) || !Acceptable(lens[nlen..], false)
        then None
        else Some((Trees(lens[..nlen], lens[nlen..]), rest))
  }

  /** TABLE to CODELENS. */
  ghost function ReadHeader(bits: seq<bool>): Option<(Trees, seq<bool>)> {
    match Take(bits, 5)
    case None => None
    case Some((a, rest)) =>
      match Take(rest, 5)
      case None => None
      case Some((b, rest')) =>
        match Take(rest', 4)
        case None => None
        case Some((c, rest'')) =>
          if a + 257 > 286 || b + 1 > 30 then None
          else
            match ReadLenLens(rest'', 0, c + 4, seq(BL_CODES, _ => 0))
            case None => None
            case Some((bl, after)) => ReadTrees(bl, a + 257, b + 1, after)
  }

  /** A whole block with dynamic trees. */
  ghost function ReadBlock(bits: seq<bool>): Option<(seq<Token>, seq<bool>)> {
    match ReadHeader(bits)
    case None => None
    case Some((trees, rest)) => ReadBody(trees.ll, trees.dl, rest)
  }

  // -- Reading what was sent ------------------------------------------------------------------------------------

  lemma LengthRun(r: R.Run, bl: seq<nat>, rest: seq<bool>)
    requires R.Sendable(r) && Uses(bl, R.Symbol(r)) && Subscribed(bl)
    ensures ReadRun(bl, RunBits(r, bl) + rest) == Some((r, rest))
  {
    hide Symbol, Subscribed, Sent, Bits, Take;
    var v, n := (if R.ExtraValue(r) > 0 then R.ExtraValue(r) else 0), R.ExtraBits(r);
    assert RunBits(r, bl) + rest == Sent(bl, R.Symbol(r)) + (Bits(v, n) + rest);
    SymbolSent(bl, R.Symbol(r), Bits(v, n) + rest);
    hide RunBits, Pow2;
    if r.Length? {
      NoBits(v, rest);
    } else {
      RunExtraFits(r);
      TakeSent(v, n, rest);
    }
  }

  lemma NoBits(v: nat, rest: seq<bool>)
    ensures Bits(v, 0) + rest == rest
  {
  }

  lemma RunExtraFits(r: R.Run)
    requires R.Sendable(r) && !r.Length?
    ensures 0 <= R.ExtraValue(r) < Pow2(R.ExtraBits(r))
  {
    assert Pow2(2) == 4 && Pow2(3) == 8 && Pow2(7) == 16 * Pow2(3);
  }

  lemma {:induction false} RunsConcat(a: seq<R.Run>, b: seq<R.Run>, bl: seq<nat>)
    ensures RunsBits(a + b, bl) == RunsBits(a, bl) + RunsBits(b, bl)
    decreases |b|
  {
    hide RunBits;
    if b == [] {
      assert a + b == a;
    } else {
      var n := |b| - 1;
      assert (a + b)[..|a + b| - 1] == a + b[..n];
      RunsConcat(a, b[..n], bl);
    }
  }

  lemma FirstRun(runs: seq<R.Run>, bl: seq<nat>, rest: seq<bool>)
    requires runs != []
    ensures RunsBits(runs, bl) + rest == RunBits(runs[0], bl) + (RunsBits(runs[1..], bl) + rest)
  {
    hide RunBits;
    RunsConcat([runs[0]], runs[1..], bl);
    assert [runs[0]] + runs[1..] == runs;
    assert [runs[0]][..0] == [] && RunsBits([runs[0]], bl) == RunBits(runs[0], bl);
    hide RunsBits;
  }

  lemma {:induction false} ExpandLonger(have: seq<nat>, runs: seq<R.Run>, limit: nat)
    requires R.Expand(have, runs, limit).Some? && forall r | r in runs :: R.Sendable(r)
    ensures |R.Expand(have, runs, limit).value| >= |have| + |runs|
    decreases |runs|
  {
    if runs != [] {
      assert R.Sendable(runs[0]);
      ExpandLonger(R.ExpandOne(have, runs[0], limit).value, runs[1..], limit);
    }
  }

  lemma {:induction false} RunsRead(have: seq<nat>, runs: seq<R.Run>, bl: seq<nat>, limit: nat, rest: seq<bool>)
    requires (forall r | r in runs :: R.Sendable(r) && Uses(bl, R.Symbol(r))) && Subscribed(bl)
    requires R.Expand(have, runs, limit).Some? && |R.Expand(have, runs, limit).value| == limit
    ensures ReadRuns(bl, RunsBits(runs, bl) + rest, have, limit) == Some((R.Expand(have, runs, limit).value, rest))
    decreases |runs|
  {
    hide RunBits, ReadRun, Subscribed, RunsBits;
    ExpandLonger(have, runs, limit);
    if runs == [] {
      NoRuns(bl, rest);
    } else {
      assert runs[0] in runs;
      hide R.Sendable, R.Symbol, R.ExpandOne;
      LengthRun(runs[0], bl, RunsBits(runs[1..], bl) + rest);
      FirstRun(runs, bl, rest);
      RunsRead(R.ExpandOne(have, runs[0], limit).value, runs[1..], bl, limit, rest);
    }
  }

  lemma NoRuns(bl: seq<nat>, rest: seq<bool>)
    ensures RunsBits([], bl) + rest == rest
  {
    hide RunBits;
  }

  // -- The lengths of the code length code

  /** The lengths of symbols i to n - 1 in order. */
  function LenLensFrom(bl: seq<nat>, i: nat, n: nat): seq<bool>
    decreases n - i
  {
    if i >= n then [] else Bits(LengthAt(bl, i), 3) + LenLensFrom(bl, i + 1, n)
  }

  lemma {:induction false} LenLensSplit(bl: seq<nat>, i: nat, n: nat)
    requires i <= n
    ensures LenLensBits(bl, n) == LenLensBits(bl, i) + LenLensFrom(bl, i, n)
    decreases n - i
  {
    hide LengthAt, Bits;
    if i < n {
      LenLensSplit(bl, i + 1, n);
      assert LenLensBits(bl, i + 1) == LenLensBits(bl, i) + Bits(LengthAt(bl, i), 3);
    }
  }

  /** The lengths read so far are those of the first i symbols in order. */
  ghost predicate ReadSoFar(bl: seq<nat>, lens: seq<nat>, i: nat) {
    && |bl| == |lens| == BL_CODES
    && (forall j | 0 <= j < i && j < BL_CODES :: Order(j) < BL_CODES && lens[Order(j)] == bl[Order(j)])
    && (forall j | i <= j < BL_CODES :: Order(j) < BL_CODES && lens[Order(j)] == 0)
  }

  lemma ReadOneMore(bl: seq<nat>, lens: seq<nat>, i: nat)
    requires ReadSoFar(bl, lens, i) && i < BL_CODES
    ensures Order(i) < BL_CODES && ReadSoFar(bl, lens[Order(i) := LengthAt(bl, i)], i + 1)
  {
    OrderPermutes();
    hide Order;
  }

  lemma {:induction false} LenLensRead(bl: seq<nat>, lens: seq<nat>, i: nat, n: nat, rest: seq<bool>)
      returns (after: seq<nat>)
    requires ReadSoFar(bl, lens, i) && i <= n <= BL_CODES && forall x | 0 <= x < |bl| :: bl[x] < 8
    ensures ReadSoFar(bl, after, n) && ReadLenLens(LenLensFrom(bl, i, n) + rest, i, n, lens) == Some((after, rest))
    decreases n - i
  {
    hide Bits, Take, Order, ReadSoFar;
    if i == n {
      after := lens;
      assert LenLensFrom(bl, i, n) + rest == rest;
    } else {
      var more := LenLensFrom(bl, i + 1, n) + rest;
      assert LenLensFrom(bl, i, n) + rest == Bits(LengthAt(bl, i), 3) + more;
      EightFits();
      TakeSent(LengthAt(bl, i), 3, more);
      ReadOneMore(bl, lens, i);
      SoFarSize(bl, lens, i);
      after := LenLensRead(bl, lens[Order(i) := LengthAt(bl, i)], i + 1, n, rest);
    }
  }

  lemma SoFarSize(bl: seq<nat>, lens: seq<nat>, i: nat)
    requires ReadSoFar(bl, lens, i)
    ensures |lens| == BL_CODES
  {
  }

  lemma EightFits()
    ensures Pow2(3) == 8 && Pow2(4) == 16 && Pow2(5) == 32
  {
    assert Pow2(4) == 2 * Pow2(3) && Pow2(5) == 2 * Pow2(4);
  }

  /** The symbols not sent have length 0. */
  lemma AllRead(bl: seq<nat>, lens: seq<nat>, n: nat)
    requires ReadSoFar(bl, lens, n) && n <= BL_CODES && forall i | n <= i < BL_CODES :: LengthAt(bl, i) == 0
    ensures lens == bl
  {
    OrderPermutes();
    forall x | 0 <= x < BL_CODES ensures lens[x] == bl[x] {
      assert Ordered(x);
      var i :| 0 <= i < BL_CODES && Order(i) == x;
      assert LengthAt(bl, i) == bl[x];
    }
  }

  // -- The whole header

  /** Trees as build_tree leaves them: full codes, the end-of-block code among them, and a code for every symbol of
      their run-length coding. */
  ghost predicate Transmittable(ll: seq<nat>, dl: seq<nat>, bl: seq<nat>, blcodes: nat) {
    && 257 <= |ll| <= 286 && 1 <= |dl| <= 30 && Uses(ll, END_BLOCK)
    && FullLens(ll) && FullLens(dl) && FullLens(bl)
    && |bl| == BL_CODES && 4 <= blcodes <= BL_CODES && (forall x | 0 <= x < |bl| :: bl[x] < 8)
    && (forall i | blcodes <= i < BL_CODES :: LengthAt(bl, i) == 0)
    && (forall r | r in R.RunsOf(ll) + R.RunsOf(dl) :: Uses(bl, R.Symbol(r)))
  }

  ghost predicate FullLens(lens: seq<nat>) { Subscribed(lens) && Taken(lens, MAX_BITS + 1, MAX_BITS) == Pow2(MAX_BITS) }

  lemma CountsRead(lcodes: nat, dcodes: nat, blcodes: nat, rest: seq<bool>)
    requires 257 <= lcodes <= 286 && 1 <= dcodes <= 30 && 4 <= blcodes <= BL_CODES
    ensures var bits := CountBits(lcodes, dcodes, blcodes) + rest;
      var r2 := Bits(dcodes - 1, 5) + (Bits(blcodes - 4, 4) + rest); var r3 := Bits(blcodes - 4, 4) + rest;
      Take(bits, 5) == Some((lcodes - 257, r2)) && Take(r2, 5) == Some((dcodes - 1, r3))
        && Take(r3, 4) == Some((blcodes - 4, rest))
  {
    hide Bits, Take;
    EightFits();
    var r3 := Bits(blcodes - 4, 4) + rest;
    var r2 := Bits(dcodes - 1, 5) + r3;
    assert CountBits(lcodes, dcodes, blcodes) + rest == Bits(lcodes - 257, 5) + r2;
    TakeSent(lcodes - 257, 5, r2);
    TakeSent(dcodes - 1, 5, r3);
    TakeSent(blcodes - 4, 4, rest);
  }

  lemma TreeFacts(ll: seq<nat>, dl: seq<nat>, bl: seq<nat>, blcodes: nat)
    requires Transmittable(ll, dl, bl, blcodes)
    ensures (forall x | 0 <= x < |ll| :: ll[x] <= 15) && (forall x | 0 <= x < |dl| :: dl[x] <= 15)
    ensures Acceptable(bl, true) && Acceptable(ll, false) && Acceptable(dl, false) && Subscribed(bl)
    ensures 257 <= |ll| <= 286 && 1 <= |dl| <= 30 && ll[END_BLOCK] != 0
    ensures forall r | r in R.RunsOf(ll) + R.RunsOf(dl) :: Uses(bl, R.Symbol(r))
  {
    hide Taken, R.RunsOf, R.Symbol, LengthAt;
  }

  lemma TreesExpand(ll: seq<nat>, dl: seq<nat>)
    requires (forall x | 0 <= x < |ll| :: ll[x] <= 15) && (forall x | 0 <= x < |dl| :: dl[x] <= 15)
    ensures R.Expand([], R.RunsOf(ll) + R.RunsOf(dl), |ll| + |dl|) == Some(ll + dl)
    ensures forall r | r in R.RunsOf(ll) + R.RunsOf(dl) :: R.Sendable(r)
  {
    hide R.RunsOf, R.Expand, R.Sendable;
    R.RunsRoundTrip([], ll, |ll| + |dl|);
    R.RunsRoundTrip(ll, dl, |ll| + |dl|);
    R.ExpandConcat([], R.RunsOf(ll), R.RunsOf(dl), |ll| + |dl|);
    assert [] + ll == ll;
  }

  lemma TreesRead(ll: seq<nat>, dl: seq<nat>, bl: seq<nat>, blcodes: nat, rest: seq<bool>)
    requires Transmittable(ll, dl, bl, blcodes)
    ensures ReadTrees(bl, |ll|, |dl|, RunsBits(R.RunsOf(ll) + R.RunsOf(dl), bl) + rest) == Some((Trees(ll, dl), rest))
  {
    hide Acceptable, Subscribed, ReadRuns, R.RunsOf, RunsBits, R.Expand, Transmittable, R.Sendable, R.Symbol, Uses;
    TreeFacts(ll, dl, bl, blcodes);
    TreesExpand(ll, dl);
    RunsRead([], R.RunsOf(ll) + R.RunsOf(dl), bl, |ll| + |dl|, rest);
    assert (ll + dl)[..|ll|] == ll && (ll + dl)[|ll|..] == dl;
  }

  lemma LensFacts(ll: seq<nat>, dl: seq<nat>, bl: seq<nat>, blcodes: nat)
    requires Transmittable(ll, dl, bl, blcodes)
    ensures 257 <= |ll| <= 286 && 1 <= |dl| <= 30 && |bl| == BL_CODES && 4 <= blcodes <= BL_CODES
    ensures (forall x | 0 <= x < |bl| :: bl[x] < 8) && forall i | blcodes <= i < BL_CODES :: LengthAt(bl, i) == 0
  {
    hide FullLens, R.RunsOf, R.Symbol, LengthAt;
  }

  lemma AllLensRead(bl: seq<nat>, n: nat, rest: seq<bool>)
    requires |bl| == BL_CODES && n <= BL_CODES && (forall x | 0 <= x < |bl| :: bl[x] < 8)
             && forall i | n <= i < BL_CODES :: LengthAt(bl, i) == 0
    ensures ReadLenLens(LenLensBits(bl, n) + rest, 0, n, seq(BL_CODES, _ => 0)) == Some((bl, rest))
  {
    hide LengthAt, Order, ReadLenLens;
    var zeros := seq(BL_CODES, _ => 0);
    NoLengths(bl, zeros);
    LenLensSplit(bl, 0, n);
    assert LenLensBits(bl, n) == LenLensFrom(bl, 0, n);
    hide LenLensBits, LenLensFrom, ReadSoFar;
    var after := LenLensRead(bl, zeros, 0, n, rest);
    AllRead(bl, after, n);
  }

  /** Reading the header gives back the trees. */
  lemma HeaderRoundTrip(ll: seq<nat>, dl: seq<nat>, bl: seq<nat>, blcodes: nat, rest: seq<bool>)
    requires Transmittable(ll, dl, bl, blcodes)
    ensures ReadHeader(HeaderBits(ll, dl, bl, blcodes) + rest) == Some((Trees(ll, dl), rest))
  {
    hide FullLens, LengthAt, Order, Take, ReadTrees, ReadLenLens, HeaderBits, CountBits, R.RunsOf, RunsBits,
         LenLensBits, Bits, Transmittable;
    var runs := RunsBits(R.RunsOf(ll) + R.RunsOf(dl), bl) + rest;
    HeaderIs(ll, dl, bl, blcodes, rest);
    TreesRead(ll, dl, bl, blcodes, rest);
    LensFacts(ll, dl, bl, blcodes);
    AllLensRead(bl, blcodes, runs);
    CountsRead(|ll|, |dl|, blcodes, LenLensBits(bl, blcodes) + runs);
  }

  lemma NoLengths(bl: seq<nat>, zeros: seq<nat>)
    requires |bl| == |zeros| == BL_CODES && forall x | 0 <= x < BL_CODES :: zeros[x] == 0
    ensures ReadSoFar(bl, zeros, 0)
  {
    OrderPermutes();
    hide Order;
  }

  lemma HeaderIs(ll: seq<nat>, dl: seq<nat>, bl: seq<nat>, blcodes: nat, rest: seq<bool>)
    ensures HeaderBits(ll, dl, bl, blcodes) + rest
      == CountBits(|ll|, |dl|, blcodes)
         + (LenLensBits(bl, blcodes) + (RunsBits(R.RunsOf(ll) + R.RunsOf(dl), bl) + rest))
  {
    hide CountBits, LenLensBits, RunsBits, R.RunsOf;
    RunsConcat(R.RunsOf(ll), R.RunsOf(dl), bl);
  }

  /** Reading a block that was sent gives the tokens and stops right after the end-of-block code. */
  lemma BlockRoundTrip(tokens: seq<Token>, ll: seq<nat>, dl: seq<nat>, bl: seq<nat>, blcodes: nat, rest: seq<bool>)
    requires Transmittable(ll, dl, bl, blcodes) && forall i | 0 <= i < |tokens| :: Known(tokens[i], ll, dl)
    ensures ReadBlock(HeaderBits(ll, dl, bl, blcodes) + BodyBits(tokens, ll, dl) + rest) == Some((tokens, rest))
  {
    var body := BodyBits(tokens, ll, dl) + rest;
    assert Uses(ll, END_BLOCK) && Subscribed(ll) && Subscribed(dl);
    hide Transmittable, HeaderBits, BodyBits, ReadHeader, ReadBody, Subscribed, Known;
    assert HeaderBits(ll, dl, bl, blcodes) + BodyBits(tokens, ll, dl) + rest == HeaderBits(ll, dl, bl, blcodes) + body;
    HeaderRoundTrip(ll, dl, bl, blcodes, body);
    BodyRoundTrip(tokens, ll, dl, rest);
  }
}
