/** What inflate's states make of a block is what its tokens stand for: the steps of InflateStep against the reading of
    a block in BlockCode and BlockHeader. */
module InflateRead {
  import opened Wrappers
  import opened Kraft
  import opened CanonicalCode
  import opened BlockTables
  import opened BlockCode
  import opened BlockHeader
  import opened TableCode
  import opened InflateStep
  import B = BitReader
  import R = RunLengths
  import A = Adler32
  import F = FixedCodes

  // -- What tokens stand for ------------------------------------------------------------------------------------

  /** `length` bytes copied one at a time from a distance. */
  function Copied(out: seq<Octet>, length: nat, dist: nat): seq<Octet>
    decreases length
  {
    if length == 0 || dist == 0 || dist > |out| then out else Copied(out + [out[|out| - dist]], length - 1, dist)
  }

  function Expand(out: seq<Octet>, tokens: seq<Token>): seq<Octet>
    decreases |tokens|
  {
    if tokens == [] then out else Expand(ExpandOne(out, tokens[0]), tokens[1..])
  }

  function ExpandOne(out: seq<Octet>, t: Token): seq<Octet> {
    match t
    case Literal(b) => if b < 256 then out + [b] else out
    case Match(length, dist) => Copied(out, length, dist)
  }

  /** The distance lies within the output and the window. */
  predicate FitsOne(wsize: nat, out: seq<Octet>, t: Token) {
    t.Match? ==> t.length > 0 && 0 < t.dist <= |out| && t.dist <= wsize
  }

  predicate Fitting(wsize: nat, out: seq<Octet>, tokens: seq<Token>)
    decreases |tokens|
  {
    tokens == [] || (FitsOne(wsize, out, tokens[0]) && Fitting(wsize, ExpandOne(out, tokens[0]), tokens[1..]))
  }

  lemma {:induction false} CopiedSize(out: seq<Octet>, length: nat, dist: nat)
    ensures out <= Copied(out, length, dist)
    ensures 0 < dist <= |out| ==> |Copied(out, length, dist)| == |out| + length
    decreases length
  {
    if length > 0 && 0 < dist <= |out| { CopiedSize(out + [out[|out| - dist]], length - 1, dist); }
  }

  // -- The body of a block --------------------------------------------------------------------------------------

  lemma SymbolDecodes(lens: seq<nat>, s: seq<bool>)
    requires Symbol(lens, s).Some?
    ensures B.Decode(lens, s) == B.Symbol(Symbol(lens, s).value.0, Symbol(lens, s).value.1)
  {
  }

  lemma {:induction false} MatchRuns(c: Config, t: Trees, last: bool, s: seq<bool>, out: seq<Octet>, length: nat,
                                     dist: nat)
    requires length > 0 && 0 < dist <= |out| && dist <= c.wsize
    ensures Reaches(c, State(Mode.Match(t, length, dist), last, s, out),
                    State(Len(t), last, s, Copied(out, length, dist)))
    decreases length
  {
    hide Step, Reaches;
    var a := State(Mode.Match(t, length, dist), last, s, out);
    IsMatch(c, a);
    ReachesStep(c, a);
    var more := out + [out[|out| - dist]];
    if length > 1 {
      MatchRuns(c, t, last, s, more, length - 1, dist);
      ReachesTrans(c, a, Step(c, a), State(Len(t), last, s, Copied(out, length, dist)));
    } else {
      assert Copied(out, 1, dist) == Copied(more, 0, dist) == more;
    }
  }

  lemma LenSymbol(c: Config, st: State)
    requires st.mode.Len? && Symbol(st.mode.trees.ll, st.s).Some?
    ensures var (x, rest) := Symbol(st.mode.trees.ll, st.s).value;
            Reaches(c, st, st.(mode := AfterSymbol(st.mode.trees, x), s := rest))
  {
    SymbolDecodes(st.mode.trees.ll, st.s);
    IsLen(c, st);
    hide Step, Reaches, B.Decode, AfterSymbol;
    ReachesStep(c, st);
  }

  lemma LiteralRuns(c: Config, t: Trees, last: bool, s: seq<bool>, out: seq<Octet>, b: nat)
    requires b < 256
    ensures Reaches(c, State(Lit(t, b), last, s, out), State(Len(t), last, s, out + [b]))
  {
    var st := State(Lit(t, b), last, s, out);
    IsLit(c, st);
    hide Step, Reaches;
    ReachesStep(c, st);
  }

  /** LENEXT and DIST. */
  lemma LengthRuns(c: Config, t: Trees, last: bool, s: seq<bool>, out: seq<Octet>, base: nat, bits: nat)
    requires bits <= |s| && Symbol(t.dl, s[bits..]).Some? && Symbol(t.dl, s[bits..]).value.0 < D_CODES
    ensures var (d, rest) := Symbol(t.dl, s[bits..]).value;
            Reaches(c, State(LenExt(t, base, bits), last, s, out),
                    State(DistExt(t, base + FromBits(s[..bits]), DistBase(d), DistXBits(d)), last, rest, out))
  {
    var a := State(LenExt(t, base, bits), last, s, out);
    IsLenExt(c, a);
    var b := Step(c, a);
    SymbolDecodes(t.dl, s[bits..]);
    IsDist(c, b);
    hide Step, Reaches, B.Decode, DistBase, DistXBits, FromBits;
    ReachesStep(c, a);
    ReachesStep(c, b);
    ReachesTrans(c, a, b, Step(c, b));
  }

  lemma DistanceRuns(c: Config, t: Trees, last: bool, s: seq<bool>, out: seq<Octet>, length: nat, base: nat, bits: nat)
    requires bits <= |s| && length > 0 && 0 < base + FromBits(s[..bits]) <= |out|
             && base + FromBits(s[..bits]) <= c.wsize
    ensures Reaches(c, State(DistExt(t, length, base, bits), last, s, out),
                    State(Len(t), last, s[bits..], Copied(out, length, base + FromBits(s[..bits]))))
  {
    var a := State(DistExt(t, length, base, bits), last, s, out);
    IsDistExt(c, a);
    hide Step, Reaches, FromBits, Copied;
    ReachesStep(c, a);
    MatchRuns(c, t, last, s[bits..], out, length, base + FromBits(s[..bits]));
    ReachesTrans(c, a, Step(c, a), State(Len(t), last, s[bits..], Copied(out, length, base + FromBits(s[..bits]))));
  }

  lemma MatchParts(x: nat, dl: seq<nat>, s: seq<bool>)
    requires x > LITERALS && ReadMatch(x, dl, s).Some?
    ensures var k := x - (LITERALS + 1); k < L_CODES && LengthXBits(k) <= |s| && Symbol(dl, s[LengthXBits(k)..]).Some?
    ensures var k := x - (LITERALS + 1); var (d, rest) := Symbol(dl, s[LengthXBits(k)..]).value;
            d < D_CODES && DistXBits(d) <= |rest|
            && ReadMatch(x, dl, s)
               == Some((Token.Match(LengthBase(k) + FromBits(s[..LengthXBits(k)]),
                                    DistBase(d) + FromBits(rest[..DistXBits(d)])), rest[DistXBits(d)..]))
  {
    hide FromBits, LengthBase, DistBase, LengthXBits, DistXBits;
  }

  lemma MatchTokenRuns(c: Config, t: Trees, last: bool, s: seq<bool>, out: seq<Octet>, x: nat)
    requires x > LITERALS && ReadMatch(x, t.dl, s).Some? && FitsOne(c.wsize, out, ReadMatch(x, t.dl, s).value.0)
    ensures var (m, rest) := ReadMatch(x, t.dl, s).value;
            Reaches(c, State(AfterSymbol(t, x), last, s, out), State(Len(t), last, rest, ExpandOne(out, m)))
  {
    hide Reaches, FromBits, LengthBase, DistBase, LengthXBits, DistXBits, Copied, ReadMatch;
    MatchParts(x, t.dl, s);
    var k := x - (LITERALS + 1);
    var (d, rest) := Symbol(t.dl, s[LengthXBits(k)..]).value;
    LengthRuns(c, t, last, s, out, LengthBase(k), LengthXBits(k));
    DistanceRuns(c, t, last, rest, out, LengthBase(k) + FromBits(s[..LengthXBits(k)]), DistBase(d), DistXBits(d));
    var m := DistBase(d) + FromBits(rest[..DistXBits(d)]);
    ReachesTrans(c, State(AfterSymbol(t, x), last, s, out),
                 State(DistExt(t, LengthBase(k) + FromBits(s[..LengthXBits(k)]), DistBase(d), DistXBits(d)), last, rest,
                       out),
                 State(Len(t), last, rest[DistXBits(d)..],
                       Copied(out, LengthBase(k) + FromBits(s[..LengthXBits(k)]), m)));
  }

  /** One literal or match, from its first symbol. */
  lemma TokenRuns(c: Config, t: Trees, last: bool, s: seq<bool>, out: seq<Octet>, x: nat)
    requires x != END_BLOCK && ReadToken(x, t.dl, s).Some? && FitsOne(c.wsize, out, ReadToken(x, t.dl, s).value.0)
    ensures var (m, rest) := ReadToken(x, t.dl, s).value;
            Reaches(c, State(AfterSymbol(t, x), last, s, out), State(Len(t), last, rest, ExpandOne(out, m)))
  {
    hide Reaches, ReadMatch, Copied, LengthBase, LengthXBits;
    if x < LITERALS { LiteralRuns(c, t, last, s, out, x); } else { MatchTokenRuns(c, t, last, s, out, x); }
  }

  lemma BodyStep(ll: seq<nat>, dl: seq<nat>, s: seq<bool>)
    requires ReadBody(ll, dl, s).Some?
    ensures Symbol(ll, s).Some?
    ensures var (x, rest) := Symbol(ll, s).value;
            if x == END_BLOCK then ReadBody(ll, dl, s) == Some(([], rest))
            else ReadToken(x, dl, rest).Some? && var (t, rest') := ReadToken(x, dl, rest).value;
                 |rest'| < |s| && ReadBody(ll, dl, rest').Some?
                 && ReadBody(ll, dl, s) == Some(([t] + ReadBody(ll, dl, rest').value.0,
                                                 ReadBody(ll, dl, rest').value.1))
  {
    hide ReadToken, Symbol;
  }

  /** The states LEN to LIT, up to the end of the block. */
  lemma {:induction false} BodyRuns(c: Config, t: Trees, last: bool, s: seq<bool>, out: seq<Octet>)
    requires ReadBody(t.ll, t.dl, s).Some? && Fitting(c.wsize, out, ReadBody(t.ll, t.dl, s).value.0)
    ensures var (tokens, rest) := ReadBody(t.ll, t.dl, s).value;
            Reaches(c, State(Len(t), last, s, out), State(Type, last, rest, Expand(out, tokens)))
    decreases |s|
  {
    hide Reaches, ReadBody, ReadToken, Symbol, ExpandOne, FitsOne;
    var (tokens, end) := ReadBody(t.ll, t.dl, s).value;
    var a := State(Len(t), last, s, out);
    BodyStep(t.ll, t.dl, s);
    var (x, rest) := Symbol(t.ll, s).value;
    LenSymbol(c, a);
    if x != END_BLOCK {
      var (m, rest') := ReadToken(x, t.dl, rest).value;
      assert tokens[0] == m && tokens[1..] == ReadBody(t.ll, t.dl, rest').value.0;
      TokenRuns(c, t, last, rest, out, x);
      var b := State(AfterSymbol(t, x), last, rest, out);
      var d := State(Len(t), last, rest', ExpandOne(out, m));
      BodyRuns(c, t, last, rest', ExpandOne(out, m));
      ReachesTrans(c, a, b, d);
      ReachesTrans(c, a, d, State(Type, last, end, Expand(out, tokens)));
    }
  }

  // -- The header of a block with dynamic trees -----------------------------------------------------------------

  lemma LenLensStep(s: seq<bool>, i: nat, n: nat, lens: seq<nat>)
    requires i < n && ReadLenLens(s, i, n, lens).Some?
    ensures |s| >= 3
    ensures ReadLenLens(s, i, n, lens)
         == ReadLenLens(s[3..], i + 1, n, if Order(i) < |lens| then lens[Order(i) := FromBits(s[..3])] else lens)
  {
    hide FromBits, Order;
  }

  lemma {:induction false} LenLensRuns(c: Config, last: bool, out: seq<Octet>, nlen: nat, ndist: nat, n: nat,
                                       s: seq<bool>, i: nat, lens: seq<nat>)
    requires i <= n && ReadLenLens(s, i, n, lens).Some?
    ensures var (after, rest) := ReadLenLens(s, i, n, lens).value;
            Reaches(c, State(LenLens(nlen, ndist, n, i, lens), last, s, out),
                    State(LenLens(nlen, ndist, n, n, after), last, rest, out))
    decreases n - i
  {
    hide Reaches, FromBits, Order, Step;
    var a := State(LenLens(nlen, ndist, n, i, lens), last, s, out);
    if i == n {
      ReachesSelf(c, a);
    } else {
      LenLensStep(s, i, n, lens);
      IsLenLens(c, a);
      hide ReadLenLens;
      ReachesStep(c, a);
      var more := if Order(i) < |lens| then lens[Order(i) := FromBits(s[..3])] else lens;
      LenLensRuns(c, last, out, nlen, ndist, n, s[3..], i + 1, more);
      var (after, rest) := ReadLenLens(s, i, n, lens).value;
      ReachesTrans(c, a, State(LenLens(nlen, ndist, n, i + 1, more), last, s[3..], out),
                   State(LenLens(nlen, ndist, n, n, after), last, rest, out));
    }
  }

  lemma RunParts(bl: seq<nat>, s: seq<bool>)
    requires ReadRun(bl, s).Some?
    ensures Symbol(bl, s).Some?
    ensures var (x, rest) := Symbol(bl, s).value;
            RepeatBits(x) <= |rest| && ReadRun(bl, s)
              == Some((RunFor(x, FromBits(rest[..RepeatBits(x)])), rest[RepeatBits(x)..]))
  {
    hide FromBits, Symbol;
    var (x, rest) := Symbol(bl, s).value;
    assert x < 16 ==> rest[0..] == rest;
  }

  lemma RunsStep(bl: seq<nat>, s: seq<bool>, have: seq<nat>, limit: nat)
    requires |have| < limit && ReadRuns(bl, s, have, limit).Some?
    ensures ReadRun(bl, s).Some? && |ReadRun(bl, s).value.1| < |s|
    ensures var (r, rest) := ReadRun(bl, s).value;
            R.ExpandOne(have, r, limit).Some?
              && ReadRuns(bl, s, have, limit) == ReadRuns(bl, rest, R.ExpandOne(have, r, limit).value, limit)
  {
    hide ReadRun, R.ExpandOne;
  }

  /** One code length or repeat. */
  lemma OneRun(c: Config, last: bool, out: seq<Octet>, nlen: nat, ndist: nat, bl: seq<nat>, s: seq<bool>,
               have: seq<nat>)
    requires |have| < nlen + ndist && ReadRun(bl, s).Some?
             && R.ExpandOne(have, ReadRun(bl, s).value.0, nlen + ndist).Some?
    ensures var (r, rest) := ReadRun(bl, s).value;
            Reaches(c, State(CodeLens(nlen, ndist, bl, have), last, s, out),
                    State(CodeLens(nlen, ndist, bl, R.ExpandOne(have, r, nlen + ndist).value), last, rest, out))
  {
    hide Reaches, Step, Symbol, ReadRun, FromBits;
    var a := State(CodeLens(nlen, ndist, bl, have), last, s, out);
    RunParts(bl, s);
    SymbolDecodes(bl, s);
    IsCodeLens(c, a);
    hide B.Decode;
    var (x, rest) := Symbol(bl, s).value;
    assert !(x == 16 && have == []) by { NoRepeatFirst(x, FromBits(rest[..RepeatBits(x)]), have, nlen + ndist); }
    hide R.ExpandOne, RunFor, RepeatBits;
    ReachesStep(c, a);
  }

  lemma NoRepeatFirst(x: nat, v: nat, have: seq<nat>, limit: nat)
    requires R.ExpandOne(have, RunFor(x, v), limit).Some?
    ensures !(x == 16 && have == [])
  {
  }

  lemma {:induction false} RunsRuns(c: Config, last: bool, out: seq<Octet>, nlen: nat, ndist: nat, bl: seq<nat>,
                                    s: seq<bool>, have: seq<nat>)
    requires ReadRuns(bl, s, have, nlen + ndist).Some? && |have| <= nlen + ndist
    ensures var (lens, rest) := ReadRuns(bl, s, have, nlen + ndist).value;
            Reaches(c, State(CodeLens(nlen, ndist, bl, have), last, s, out),
                    State(CodeLens(nlen, ndist, bl, lens), last, rest, out))
    decreases |s|
  {
    hide Reaches, Step, ReadRun, R.ExpandOne;
    var a := State(CodeLens(nlen, ndist, bl, have), last, s, out);
    if |have| == nlen + ndist {
      ReachesSelf(c, a);
    } else {
      RunsStep(bl, s, have, nlen + ndist);
      hide ReadRuns;
      var (r, rest) := ReadRun(bl, s).value;
      var more := R.ExpandOne(have, r, nlen + ndist).value;
      OneRun(c, last, out, nlen, ndist, bl, s, have);
      RunLimit(have, r, nlen + ndist);
      RunsRuns(c, last, out, nlen, ndist, bl, rest, more);
      var (lens, end) := ReadRuns(bl, s, have, nlen + ndist).value;
      ReachesTrans(c, a, State(CodeLens(nlen, ndist, bl, more), last, rest, out),
                   State(CodeLens(nlen, ndist, bl, lens), last, end, out));
    }
  }

  lemma RunLimit(have: seq<nat>, r: R.Run, limit: nat)
    requires R.ExpandOne(have, r, limit).Some?
    ensures |R.ExpandOne(have, r, limit).value| <= limit
  {
  }

  lemma TreesParts(bl: seq<nat>, nlen: nat, ndist: nat, s: seq<bool>)
    requires ReadTrees(bl, nlen, ndist, s).Some?
    ensures Acceptable(bl, true) && ReadRuns(bl, s, [], nlen + ndist).Some?
    ensures var (lens, rest) := ReadRuns(bl, s, [], nlen + ndist).value;
            var (t, rest') := ReadTrees(bl, nlen, ndist, s).value;
            |lens| == nlen + ndist && rest == rest' && t == Trees(lens[..nlen], lens[nlen..])
            && TreesMode(lens, nlen) == Len(t)
  {
    hide Acceptable, ReadRuns;
  }

  /** LENLENS and CODELENS, once the lengths of the code length code are there. */
  lemma TreesRun(c: Config, last: bool, out: seq<Octet>, nlen: nat, ndist: nat, n: nat, bl: seq<nat>, s: seq<bool>)
    requires ReadTrees(bl, nlen, ndist, s).Some?
    ensures var (t, rest) := ReadTrees(bl, nlen, ndist, s).value;
            Reaches(c, State(LenLens(nlen, ndist, n, n, bl), last, s, out), State(Len(t), last, rest, out))
  {
    hide Reaches, Step, ReadTrees, ReadRuns, Acceptable, TreesMode;
    TreesParts(bl, nlen, ndist, s);
    var (lens, rest) := ReadRuns(bl, s, [], nlen + ndist).value;
    var (t, rest') := ReadTrees(bl, nlen, ndist, s).value;
    var a := State(LenLens(nlen, ndist, n, n, bl), last, s, out);
    IsLenLens(c, a);
    var b := State(CodeLens(nlen, ndist, bl, []), last, s, out);
    ReachesStep(c, a);
    RunsRuns(c, last, out, nlen, ndist, bl, s, []);
    var d := State(CodeLens(nlen, ndist, bl, lens), last, rest, out);
    ReachesTrans(c, a, b, d);
    IsCodeLens(c, d);
    ReachesStep(c, d);
    ReachesTrans(c, a, d, Step(c, d));
  }

  lemma HeaderParts(s: seq<bool>)
    requires ReadHeader(s).Some?
    ensures |s| >= 14
    ensures var nlen, ndist, n := FromBits(s[..5]) + 257, FromBits(s[5..10]) + 1, FromBits(s[10..14]) + 4;
            nlen <= 286 && ndist <= 30 && ReadLenLens(s[14..], 0, n, seq(BL_CODES, _ => 0)).Some?
            && var (bl, after) := ReadLenLens(s[14..], 0, n, seq(BL_CODES, _ => 0)).value;
               ReadHeader(s) == ReadTrees(bl, nlen, ndist, after)
  {
    hide FromBits, ReadLenLens, ReadTrees;
    var a := s[5..];
    var b := a[5..];
    assert a[..5] == s[5..10] && b[..4] == s[10..14] && b[4..] == s[14..];
  }

  /** TABLE to CODELENS. */
  lemma HeaderRuns(c: Config, last: bool, s: seq<bool>, out: seq<Octet>)
    requires ReadHeader(s).Some?
    ensures var (t, rest) := ReadHeader(s).value;
            Reaches(c, State(Mode.Table, last, s, out), State(Len(t), last, rest, out))
  {
    hide Reaches, Step, ReadHeader, ReadTrees, ReadLenLens, FromBits;
    HeaderParts(s);
    var nlen, ndist, n := FromBits(s[..5]) + 257, FromBits(s[5..10]) + 1, FromBits(s[10..14]) + 4;
    var zeros := seq(BL_CODES, _ => 0);
    var (bl, after) := ReadLenLens(s[14..], 0, n, zeros).value;
    var (t, rest) := ReadHeader(s).value;
    var a := State(Mode.Table, last, s, out);
    IsTable(c, a);
    ReachesStep(c, a);
    LenLensRuns(c, last, out, nlen, ndist, n, s[14..], 0, zeros);
    var b := State(LenLens(nlen, ndist, n, 0, zeros), last, s[14..], out);
    assert Step(c, a) == b;
    var d := State(LenLens(nlen, ndist, n, n, bl), last, after, out);
    ReachesTrans(c, a, b, d);
    TreesRun(c, last, out, nlen, ndist, n, bl, after);
    ReachesTrans(c, a, d, State(Len(t), last, rest, out));
  }

  /** TABLE to the end of the block: the output grows by what the tokens stand for. */
  lemma BlockRuns(c: Config, last: bool, s: seq<bool>, out: seq<Octet>)
    requires ReadBlock(s).Some? && Fitting(c.wsize, out, ReadBlock(s).value.0)
    ensures var (tokens, rest) := ReadBlock(s).value;
            Reaches(c, State(Mode.Table, last, s, out), State(Type, last, rest, Expand(out, tokens)))
  {
    hide Reaches, ReadHeader, ReadBody, Fitting, Expand;
    var (t, rest) := ReadHeader(s).value;
    var (tokens, end) := ReadBlock(s).value;
    HeaderRuns(c, last, s, out);
    BodyRuns(c, t, last, rest, out);
    ReachesTrans(c, State(Mode.Table, last, s, out), State(Len(t), last, rest, out),
                 State(Type, last, end, Expand(out, tokens)));
  }
}
