/** What the slow and the fast decoder of literals, lengths and distances share: their tables, and the tests of an
    entry. */
module SymbolTables {
  import opened Kraft
  import opened BlockTables
  import opened BlockCode
  import opened BlockHeader
  import opened TableCode
  import opened DecodeTable
  import B = BitReader
  import S = InflateStep

  /** The entries w lie in a table from `at` on. */
  ghost predicate TableIn(table: array<Entry>, at: nat, w: seq<Entry>)
    reads table
  {
    at + |w| <= table.Length && w == table[at..at + |w|]
  }

  lemma TableInIs(table: array<Entry>, at: nat, w: seq<Entry>)
    requires TableIn(table, at, w)
    ensures at + |w| <= table.Length && w == table[at..at + |w|]
  {
  }

  /** w decodes a code. */
  ghost predicate CodeIn(w: seq<Entry>, c: Coding) { DecodeTable.Table(w, c) && B.Usable(c.lens) }

  ghost predicate TreesIn(lw: seq<Entry>, lbits: nat, dw: seq<Entry>, dbits: nat, t: Trees) {
    CodeIn(lw, Coding(Kind.Lens, t.ll, lbits)) && CodeIn(dw, Coding(Dists, t.dl, dbits))
  }

  /** The tests of an entry in state LEN. */
  function LenMode(t: Trees, here: Entry): S.Mode {
    if here.op == 0 then S.Lit(t, if here.val < 256 then here.val else 0)
    else if here.op / 32 % 2 == 1 then S.Type
    else if here.op / 64 % 2 == 1 then S.Bad
    else S.LenExt(t, here.val, here.op % 16)
  }

  lemma LenModeLeaf(t: Trees, x: nat, n: nat)
    ensures LenMode(t, Leaf(Kind.Lens, x, n)) == S.AfterSymbol(t, x)
  {
    hide LengthBase, LengthXBits;
    if 257 <= x < 286 { S.TablesSane(x - 257); }
  }

  lemma LenModeIs(t: Trees, bits: nat, s: seq<bool>, here: Entry, rest: seq<bool>, st: S.State)
    requires B.IsDecoded(Coding(Kind.Lens, t.ll, bits), s, here, rest) && st.mode == S.Len(t) && st.s == s
    ensures S.StepLen(st) == st.(mode := LenMode(t, here), s := rest)
  {
    hide B.Decode, S.AfterSymbol, Leaf;
    match B.Decode(t.ll, s) {
      case Symbol(x, after) => LenModeLeaf(t, x, here.bits);
      case _ =>
    }
  }

  lemma LenModeTrees(t: Trees, here: Entry)
    ensures LenMode(t, here).Lit? ==> LenMode(t, here).trees == t
    ensures LenMode(t, here).LenExt? ==> LenMode(t, here).trees == t
    ensures LenMode(t, here).Lit? || LenMode(t, here).LenExt? || LenMode(t, here).Type? || LenMode(t, here).Bad?
  {
  }

  /** The test of an entry in state DIST. */
  function DistMode(t: Trees, length: nat, here: Entry): S.Mode {
    if here.op / 64 % 2 == 1 then S.Bad else S.DistExt(t, length, here.val, here.op % 16)
  }

  lemma DistModeLeaf(t: Trees, length: nat, x: nat, n: nat)
    ensures DistMode(t, length, Leaf(Dists, x, n)) == if x >= D_CODES then S.Bad
            else S.DistExt(t, length, DistBase(x), DistXBits(x))
  {
    hide DistBase, DistXBits;
    S.TablesSane(x);
  }

  lemma DistModeIs(t: Trees, length: nat, bits: nat, s: seq<bool>, here: Entry, rest: seq<bool>, st: S.State)
    requires B.IsDecoded(Coding(Dists, t.dl, bits), s, here, rest) && st.mode == S.Dist(t, length) && st.s == s
    ensures S.StepDist(st) == st.(mode := DistMode(t, length, here), s := rest)
    ensures DistMode(t, length, here).Bad?
            || (DistMode(t, length, here).DistExt? && DistMode(t, length, here).trees == t)
  {
    hide B.Decode, Leaf, DistBase, DistXBits;
    match B.Decode(t.dl, s) {
      case Symbol(x, after) => DistModeLeaf(t, length, x, here.bits);
      case _ =>
    }
  }

  /** What is taken from the input is taken from the stream. */
  lemma Cut(rest: seq<bool>, f: seq<bool>, n: nat)
    ensures n <= |rest| ==> (rest + f)[..n] == rest[..n] && (rest + f)[n..] == rest[n..] + f
  {
  }

  /** Lengths are 3 to 258. */
  lemma LengthRange(x: nat)
    requires x < L_CODES
    ensures 3 <= LengthBase(x) && LengthXBits(x) <= 5 && LengthBase(x) + Pow2(LengthXBits(x)) <= 259
  {
    SmallPowers();
    hide Pow2;
  }

  /** The base of a length, as state LEN finds it. */
  lemma LenModeRange(t: Trees, bits: nat, s: seq<bool>, here: Entry, rest: seq<bool>)
    requires B.IsDecoded(Coding(Kind.Lens, t.ll, bits), s, here, rest)
    ensures var m := LenMode(t, here); m.LenExt? ==> 3 <= m.length && m.extra <= 5 && m.length + Pow2(m.extra) <= 259
  {
    hide B.Decode, Leaf, LengthBase, LengthXBits, Pow2, LenMode;
    match B.Decode(t.ll, s) {
      case Symbol(x, after) =>
        LenModeLeaf(t, x, here.bits);
        if 257 <= x < 286 { LengthRange(x - 257); }
      case _ => InvalidMode(t, here);
    }
  }

  lemma InvalidMode(t: Trees, here: Entry)
    ensures here.op == 64 ==> LenMode(t, here) == S.Bad
  {
  }

  /** The tests of inflate_fast, in its order. */
  lemma FastTests(t: Trees, bits: nat, s: seq<bool>, here: Entry, rest: seq<bool>)
    requires B.IsDecoded(Coding(Kind.Lens, t.ll, bits), s, here, rest)
    ensures LenMode(t, here) == if here.op == 0 then S.Lit(t, if here.val < 256 then here.val else 0)
                                else if here.op / 16 % 2 == 1 then S.LenExt(t, here.val, here.op % 16)
                                else if here.op / 32 % 2 == 1 then S.Type else S.Bad
    ensures here.op == 0 ==> here.val < 256
  {
    hide B.Decode, Leaf;
    match B.Decode(t.ll, s) {
      case Symbol(x, after) => LeafShape(x, here.bits);
      case _ =>
    }
  }

  lemma LeafShape(x: nat, n: nat)
    ensures var op := Leaf(Kind.Lens, x, n).op; op == 0 || op == 96 || op == 77 || op == 202 || (16 <= op < 22)
    ensures Leaf(Kind.Lens, x, n).op == 0 ==> Leaf(Kind.Lens, x, n).val < 256
  {
  }

  lemma FastDistTests(t: Trees, bits: nat, s: seq<bool>, here: Entry, rest: seq<bool>)
    requires B.IsDecoded(Coding(Dists, t.dl, bits), s, here, rest)
    ensures here.op / 16 % 2 == 1 <==> here.op / 64 % 2 == 0
    ensures here.op / 16 % 2 == 1 ==> here.op % 16 <= 13 && here.val > 0
  {
    hide B.Decode, Leaf;
    match B.Decode(t.dl, s) {
      case Symbol(x, after) => DistShape(x, here.bits);
      case _ =>
    }
  }

  lemma DistShape(x: nat, n: nat)
    ensures var e := Leaf(Dists, x, n); e.op == 64 || (16 <= e.op < 30 && e.val > 0)
  {
  }
}
