/** The length and distance codes of section 3.2.5 of RFC 1951: the ranges that tr_static_init of trees.c works out from
    the extra-bit counts, and the base values that inflate_table of inftrees.c writes out. */
module BlockTables {
  import opened Kraft

  const L_CODES: nat := 29
  const D_CODES: nat := 30

  /** Extra bits of a length code; encoder and decoder list the same counts. */
  function LengthXBits(c: nat): nat {
    if c < 8 then 0 else if c < 12 then 1 else if c < 16 then 2 else if c < 20 then 3 else if c < 24 then 4
      else if c < 28 then 5 else 0
  }

  /** Extra bits of a distance code. */
  function DistXBits(c: nat): nat { if c < 4 then 0 else c / 2 - 1 }

  /** The length of the word of literal/length symbol x in the fixed code of section 3.2.6. */
  function FixedLength(x: nat): nat { if x <= 143 then 8 else if x <= 255 then 9 else if x <= 279 then 7 else 8 }

  // -- The decoder's base values ----------------------------------------------------------------------------------

  function LengthBase(c: nat): nat {
    match c
    case 0 => 3 case 1 => 4 case 2 => 5 case 3 => 6 case 4 => 7 case 5 => 8 case 6 => 9 case 7 => 10
    case 8 => 11 case 9 => 13 case 10 => 15 case 11 => 17 case 12 => 19 case 13 => 23 case 14 => 27 case 15 => 31
    case 16 => 35 case 17 => 43 case 18 => 51 case 19 => 59 case 20 => 67 case 21 => 83 case 22 => 99 case 23 => 115
    case 24 => 131 case 25 => 163 case 26 => 195 case 27 => 227 case 28 => 258
    case _ => 0
  }

  function DistBase(c: nat): nat {
    match c
    case 0 => 1 case 1 => 2 case 2 => 3 case 3 => 4 case 4 => 5 case 5 => 7 case 6 => 9 case 7 => 13
    case 8 => 17 case 9 => 25 case 10 => 33 case 11 => 49 case 12 => 65 case 13 => 97 case 14 => 129 case 15 => 193
    case 16 => 257 case 17 => 385 case 18 => 513 case 19 => 769 case 20 => 1025 case 21 => 1537 case 22 =>
      2049 case 23 => 3073
    case 24 => 4097 case 25 => 6145 case 26 => 8193 case 27 => 12289 case 28 => 16385 case 29 => 24577
    case _ => 0
  }

  // -- The encoder's ranges -----------------------------------------------------------------------------------------

  /** base_length: the first length (less 3) of code c. */
  function LengthFirst(c: nat): nat { if c == 0 then 0 else LengthFirst(c - 1) + Pow2(LengthXBits(c - 1)) }

  /** base_dist: the first distance (less 1) of code c. */
  function DistFirst(c: nat): nat { if c == 0 then 0 else DistFirst(c - 1) + Pow2(DistXBits(c - 1)) }

  lemma SmallPowers()
    ensures Pow2(0) == 1 && Pow2(1) == 2 && Pow2(2) == 4 && Pow2(3) == 8 && Pow2(4) == 16 && Pow2(5) == 32
            && Pow2(6) == 64
    ensures Pow2(7) == 128 && Pow2(8) == 256 && Pow2(9) == 512 && Pow2(10) == 1024 && Pow2(11) == 2048
            && Pow2(12) == 4096
    ensures Pow2(13) == 8192
  {
    assert Pow2(3) == 8 && Pow2(6) == 8 * Pow2(3) && Pow2(9) == 8 * Pow2(6) && Pow2(12) == 8 * Pow2(9);
  }

  lemma LengthBaseStep(c: nat)
    requires 0 < c < 28
    ensures LengthBase(c) == LengthBase(c - 1) + Pow2(LengthXBits(c - 1))
  {
    SmallPowers();
    hide Pow2;
  }

  lemma DistBaseStep(c: nat)
    requires 0 < c < 30
    ensures DistBase(c) == DistBase(c - 1) + Pow2(DistXBits(c - 1))
  {
    SmallPowers();
    hide Pow2;
  }

  /** The bases written out are those worked out. */
  lemma {:induction false} LengthBases(c: nat)
    requires c < 28
    ensures LengthBase(c) == LengthFirst(c) + 3
  {
    if c > 0 {
      LengthBases(c - 1);
      LengthBaseStep(c);
    }
  }

  lemma {:induction false} DistBases(c: nat)
    requires c < 30
    ensures DistBase(c) == DistFirst(c) + 1
  {
    if c > 0 {
      DistBases(c - 1);
      DistBaseStep(c);
    }
  }

  lemma LengthLast(c: nat)
    requires c == 28
    ensures LengthFirst(c) == 256
  {
    SmallPowers();
    hide Pow2;
    LengthBases(c - 1);
  }

  lemma LengthTotal()
    ensures LengthFirst(28) == 256
  {
    hide LengthFirst;
    LengthLast(28);
  }

  lemma DistLast(c: nat)
    requires c == 30
    ensures DistFirst(c) == 32768
  {
    SmallPowers();
    hide Pow2;
    DistBases(c - 1);
  }

  lemma DistTotal()
    ensures DistFirst(30) == 32768
  {
    hide DistFirst;
    DistLast(30);
  }

  // -- Codes ----------------------------------------------------------------------------------------------------

  /** The code among the first n whose range holds lc. */
  function FindLength(lc: nat, n: nat): (c: nat)
    requires lc < LengthFirst(n)
    ensures c < n && LengthFirst(c) <= lc < LengthFirst(c + 1)
  {
    if lc >= LengthFirst(n - 1) then n - 1 else FindLength(lc, n - 1)
  }

  function FindDist(dist: nat, n: nat): (c: nat)
    requires dist < DistFirst(n)
    ensures c < n && DistFirst(c) <= dist < DistFirst(c + 1)
  {
    if dist >= DistFirst(n - 1) then n - 1 else FindDist(dist, n - 1)
  }

  /** The code of a match length less 3; the longest has one of its own. */
  function LengthCode(lc: nat): (c: nat)
    ensures c < L_CODES
  {
    if lc < 255 && lc < LengthFirst(L_CODES - 1) then FindLength(lc, L_CODES - 1) else L_CODES - 1
  }

  /** The code of a distance less 1. */
  function DistCode(dist: nat): (c: nat)
    ensures c < D_CODES
  {
    if dist < DistFirst(D_CODES) then FindDist(dist, D_CODES) else D_CODES - 1
  }

  /** What is sent in the extra bits. */
  function LengthExtra(lc: nat): nat {
    var c := LengthCode(lc);
    if LengthXBits(c) != 0 && lc >= LengthFirst(c) then lc - LengthFirst(c) else 0
  }

  function DistExtra(dist: nat): nat {
    var c := DistCode(dist);
    if DistXBits(c) != 0 && dist >= DistFirst(c) then dist - DistFirst(c) else 0
  }

  lemma LengthRange(lc: nat)
    requires lc < 255
    ensures var c := LengthCode(lc);
            c < 28 && LengthFirst(c) <= lc < LengthFirst(c) + Pow2(LengthXBits(c))
            && LengthBase(c) == LengthFirst(c) + 3
  {
    LengthTotal();
    hide Pow2, LengthBase;
    LengthBases(LengthCode(lc));
  }

  lemma DistRange(dist: nat)
    requires dist < 32768
    ensures var c := DistCode(dist);
            DistFirst(c) <= dist < DistFirst(c) + Pow2(DistXBits(c))
            && DistBase(c) == DistFirst(c) + 1
  {
    DistTotal();
    hide Pow2, DistBase;
    DistBases(DistCode(dist));
  }

  /** The decoder's base plus the extra bits is the length; the extra bits fit. */
  lemma LengthDecodes(lc: nat)
    requires lc < 256
    ensures LengthBase(LengthCode(lc)) + LengthExtra(lc) == lc + 3
            && LengthExtra(lc) < Pow2(LengthXBits(LengthCode(lc)))
  {
    assert Pow2(0) == 1;
    if lc < 255 {
      LengthRange(lc);
      hide LengthBase, Pow2, LengthCode, LengthXBits, LengthFirst;
    }
  }

  lemma DistDecodes(dist: nat)
    requires dist < 32768
    ensures DistBase(DistCode(dist)) + DistExtra(dist) == dist + 1 && DistExtra(dist) < Pow2(DistXBits(DistCode(dist)))
  {
    assert Pow2(0) == 1;
    DistRange(dist);
    hide DistBase, Pow2, DistCode, DistXBits, DistFirst;
  }
}
