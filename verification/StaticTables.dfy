/** tr_static_init of trees.c: the tables from lengths and distances to their codes. */
module StaticTables {
  import opened Kraft
  import opened BlockTables

  /** d_code: distances from 256 on are looked up by their high bits. */
  function DCode(distCode: seq<nat>, dist: nat): nat
    requires |distCode| == 512 && dist < 32768
  {
    if dist < 256 then distCode[dist] else distCode[256 + dist / 128]
  }

  ghost predicate LengthTables(lengthCode: seq<nat>, baseLength: seq<nat>) {
    && |lengthCode| == 256 && |baseLength| == L_CODES
    && (forall lc | 0 <= lc < 256 :: lengthCode[lc] == LengthCode(lc))
    && (forall c | 0 <= c < 28 :: baseLength[c] == LengthFirst(c))
  }

  ghost predicate DistTables(distCode: seq<nat>, baseDist: seq<nat>) {
    && |distCode| == 512 && |baseDist| == D_CODES
    && (forall dist | 0 <= dist < 32768 :: DCode(distCode, dist) == DistCode(dist))
    && (forall c | 0 <= c < D_CODES :: baseDist[c] == DistFirst(c))
  }

  lemma {:induction false} LengthGrows(c: nat, d: nat)
    requires c <= d
    ensures LengthFirst(c) <= LengthFirst(d)
    decreases d
  {
    if c < d { LengthGrows(c, d - 1); }
  }

  lemma {:induction false} DistGrows(c: nat, d: nat)
    requires c <= d
    ensures DistFirst(c) <= DistFirst(d)
    decreases d
  {
    if c < d { DistGrows(c, d - 1); }
  }

  lemma LengthStep(c: nat)
    ensures LengthFirst(c + 1) == LengthFirst(c) + Pow2(LengthXBits(c))
  {
  }

  lemma DistStep(c: nat)
    ensures DistFirst(c + 1) == DistFirst(c) + Pow2(DistXBits(c))
  {
  }

  lemma LengthIs(lc: nat, c: nat)
    requires c < 28 && LengthFirst(c) <= lc < LengthFirst(c + 1) && lc < 255
    ensures LengthCode(lc) == c
  {
    hide LengthCode, LengthFirst, LengthBase, Pow2, LengthXBits;
    var d := LengthCode(lc);
    LengthStep(d);
    LengthRange(lc);
    if c < d { LengthGrows(c + 1, d); } else if d < c { LengthGrows(d + 1, c); }
  }

  lemma DistIs(dist: nat, c: nat)
    requires c < 30 && DistFirst(c) <= dist < DistFirst(c + 1) && dist < 32768
    ensures DistCode(dist) == c
  {
    hide DistCode, DistFirst, DistBase, Pow2, DistXBits;
    var d := DistCode(dist);
    DistStep(d);
    DistRange(dist);
    if c < d { DistGrows(c + 1, d); } else if d < c { DistGrows(d + 1, c); }
  }

  lemma LengthEnd(c: nat)
    requires c < 28
    ensures LengthFirst(c + 1) == LengthFirst(c) + Pow2(LengthXBits(c)) <= 256 && LengthXBits(c) <= 5
  {
    LengthTotal();
    LengthGrows(c + 1, 28);
  }

  /** The lengths of one code. */
  method LengthFill(lengthCode: array<nat>, code: nat, start: nat)
    requires lengthCode.Length == 256 && code < 28 && start == LengthFirst(code) && LengthFirst(code + 1) <= 256
    modifies lengthCode
    ensures forall lc | start <= lc < LengthFirst(code + 1) && lc < 255 :: lengthCode[lc] == LengthCode(lc)
    ensures forall lc | 0 <= lc < start :: lengthCode[lc] == old(lengthCode[lc])
  {
    hide LengthFirst, LengthCode, Pow2, LengthXBits;
    LengthStep(code);
    var length := start;
    for n := 0 to Pow2(LengthXBits(code))
      invariant length == start + n
      invariant forall lc | start <= lc < length && lc < 255 :: lengthCode[lc] == LengthCode(lc)
      invariant forall lc | 0 <= lc < start :: lengthCode[lc] == old(lengthCode[lc])
    {
      if length < 255 { LengthIs(length, code); }
      lengthCode[length] := code;
      length := length + 1;
    }
  }

  /** The mapping of lengths. */
  method LengthLoop(lengthCode: array<nat>, baseLength: array<nat>)
    requires lengthCode.Length == 256 && baseLength.Length == L_CODES && lengthCode != baseLength
    modifies lengthCode, baseLength
    ensures forall lc | 0 <= lc < 255 :: lengthCode[lc] == LengthCode(lc)
    ensures forall c | 0 <= c < 28 :: baseLength[c] == LengthFirst(c)
  {
    hide LengthFirst, LengthCode, Pow2, LengthXBits;
    var length := 0;
    LengthTotal();
    LastLength();
    for code := 0 to 28
      invariant length == LengthFirst(code) <= 256
      invariant forall lc | 0 <= lc < length && lc < 255 :: lengthCode[lc] == LengthCode(lc)
      invariant forall c | 0 <= c < code :: baseLength[c] == LengthFirst(c)
    {
      baseLength[code] := length;
      LengthEnd(code);
      LengthFill(lengthCode, code, length);
      length := length + Pow2(LengthXBits(code));
    }
  }

  method LengthInit() returns (lengthCode: array<nat>, baseLength: array<nat>)
    ensures fresh(lengthCode) && fresh(baseLength) && LengthTables(lengthCode[..], baseLength[..])
  {
    hide LengthFirst, LengthCode;
    lengthCode, baseLength := new nat[256](_ => 0), new nat[L_CODES](_ => 0);
    LengthLoop(lengthCode, baseLength);
    LastLength();
    lengthCode[255] := 28;
  }

  lemma LastLength()
    ensures LengthCode(255) == 28 && LengthFirst(0) == 0
  {
  }

  lemma DistEnd(c: nat)
    requires c < 30
    ensures DistFirst(c + 1) == DistFirst(c) + Pow2(DistXBits(c)) <= 32768
    ensures c < 16 ==> DistFirst(c + 1) <= 256
    ensures c >= 16 ==> DistXBits(c) >= 7 && Pow2(DistXBits(c)) == 128 * Pow2(DistXBits(c) - 7)
  {
    hide DistFirst, DistXBits, Pow2, DistBase;
    DistTotal();
    DistStep(c);
    DistGrows(c + 1, 30);
    Sixteen();
    if c < 16 {
      DistGrows(c + 1, 16);
    } else {
      FarBits(c);
      SevenBits(DistXBits(c));
    }
  }

  lemma SevenBits(n: nat)
    requires n >= 7
    ensures Pow2(n) == 128 * Pow2(n - 7)
  {
    Pow2Add(7, n - 7);
    SmallPowers();
    hide Pow2;
  }

  lemma FarBits(c: nat)
    requires 16 <= c < 30
    ensures DistXBits(c) >= 7
  {
  }

  lemma Sixteen()
    ensures DistFirst(16) == 256 && DistFirst(0) == 0
  {
    hide DistFirst, DistBase;
    DistStart(0);
    DistFar(16);
  }

  lemma DistStart(c: nat)
    requires c == 0
    ensures DistFirst(c) == 0
  {
  }

  lemma DistFar(c: nat)
    requires c == 16
    ensures DistFirst(c) == 256
  {
    hide DistFirst;
    DistBases(c);
  }

  /** The distances of one code. */
  method NearFill(distCode: array<nat>, code: nat, start: nat)
    requires distCode.Length == 512 && code < 16 && start == DistFirst(code) && DistFirst(code + 1) <= 256
    modifies distCode
    ensures forall d | start <= d < DistFirst(code + 1) :: distCode[d] == DistCode(d)
    ensures forall d | 0 <= d < start :: distCode[d] == old(distCode[d])
  {
    hide DistFirst, DistCode, Pow2, DistXBits;
    DistStep(code);
    var dist := start;
    for n := 0 to Pow2(DistXBits(code))
      invariant dist == start + n
      invariant forall d | start <= d < dist :: distCode[d] == DistCode(d)
      invariant forall d | 0 <= d < start :: distCode[d] == old(distCode[d])
    {
      DistIs(dist, code);
      distCode[dist] := code;
      dist := dist + 1;
    }
  }

  /** The mapping of distances below 256. */
  method NearInit(distCode: array<nat>, baseDist: array<nat>)
    requires distCode.Length == 512 && baseDist.Length == D_CODES && distCode != baseDist
    modifies distCode, baseDist
    ensures forall d | 0 <= d < 256 :: distCode[d] == DistCode(d)
    ensures forall c | 0 <= c < 16 :: baseDist[c] == DistFirst(c)
  {
    hide DistFirst, DistCode, Pow2, DistXBits;
    var dist := 0;
    Sixteen();
    for code := 0 to 16
      invariant dist == DistFirst(code) <= 256
      invariant forall d | 0 <= d < dist :: distCode[d] == DistCode(d)
      invariant forall c | 0 <= c < code :: baseDist[c] == DistFirst(c)
    {
      baseDist[code] := dist;
      DistEnd(code);
      NearFill(distCode, code, dist);
      dist := dist + Pow2(DistXBits(code));
    }
  }

  /** The codes of the distances with the given high bits are the same. */
  lemma FarIs(k: nat, c: nat)
    requires 16 <= c < 30 && DistFirst(c) <= 128 * k && 128 * (k + 1) <= DistFirst(c + 1) && k < 256
    ensures forall d | 128 * k <= d < 128 * (k + 1) :: DistCode(d) == c
  {
    hide DistFirst, DistCode;
    forall d | 128 * k <= d < 128 * (k + 1) ensures DistCode(d) == c { DistIs(d, c); }
  }

  /** The mapping of the other distances, by their high bits. */
  method FarInit(distCode: array<nat>, baseDist: array<nat>)
    requires distCode.Length == 512 && baseDist.Length == D_CODES && distCode != baseDist
    modifies distCode, baseDist
    ensures forall d | 256 <= d < 32768 :: distCode[256 + d / 128] == DistCode(d)
    ensures forall c | 16 <= c < D_CODES :: baseDist[c] == DistFirst(c)
    ensures forall d | 0 <= d < 256 :: distCode[d] == old(distCode[d])
    ensures forall c | 0 <= c < 16 :: baseDist[c] == old(baseDist[c])
  {
    hide DistFirst, DistCode, Pow2, DistXBits;
    var dist := 2;
    Sixteen();
    DistTotal();
    for code := 16 to D_CODES
      invariant 128 * dist == DistFirst(code) <= 32768 && dist >= 2
      invariant forall d | 256 <= d < 128 * dist :: distCode[256 + d / 128] == DistCode(d)
      invariant forall c | 16 <= c < code :: baseDist[c] == DistFirst(c)
      invariant forall d | 0 <= d < 256 :: distCode[d] == old(distCode[d])
      invariant forall c | 0 <= c < 16 :: baseDist[c] == old(baseDist[c])
    {
      baseDist[code] := 128 * dist;
      DistEnd(code);
      for n := 0 to Pow2(DistXBits(code) - 7)
        invariant 128 * dist == DistFirst(code) + 128 * n && dist >= 2
        invariant forall d | 256 <= d < 128 * dist :: distCode[256 + d / 128] == DistCode(d)
        invariant forall c | 16 <= c <= code :: baseDist[c] == DistFirst(c)
        invariant forall d | 0 <= d < 256 :: distCode[d] == old(distCode[d])
        invariant forall c | 0 <= c < 16 :: baseDist[c] == old(baseDist[c])
      {
        FarIs(dist, code);
        distCode[256 + dist] := code;
        dist := dist + 1;
      }
    }
  }

  method DistInit() returns (distCode: array<nat>, baseDist: array<nat>)
    ensures fresh(distCode) && fresh(baseDist) && DistTables(distCode[..], baseDist[..])
  {
    hide DistFirst, DistCode;
    distCode, baseDist := new nat[512](_ => 0), new nat[D_CODES](_ => 0);
    NearInit(distCode, baseDist);
    FarInit(distCode, baseDist);
    forall dist | 0 <= dist < 32768 ensures DCode(distCode[..], dist) == DistCode(dist) { High(dist); }
  }

  lemma High(dist: nat)
    requires dist < 32768
    ensures dist / 128 < 256
  {
  }
}
