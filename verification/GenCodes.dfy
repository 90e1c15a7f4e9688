/** gen_codes and bi_reverse of trees.c: the canonical code words, stored with their bits reversed. */
module GenCodes {
  import opened Kraft
  import opened TreeLengths
  import opened BitLengths
  import opened CanonicalCode

  /** Storing in 16 bits. */
  function Ush(x: nat): nat { x % 0x10000 }

  /** The n low bits of v, least significant first: the order in which they are sent. */
  function Bits(v: nat, n: nat): (r: seq<bool>)
    ensures |r| == n
  {
    if n == 0 then [] else [v % 2 == 1] + Bits(v / 2, n - 1)
  }

  /** Moving one bit from the end of the code word to the front of the result. */
  lemma ReverseStep(c: nat, k: nat, r: nat, done: nat)
    requires k > 0 && r < Pow2(done)
    ensures Word(c, k) + Bits(r, done) == Word(c / 2, k - 1) + Bits(2 * r + c % 2, done + 1)
    ensures 2 * r + c % 2 < Pow2(done + 1)
  {
    assert Bits(2 * r + c % 2, done + 1) == [c % 2 == 1] + Bits(r, done);
  }

  /** bi_reverse: what is sent least significant bit first is the code word, most significant bit first. */
  method BiReverse(code: nat, len: nat) returns (res: nat)
    requires 1 <= len <= MAX_BITS
    ensures res < Pow2(len) && Bits(res, len) == Word(code, len)
  {
    hide Word, Bits, Pow2;
    res := 0;
    var c: nat, k: nat := code, len;
    ReverseStart(code, len);
    while k > 0
      invariant 0 <= k <= len && res % 2 == 0 && res / 2 < Pow2(len - k)
      invariant Word(c, k) + Bits(res / 2, len - k) == Word(code, len)
      decreases k
    {
      ReverseStep(c, k, res / 2, len - k);
      res := res + c % 2;
      c, res := c / 2, 2 * res;
      k := k - 1;
    }
    res := res / 2;
    ReverseEnd(c, res, len);
  }

  lemma ReverseStart(c: nat, len: nat)
    ensures Word(c, len) + Bits(0, 0) == Word(c, len) && 0 < Pow2(0)
  {
  }

  lemma ReverseEnd(c: nat, r: nat, len: nat)
    ensures Word(c, 0) + Bits(r, len) == Bits(r, len)
  {
  }

  /** The counts that gen_codes is given are those of the lengths. */
  ghost predicate CountsOf(lens: seq<nat>, counts: seq<nat>) {
    |counts| == MAX_BITS + 1 && forall b | 0 <= b <= MAX_BITS :: counts[b] == Count(lens, b)
  }

  lemma Pow2Small(b: nat)
    requires b <= MAX_BITS
    ensures Pow2(b) <= 0x8000
  {
    Pow2Monotone(b, MAX_BITS);
    assert Pow2(15) == 2 * Pow2(14) && Pow2(14) == 2 * Pow2(13) && Pow2(13) == 2 * Pow2(12) && Pow2(12) == 2 * Pow2(11);
    assert Pow2(11) == 2 * Pow2(10) && Pow2(10) == 2 * Pow2(9) && Pow2(9) == 2 * Pow2(8) && Pow2(8) == 2 * Pow2(7);
    assert Pow2(7) == 2 * Pow2(6) && Pow2(6) == 2 * Pow2(5) && Pow2(5) == 2 * Pow2(4) && Pow2(4) == 2 * Pow2(3)
           && Pow2(3) == 8;
  }

  lemma FirstStep(lens: seq<nat>, counts: seq<nat>, b: nat)
    requires CountsOf(lens, counts) && Subscribed(lens) && 1 <= b <= MAX_BITS
    ensures (FirstOf(lens, b - 1) + counts[b - 1]) * 2 == FirstOf(lens, b) == Ush(FirstOf(lens, b))
  {
    hide Pow2, Count, Subscribed;
    WordsFit(lens, b);
    Pow2Small(b);
  }

  lemma WordsFit(lens: seq<nat>, b: nat)
    requires Subscribed(lens)
    ensures FirstOf(lens, b) + Count(lens, b) <= Pow2(b)
  {
    hide FirstOf, Count, Pow2;
  }

  lemma CountsSize(lens: seq<nat>, counts: seq<nat>)
    requires CountsOf(lens, counts)
    ensures |counts| == MAX_BITS + 1 && FirstOf(lens, 0) == 0
  {
  }

  /** The first loop: the first code word of each length. */
  method FirstCodes(counts: seq<nat>, ghost lens: seq<nat>) returns (next: array<nat>)
    requires CountsOf(lens, counts) && Subscribed(lens)
    ensures fresh(next) && next.Length == MAX_BITS + 1 && forall b | 1 <= b <= MAX_BITS :: next[b] == FirstOf(lens, b)
  {
    hide FirstOf, Count, Subscribed, Ush, CountsOf;
    CountsSize(lens, counts);
    next := new nat[MAX_BITS + 1](_ => 0);
    var code := 0;
    for bits := 1 to MAX_BITS + 1
      invariant code == FirstOf(lens, bits - 1) && forall b | 1 <= b < bits :: next[b] == FirstOf(lens, b)
    {
      FirstStep(lens, counts, bits);
      code := (code + counts[bits - 1]) * 2;
      next[bits] := Ush(code);
    }
  }

  lemma NextFits(lens: seq<nat>, n: nat)
    requires Subscribed(lens) && n < |lens| && lens[n] > 0
    ensures Code(lens, n) < Pow2(lens[n]) <= 0x8000 && 1 <= lens[n] <= MAX_BITS
  {
    hide Pow2, FirstOf, Rank;
    CodeFits(lens, n);
    Pow2Small(lens[n]);
  }

  /** The words still to be given: next[b] is that of the next symbol of length b. */
  ghost predicate NextCodes(lens: seq<nat>, next: seq<nat>, n: nat) {
    && n <= |lens| && |next| == MAX_BITS + 1
    && forall b | 1 <= b <= MAX_BITS :: next[b] == FirstOf(lens, b) + Rank(lens, n, b)
  }

  lemma NextStep(lens: seq<nat>, next: seq<nat>, n: nat)
    requires NextCodes(lens, next, n) && n < |lens| && lens[n] <= MAX_BITS
    ensures |next| == MAX_BITS + 1 && (lens[n] == 0 ==> NextCodes(lens, next, n + 1))
    ensures lens[n] > 0 ==> next[lens[n]] == Code(lens, n) && NextCodes(lens, next[lens[n] := next[lens[n]] + 1], n + 1)
  {
  }

  /** Symbol x has its code word. */
  ghost predicate Coded(lens: seq<nat>, x: nat, code: nat)
    requires x < |lens|
  {
    code < Pow2(lens[x]) && Bits(code, lens[x]) == CodeWord(lens, x)
  }

  /** Gives symbol n its code word. */
  method OneCode(fc: array<nat>, next: array<nat>, n: nat, len: nat, ghost lens: seq<nat>)
    requires fc != next && NextCodes(lens, next[..], n) && n < |lens| <= fc.Length && len == lens[n] > 0
             && Subscribed(lens)
    modifies fc, next
    ensures Coded(lens, n, fc[n]) && NextCodes(lens, next[..], n + 1)
    ensures forall x | 0 <= x < fc.Length && x != n :: fc[x] == old(fc[x])
  {
    hide Subscribed, NextCodes, Pow2, Bits, Word, Code, Coded;
    ghost var before := next[..];
    NextFits(lens, n);
    NextStep(lens, before, n);
    var res := BiReverse(next[len], len);
    CodedIs(lens, n, res);
    fc[n] := Ush(res);
    next[len] := next[len] + 1;
    assert next[..] == before[len := before[len] + 1];
  }

  lemma CodedIs(lens: seq<nat>, x: nat, code: nat)
    requires x < |lens| && code < Pow2(lens[x]) && Bits(code, lens[x]) == Word(Code(lens, x), lens[x])
    ensures Coded(lens, x, code)
  {
  }

  /** gen_codes: every symbol that is used gets its code word. */
  method Generate(fc: array<nat>, dl: array<nat>, maxCode: int, counts: seq<nat>, ghost lens: seq<nat>)
    requires fc != dl && fc.Length == dl.Length && |lens| <= dl.Length && lens == dl[..|lens|] && -1 <= maxCode < |lens|
    requires CountsOf(lens, counts) && Subscribed(lens) && forall x | maxCode < x < |lens| :: lens[x] == 0
    modifies fc
    ensures forall x | 0 <= x < |lens| && lens[x] > 0 :: Coded(lens, x, fc[x])
    ensures forall x | 0 <= x < fc.Length && (x >= |lens| || lens[x] == 0) :: fc[x] == old(fc[x])
  {
    hide Subscribed, NextCodes, Coded, CountsOf, FirstOf;
    var next := FirstCodes(counts, lens);
    NextStart(lens, next[..]);
    LensBounded(lens);
    for n := 0 to maxCode + 1
      invariant NextCodes(lens, next[..], n)
      invariant forall x | 0 <= x < n && lens[x] > 0 :: Coded(lens, x, fc[x])
      invariant forall x | 0 <= x < fc.Length && (x >= n || lens[x] == 0) :: fc[x] == old(fc[x])
    {
      assert dl[n] == lens[n];
      if dl[n] == 0 {
        NextStep(lens, next[..], n);
        continue;
      }
      OneCode(fc, next, n, dl[n], lens);
    }
  }

  lemma NextStart(lens: seq<nat>, next: seq<nat>)
    requires |next| == MAX_BITS + 1 && forall b | 1 <= b <= MAX_BITS :: next[b] == FirstOf(lens, b)
    ensures NextCodes(lens, next, 0)
  {
  }

  lemma LensBounded(lens: seq<nat>)
    requires Subscribed(lens)
    ensures forall x | 0 <= x < |lens| :: lens[x] <= MAX_BITS
  {
  }
}
