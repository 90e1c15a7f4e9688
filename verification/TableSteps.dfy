/** The loops of inflate_table of inftrees.c: counting, sorting, copying an entry, the next code word. */
module TableSteps {
  import opened Kraft
  import opened CanonicalCode
  import opened GenCodes
  import opened BlockCode
  import opened TableCode
  import opened DecodeTable

  // -- Counting and checking ------------------------------------------------------------------------------------

  /** The counts that are left when the symbols before rank r of length len have been entered. */
  ghost predicate Left(lens: seq<nat>, count: seq<nat>, len: nat, r: nat)
  {
    |count| == MAX_BITS + 1
    && forall b | len <= b <= MAX_BITS :: count[b] == if b == len then Count(lens, b) - r else Count(lens, b)
  }

  method CountLengths(lens: array<nat>, off: nat, codes: nat) returns (count: array<nat>)
    requires off + codes <= lens.Length && forall x | off <= x < off + codes :: lens[x] <= MAX_BITS
    ensures fresh(count) && Left(lens[off..off + codes], count[..], 1, 0)
  {
    count := new nat[MAX_BITS + 1](_ => 0);
    ghost var ls := lens[off..off + codes];
    for sym := 0 to codes
      invariant forall b | 0 <= b <= MAX_BITS :: count[b] == Rank(ls, sym, b)
    {
      assert lens[off + sym] == ls[sym];
      count[lens[off + sym]] := count[lens[off + sym]] + 1;
    }
  }

  /** The longest and the shortest length in use. */
  ghost predicate Extremes(lens: seq<nat>, min: nat, max: nat)
  {
    1 <= min <= max <= MAX_BITS && Count(lens, min) > 0 && Count(lens, max) > 0
    && forall b: nat :: 0 < b < min || b > max ==> Count(lens, b) == 0
  }

  method Longest(count: array<nat>, ghost lens: seq<nat>) returns (max: nat)
    requires Left(lens, count[..], 1, 0) && forall x | 0 <= x < |lens| :: lens[x] <= MAX_BITS
    ensures max <= MAX_BITS && (max > 0 ==> Count(lens, max) > 0) && forall b: nat :: b > max ==> Count(lens, b) == 0
  {
    max := MAX_BITS;
    forall b: nat | b > MAX_BITS
      ensures Count(lens, b) == 0
    {
      NoLonger(lens, |lens|, b);
    }
    hide Count;
    while max >= 1 && count[max] == 0
      invariant max <= MAX_BITS && forall b: nat :: b > max ==> Count(lens, b) == 0
    {
      max := max - 1;
    }
  }

  method Shortest(count: array<nat>, max: nat, ghost lens: seq<nat>) returns (min: nat)
    requires Left(lens, count[..], 1, 0) && 1 <= max <= MAX_BITS && Count(lens, max) > 0
    requires forall b: nat :: b > max ==> Count(lens, b) == 0
    ensures Extremes(lens, min, max)
  {
    hide Count;
    min := 1;
    while min < max && count[min] == 0
      invariant 1 <= min <= max && forall b: nat :: 0 < b < min ==> Count(lens, b) == 0
    {
      min := min + 1;
    }
  }

  lemma {:induction false} SubscribedIs(lens: seq<nat>, b: nat)
    requires forall x | 0 <= x < |lens| :: lens[x] <= MAX_BITS
    requires forall b | 0 <= b <= MAX_BITS :: End(lens, b) <= Pow2(b)
    ensures End(lens, b) <= Pow2(b)
    decreases b
  {
    if b > MAX_BITS {
      SubscribedIs(lens, b - 1);
      NoLonger(lens, |lens|, b);
      assert FirstOf(lens, b) == 2 * End(lens, b - 1);
    }
  }

  lemma EndStep(lens: seq<nat>, b: nat)
    ensures End(lens, b + 1) == 2 * End(lens, b) + Count(lens, b + 1) && End(lens, 0) == 0 && Pow2(b + 1) == 2 * Pow2(b)
            && Pow2(0) == 1
  {
  }

  /** The number of words left over at the longest length; negative when the lengths are over-subscribed. */
  method WordsLeft(count: array<nat>, ghost lens: seq<nat>) returns (left: int)
    requires Left(lens, count[..], 1, 0) && forall x | 0 <= x < |lens| :: lens[x] <= MAX_BITS
    ensures left >= 0 <==> Subscribed(lens)
    ensures left >= 0 ==> left == Pow2(MAX_BITS) - End(lens, MAX_BITS)
  {
    hide Count, FirstOf, Pow2, End, Subscribed;
    left := 1;
    EndStep(lens, 0);
    for len := 1 to MAX_BITS + 1
      invariant left == Pow2(len - 1) - End(lens, len - 1)
      invariant forall b | 0 <= b < len :: End(lens, b) <= Pow2(b)
    {
      EndStep(lens, len - 1);
      left := 2 * left - count[len];
      if left < 0 {
        NotSubscribed(lens, len);
        return;
      }
    }
    AllSubscribed(lens);
  }

  lemma NotSubscribed(lens: seq<nat>, b: nat)
    requires End(lens, b) > Pow2(b)
    ensures !Subscribed(lens)
  {
    assert FirstOf(lens, b) + Count(lens, b) > Pow2(b);
  }

  lemma AllSubscribed(lens: seq<nat>)
    requires forall x | 0 <= x < |lens| :: lens[x] <= MAX_BITS
    requires forall b | 0 <= b <= MAX_BITS :: End(lens, b) <= Pow2(b)
    ensures Subscribed(lens)
  {
    hide Count, FirstOf, Pow2;
    forall b: nat
      ensures FirstOf(lens, b) + Count(lens, b) <= Pow2(b)
    {
      SubscribedIs(lens, b);
    }
  }

  // -- Sorting --------------------------------------------------------------------------------------------------

  /** The symbols in use, sorted by length and number. */
  ghost predicate Sorted(lens: seq<nat>, work: seq<nat>)
  {
    forall x: nat | Uses(lens, x) :: Place(lens, x) < |work| && work[Place(lens, x)] == x
  }

  ghost predicate SortedTo(lens: seq<nat>, work: seq<nat>, n: nat)
    requires |lens| <= |work|
  {
    forall x: nat | x < n && Uses(lens, x) :: Place(lens, x) < |lens| && work[Place(lens, x)] == x
  }

  lemma SortedMore(lens: seq<nat>, work: seq<nat>, n: nat)
    requires |lens| <= |work| && SortedTo(lens, work, n) && n < |lens|
    ensures lens[n] == 0 ==> SortedTo(lens, work, n + 1)
    ensures lens[n] > 0 ==> Place(lens, n) < |lens| && SortedTo(lens, work[Place(lens, n) := n], n + 1)
  {
    hide Place;
    if lens[n] > 0 {
      PlaceBound(lens, n);
      forall x: nat | x < n && Uses(lens, x)
        ensures Place(lens, x) != Place(lens, n)
      {
        if Before(lens, x, n) { PlacesDiffer(lens, x, n); } else { PlacesDiffer(lens, n, x); }
      }
    }
  }

  method Offsets(count: array<nat>, ghost lens: seq<nat>) returns (offs: array<nat>)
    requires Left(lens, count[..], 1, 0)
    ensures fresh(offs) && offs.Length == MAX_BITS + 1 && forall b | 1 <= b <= MAX_BITS :: offs[b] == Offs(lens, b)
  {
    hide Count;
    offs := new nat[MAX_BITS + 1](_ => 0);
    for len := 1 to MAX_BITS
      invariant forall b | 1 <= b <= len :: offs[b] == Offs(lens, b)
    {
      offs[len + 1] := offs[len] + count[len];
    }
  }

  method Sort(lens: array<nat>, off: nat, codes: nat, offs: array<nat>, work: array<nat>)
    requires off + codes <= lens.Length && codes <= work.Length && forall x | off <= x < off + codes ::
             lens[x] <= MAX_BITS
    requires offs.Length == MAX_BITS + 1 && forall b | 1 <= b <= MAX_BITS :: offs[b] == Offs(lens[off..off + codes], b)
    requires lens != work && lens != offs && work != offs
    modifies offs, work
    ensures Sorted(lens[off..off + codes], work[..])
  {
    ghost var ls := lens[off..off + codes];
    for sym := 0 to codes
      invariant lens[off..off + codes] == ls && SortedTo(ls, work[..], sym)
      invariant forall b | 1 <= b <= MAX_BITS :: offs[b] == Offs(ls, b) + Rank(ls, sym, b)
    {
      assert lens[off + sym] == ls[sym];
      SortedMore(ls, work[..], sym);
      if lens[off + sym] != 0 {
        ghost var before := work[..];
        assert offs[lens[off + sym]] == Place(ls, sym);
        work[offs[lens[off + sym]]] := sym;
        assert work[..] == before[Place(ls, sym) := sym];
        offs[lens[off + sym]] := offs[lens[off + sym]] + 1;
      }
    }
    SortedAll(ls, work[..]);
  }

  lemma SortedAll(lens: seq<nat>, work: seq<nat>)
    requires |lens| <= |work| && SortedTo(lens, work, |lens|)
    ensures Sorted(lens, work)
  {
  }

  // -- Entering one symbol --------------------------------------------------------------------------------------

  lemma PrefixCut(u: seq<bool>, v: seq<bool>)
    requires |u| <= |v|
    ensures u <= v <==> u == v[..|u|]
  {
  }

  lemma BitsCut(j: nat, n: nat, m: nat)
    requires n <= m
    ensures Bits(j, m)[..n] == Bits(j, n)
  {
    BitsSplit(j, n, m - n);
  }

  lemma WordAt(from: nat, n: nat, curr: nat, j: nat)
    requires from < Pow2(n) && n <= curr
    ensures Bits(from, n) <= Bits(j, curr) <==> LowPart(j, n) == from
  {
    hide Pow2, Bits, FromBits, LowPart, HighPart;
    BitsSplit(j, n, 0);
    FromLow(j, n);
    FromToBits(from, n);
    BitsCut(j, n, curr);
    PrefixCut(Bits(from, n), Bits(j, curr));
  }

  /** The multiples of the increment. */
  function Stride(k: nat, n: nat): nat { k * Pow2(n) }

  lemma Strides(k: nat, n: nat)
    ensures Stride(k + 1, n) == Stride(k, n) + Pow2(n) && (Stride(k, n) > 0 ==> k > 0) && Stride(0, n) == 0
  {
    Distribute(k + 1, 1, Pow2(n));
  }

  lemma StridesFill(n: nat, curr: nat)
    requires n <= curr
    ensures Pow2(curr) == Stride(Pow2(curr - n), n)
  {
    Pow2Add(curr - n, n);
  }

  lemma InStride(j: nat, from: nat, n: nat, k: nat)
    requires from < Pow2(n) && Stride(k, n) <= j < Stride(k + 1, n)
    ensures LowPart(j, n) == from <==> j == Stride(k, n) + from
  {
    Strides(k, n);
    hide Pow2;
    Quotient(j, Pow2(n), k, j - Stride(k, n));
  }

  /** The copies made so far, from the end of the table down to `fill`. */
  ghost predicate Copied(before: seq<Entry>, after: seq<Entry>, base: nat, curr: nat, from: nat, n: nat, here: Entry,
                         fill: nat)
  {
    |after| == |before| && base + Pow2(curr) <= |before|
    && forall i | 0 <= i < |before| :: after[i] == CopyAt(before, base, curr, from, n, here, fill, i)
  }

  function CopyAt(before: seq<Entry>, base: nat, curr: nat, from: nat, n: nat, here: Entry, fill: nat, i: nat): Entry
    requires i < |before|
  {
    if base + fill <= i < base + Pow2(curr) && LowPart(i - base, n) == from then here else before[i]
  }

  lemma CopyAtMore(before: seq<Entry>, base: nat, curr: nat, from: nat, n: nat, here: Entry, k: nat, i: nat)
    requires from < Pow2(n) && Stride(k + 1, n) <= Pow2(curr) && i < |before|
    ensures CopyAt(before, base, curr, from, n, here, Stride(k, n), i)
         == if i == base + from + Stride(k, n) then here
            else CopyAt(before, base, curr, from, n, here, Stride(k + 1, n), i)
  {
    Strides(k, n);
    hide Pow2, LowPart, Stride;
    if base + Stride(k, n) <= i < base + Stride(k + 1, n) { InStride(i - base, from, n, k); }
  }

  lemma CopyMore(before: seq<Entry>, after: seq<Entry>, base: nat, curr: nat, from: nat, n: nat, here: Entry, k: nat)
    requires from < Pow2(n) && Stride(k + 1, n) <= Pow2(curr)
             && Copied(before, after, base, curr, from, n, here, Stride(k + 1, n))
    ensures base + from + Stride(k, n) < |after|
    ensures Copied(before, after[base + from + Stride(k, n) := here], base, curr, from, n, here, Stride(k, n))
  {
    Strides(k, n);
    hide Pow2, Stride, CopyAt;
    var later := after[base + from + Stride(k, n) := here];
    forall i | 0 <= i < |before|
      ensures later[i] == CopyAt(before, base, curr, from, n, here, Stride(k, n), i)
    {
      CopyAtMore(before, base, curr, from, n, here, k, i);
    }
  }

  lemma NoneCopied(before: seq<Entry>, base: nat, curr: nat, from: nat, n: nat, here: Entry)
    requires base + Pow2(curr) <= |before|
    ensures Copied(before, before, base, curr, from, n, here, Pow2(curr))
  {
  }

  /** The copying loop. */
  method Replicate(table: array<Entry>, base: nat, curr: nat, from: nat, n: nat, here: Entry)
    requires from < Pow2(n) && n <= curr && base + Pow2(curr) <= table.Length
    modifies table
    ensures Spread(old(table[..]), table[..], base, curr, Bits(from, n), here)
  {
    hide Pow2, Stride, Copied, Spread;
    var incr := Pow2(n);
    var fill := Pow2(curr);
    ghost var k: int := Pow2(curr - n);
    StridesFill(n, curr);
    ghost var before := table[..];
    NoneCopied(before, base, curr, from, n, here);
    while true
      invariant k > 0 && fill == Stride(k, n) <= Pow2(curr)
                && Copied(before, table[..], base, curr, from, n, here, fill)
      decreases k
    {
      ghost var w := table[..];
      k := k - 1;
      Strides(k, n);
      CopyMore(before, w, base, curr, from, n, here, k);
      fill := fill - incr;
      table[base + from + fill] := here;
      assert table[..] == w[base + from + fill := here];
      if fill == 0 { break; }
    }
    CopiedSpread(before, table[..], base, curr, from, n, here);
  }

  lemma CopiedSpread(before: seq<Entry>, after: seq<Entry>, base: nat, curr: nat, from: nat, n: nat, here: Entry)
    requires from < Pow2(n) && n <= curr && Copied(before, after, base, curr, from, n, here, 0)
    ensures Spread(before, after, base, curr, Bits(from, n), here)
  {
    hide Pow2, LowPart, Bits;
    forall j: nat | j < Pow2(curr) && base + j < |before|
      ensures after[base + j] == if Bits(from, n) <= Bits(j, curr) then here else before[base + j]
    {
      WordAt(from, n, curr, j);
      assert after[base + j] == CopyAt(before, base, curr, from, n, here, 0, base + j);
      assert base + j - base == j;
    }
  }

  // -- The next code word ---------------------------------------------------------------------------------------

  lemma TopBit(huff: nat, p: nat)
    requires p > 0
    ensures Bits(huff, p) == Bits(huff, p - 1) + [Div(huff, Pow2(p - 1)) % 2 == 1]
  {
    BitsSplit(huff, p - 1, 1);
    assert Bits(HighPart(huff, p - 1), 1) == [HighPart(huff, p - 1) % 2 == 1];
  }

  lemma WordStep(d: nat, p: nat)
    requires p > 0
    ensures Word(d, p) == Word(d / 2, p - 1) + [d % 2 == 1]
    ensures d % 2 == 1 ==> Word(d + 1, p) == Word(d / 2 + 1, p - 1) + [false]
    ensures d % 2 == 0 ==> Word(d + 1, p) == Word(d / 2, p - 1) + [true]
  {
    assert d % 2 == 1 ==> (d + 1) / 2 == d / 2 + 1;
    assert d % 2 == 0 ==> (d + 1) / 2 == d / 2;
  }

  lemma LastEqual(a: seq<bool>, x: bool, b: seq<bool>, y: bool)
    requires a + [x] == b + [y]
    ensures a == b && x == y
  {
    assert |a + [x]| == |b + [y]|;
    assert a == (a + [x])[..|a|] == (b + [y])[..|b|];
    assert x == (a + [x])[|a|];
  }

  /** A set bit goes to zero and carries. */
  lemma Carry(huff: nat, p: nat, d: nat, zeros: nat)
    requires p > 0 && Bits(huff, p) == Word(d, p) && Div(huff, Pow2(p - 1)) % 2 == 1
    ensures Bits(huff, p - 1) == Word(d / 2, p - 1)
    ensures Word(d + 1, p) + Zeros(zeros) == Word(d / 2 + 1, p - 1) + Zeros(zeros + 1)
  {
    TopBit(huff, p);
    WordStep(d, p);
    LastEqual(Bits(huff, p - 1), true, Word(d / 2, p - 1), d % 2 == 1);
    assert Zeros(zeros + 1) == [false] + Zeros(zeros);
  }

  /** A clear bit is set, and the bits above are cleared. */
  lemma Settle(huff: nat, p: nat, d: nat, len: nat, c: nat)
    requires 0 < p <= len && Bits(huff, p) == Word(d, p) && Div(huff, Pow2(p - 1)) % 2 != 1
    requires Word(c + 1, len) == Word(d + 1, p) + Zeros(len - p)
    ensures Reversed(Mod(huff, Pow2(p - 1)) + Pow2(p - 1), c + 1, len)
  {
    var q := p - 1;
    var low := LowPart(huff, q);
    var h := low + Pow2(q);
    TopBit(huff, p);
    WordStep(d, p);
    LastEqual(Bits(huff, q), false, Word(d / 2, q), d % 2 == 1);
    LowBelow(huff, q);
    BitsSplit(huff, q, 0);
    hide Bits, Word, Pow2, LowPart, Mod;
    assert h == 1 * Pow2(q) + low;
    BitsOf(h, q, 1, low);
    HighZero(h, p, len - p) by { PowStep(p); }
    Pow2Monotone(p, len);
    PowStep(p);
  }

  lemma BitsOf(h: nat, q: nat, top: nat, low: nat)
    requires h == top * Pow2(q) + low && low < Pow2(q) && top == 1
    ensures Bits(h, q + 1) == Bits(low, q) + [true]
  {
    Quotient(h, Pow2(q), top, low);
    TopBit(h, q + 1);
    BitsSplit(h, q, 0);
  }

  /** The backwards increment. */
  method Increment(huff: nat, len: nat, ghost c: nat) returns (h: nat)
    requires Reversed(huff, c, len) && len >= 1
    ensures Reversed(h, c + 1, len)
  {
    hide Pow2, Bits, Word, Zeros;
    var incr := Pow2(len - 1);
    ghost var p, d := len, c;
    NoZeros(Word(c + 1, len));
    while incr != 0 && Div(huff, incr) % 2 == 1
      invariant 0 <= p <= len && incr == (if p == 0 then 0 else Pow2(p - 1))
      invariant Bits(huff, p) == Word(d, p) && Word(c + 1, len) == Word(d + 1, p) + Zeros(len - p)
      decreases p
    {
      Carry(huff, p, d, len - p);
      HalfPower(p);
      incr := incr / 2;
      p, d := p - 1, d / 2;
    }
    if incr != 0 {
      Settle(huff, p, d, len, c);
      h := Mod(huff, incr) + incr;
    } else {
      h := 0;
      Cleared(c, d, len);
    }
  }

  lemma NoZeros(s: seq<bool>)
    ensures s + Zeros(0) == s
  {
  }

  lemma HalfPower(p: nat)
    requires p > 0
    ensures Pow2(p - 1) / 2 == if p == 1 then 0 else Pow2(p - 2)
  {
    if p > 1 { PowStep(p - 1); } else { assert Pow2(0) == 1; }
  }

  lemma Cleared(c: nat, d: nat, len: nat)
    requires Word(c + 1, len) == Word(d + 1, 0) + Zeros(len)
    ensures Reversed(0, c + 1, len)
  {
    ZeroBits(len);
  }
}
