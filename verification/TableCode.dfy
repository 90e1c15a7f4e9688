/** What inflate_table of inftrees.c rests on: symbols sorted by code word, words incremented with their bits reversed,
    and the words that share the first bits of another. */
module TableCode {
  import opened Kraft
  import opened CanonicalCode
  import opened GenCodes
  import opened BlockCode

  // -- Bits in the order of the stream --------------------------------------------------------------------------

  function Zeros(n: nat): (r: seq<bool>)
    ensures |r| == n
  {
    if n == 0 then [] else [false] + Zeros(n - 1)
  }

  lemma {:induction false} ZeroBits(n: nat)
    ensures Bits(0, n) == Zeros(n)
  {
    if n > 0 { ZeroBits(n - 1); }
  }

  lemma {:induction false} ZerosEnd(n: nat)
    ensures Zeros(n + 1) == Zeros(n) + [false]
  {
    if n > 0 { ZerosEnd(n - 1); }
  }

  lemma {:induction false} FromFits(s: seq<bool>)
    ensures FromBits(s) < Pow2(|s|) && Bits(FromBits(s), |s|) == s
  {
    if s != [] {
      FromFits(s[1..]);
      assert s == [s[0]] + s[1..];
    }
  }

  /** The low n bits as a number, and what is above them. */
  function LowPart(v: nat, n: nat): nat { Mod(v, Pow2(n)) }

  function Mod(v: nat, p: nat): nat
    requires p > 0
  {
    v % p
  }

  function HighPart(v: nat, n: nat): nat { Div(v, Pow2(n)) }

  function Div(v: nat, p: nat): nat
    requires p > 0
  {
    v / p
  }

  lemma HalfSplit(v: nat, a: nat)
    requires a > 0
    ensures HighPart(v / 2, a - 1) == HighPart(v, a) && LowPart(v, a) == v % 2 + 2 * LowPart(v / 2, a - 1)
  {
    var p := Pow2(a - 1);
    var q, r := v / 2 / p, v / 2 % p;
    hide Pow2;
    DivMod(v / 2, p);
    DoubleOut(q, p);
    assert v == q * (2 * p) + (2 * r + v % 2);
    assert Pow2(a) == 2 * p by { PowStep(a); }
    Quotient(v, 2 * p, q, 2 * r + v % 2);
  }

  lemma PowStep(a: nat)
    requires a > 0
    ensures Pow2(a) == 2 * Pow2(a - 1)
  {
  }

  lemma DivMod(v: nat, p: nat)
    requires p > 0
    ensures v == v / p * p + v % p && 0 <= v % p < p
  {
  }

  lemma DoubleOut(q: nat, p: nat)
    ensures q * (2 * p) == 2 * (q * p)
  {
  }

  lemma Quotient(v: nat, p: nat, q: nat, r: nat)
    requires p > 0 && v == q * p + r && r < p
    ensures v / p == q && v % p == r
  {
    DivMod(v, p);
    var d := q - v / p;
    assert d * p == v % p - r by { Distribute(q, v / p, p); }
    if d > 0 { CanonicalCode.MulMonotone(1, d, p); }
  }

  lemma Distribute(a: nat, b: nat, p: nat)
    ensures (a - b) * p == a * p - b * p
  {
  }

  /** The low bits, and the bits above them. */
  lemma {:induction false} BitsSplit(v: nat, a: nat, b: nat)
    ensures Bits(v, a + b) == Bits(v, a) + Bits(HighPart(v, a), b) && Bits(LowPart(v, a), a) == Bits(v, a)
    decreases a
  {
    if a > 0 {
      BitsSplit(v / 2, a - 1, b);
      HalfSplit(v, a);
      hide HighPart, LowPart;
      var low := LowPart(v, a);
      assert low % 2 == v % 2 && low / 2 == LowPart(v / 2, a - 1);
    } else {
      assert v / Pow2(0) == v;
    }
  }

  lemma LowBelow(v: nat, n: nat)
    ensures LowPart(v, n) < Pow2(n)
  {
    DivMod(v, Pow2(n));
  }

  /** The low bits of v, as a number. */
  lemma FromLow(v: nat, n: nat)
    ensures FromBits(Bits(v, n)) == LowPart(v, n) < Pow2(n)
  {
    hide LowPart;
    BitsSplit(v, n, 0);
    LowBelow(v, n);
    FromToBits(LowPart(v, n), n);
  }

  lemma {:induction false} HighZero(v: nat, n: nat, m: nat)
    requires v < Pow2(n)
    ensures Bits(v, n + m) == Bits(v, n) + Zeros(m)
  {
    BitsSplit(v, n, m);
    Quotient(v, Pow2(n), 0, v);
    ZeroBits(m);
  }

  /** A code word, stored with its bits reversed. */
  ghost predicate Reversed(huff: nat, c: nat, len: nat) { huff < Pow2(len) && Bits(huff, len) == Word(c, len) }

  lemma ReversedLonger(huff: nat, c: nat, len: nat, more: nat)
    requires Reversed(huff, c, len)
    ensures Reversed(huff, c * Pow2(more), len + more)
  {
    HighZero(huff, len, more);
    WordZeros(c, len, more);
    Pow2Monotone(len, len + more);
  }

  lemma {:induction false} WordZeros(c: nat, len: nat, more: nat)
    ensures Word(c * Pow2(more), len + more) == Word(c, len) + Zeros(more)
  {
    if more > 0 {
      WordZeros(c, len, more - 1);
      var d := c * Pow2(more - 1);
      assert c * Pow2(more) == 2 * d by { DoubleOut(c, Pow2(more - 1)); }
      ZerosEnd(more - 1);
    } else {
      assert c * Pow2(0) == c;
    }
  }

  // -- Sorted symbols -------------------------------------------------------------------------------------------

  /** Where the symbols of length b start in the sorted order. */
  function Offs(lens: seq<nat>, b: nat): nat { if b <= 1 then 0 else Offs(lens, b - 1) + Count(lens, b - 1) }

  function Place(lens: seq<nat>, x: nat): nat
    requires x < |lens|
  {
    Offs(lens, lens[x]) + Rank(lens, x, lens[x])
  }

  lemma {:induction false} OffsGrow(lens: seq<nat>, b: nat, c: nat)
    requires 0 < b < c
    ensures Offs(lens, b) + Count(lens, b) <= Offs(lens, c)
    decreases c
  {
    if b < c - 1 { OffsGrow(lens, b, c - 1); }
  }

  lemma PlacesDiffer(lens: seq<nat>, x: nat, y: nat)
    requires Uses(lens, x) && Uses(lens, y) && Before(lens, x, y)
    ensures Place(lens, x) < Place(lens, y)
  {
    RankMonotone(lens, x, |lens|, lens[x]);
    if lens[x] < lens[y] { OffsGrow(lens, lens[x], lens[y]); } else { RankMonotone(lens, x, y, lens[x]); }
  }

  /** As Offs, among the first n symbols. */
  function OffsAmong(lens: seq<nat>, n: nat, b: nat): nat
    requires n <= |lens|
  {
    if b <= 1 then 0 else OffsAmong(lens, n, b - 1) + Rank(lens, n, b - 1)
  }

  lemma {:induction false} OffsIsAmong(lens: seq<nat>, b: nat)
    ensures Offs(lens, b) == OffsAmong(lens, |lens|, b)
  {
    if b > 1 { OffsIsAmong(lens, b - 1); }
  }

  lemma {:induction false} OneMoreAmong(lens: seq<nat>, n: nat, b: nat)
    requires n < |lens|
    ensures OffsAmong(lens, n + 1, b) == OffsAmong(lens, n, b) + if 0 < lens[n] < b then 1 else 0
    decreases b
  {
    if b > 1 { OneMoreAmong(lens, n, b - 1); }
  }

  lemma {:induction false} AmongBound(lens: seq<nat>, n: nat, b: nat)
    requires n <= |lens|
    ensures OffsAmong(lens, n, b) <= n
    decreases n
  {
    if n > 0 {
      AmongBound(lens, n - 1, b);
      OneMoreAmong(lens, n - 1, b);
    } else {
      NoneAmong(lens, b);
    }
  }

  lemma {:induction false} NoneAmong(lens: seq<nat>, b: nat)
    ensures OffsAmong(lens, 0, b) == 0
  {
    if b > 1 { NoneAmong(lens, b - 1); }
  }

  lemma PlaceBound(lens: seq<nat>, x: nat)
    requires Uses(lens, x)
    ensures Place(lens, x) < |lens|
  {
    RankMonotone(lens, x, |lens|, lens[x]);
    OffsIsAmong(lens, lens[x] + 1);
    AmongBound(lens, |lens|, lens[x] + 1);
  }

  /** The symbol among the first n of length b and rank r. */
  function Nth(lens: seq<nat>, n: nat, b: nat, r: nat): (y: nat)
    requires n <= |lens| && r < Rank(lens, n, b)
    ensures y < n && lens[y] == b && Rank(lens, y, b) == r
    decreases n
  {
    if lens[n - 1] == b && Rank(lens, n - 1, b) == r then n - 1 else Nth(lens, n - 1, b, r)
  }

  /** The symbol at rank r of length b, which is in use. */
  ghost predicate At(lens: seq<nat>, b: nat, r: nat, y: nat) { Uses(lens, y) && lens[y] == b && Rank(lens, y, b) == r }

  lemma SymbolAt(lens: seq<nat>, b: nat, r: nat) returns (y: nat)
    requires b > 0 && r < Count(lens, b)
    ensures At(lens, b, r, y)
  {
    y := Nth(lens, |lens|, b, r);
  }

  lemma AtUnique(lens: seq<nat>, b: nat, r: nat, y: nat, z: nat)
    requires At(lens, b, r, y) && At(lens, b, r, z)
    ensures y == z
  {
    if y < z { RankMonotone(lens, y, z, b); }
    if z < y { RankMonotone(lens, z, y, b); }
  }

  /** The symbols that come before rank r of length b. */
  ghost predicate Done(lens: seq<nat>, b: nat, r: nat, x: nat)
  {
    Uses(lens, x) && (lens[x] < b || (lens[x] == b && Rank(lens, x, b) < r))
  }

  lemma DoneBefore(lens: seq<nat>, b: nat, r: nat, x: nat, y: nat)
    requires At(lens, b, r, y) && Uses(lens, x)
    ensures Done(lens, b, r, x) <==> Before(lens, x, y)
    ensures Done(lens, b, r, x) || x == y || Before(lens, y, x)
  {
    if lens[x] == b {
      if x < y { RankMonotone(lens, x, y, b); }
      if y < x { RankMonotone(lens, y, x, b); }
    }
  }

  lemma DoneNext(lens: seq<nat>, b: nat, r: nat, y: nat, x: nat)
    requires At(lens, b, r, y)
    ensures Done(lens, b, r + 1, x) <==> Done(lens, b, r, x) || x == y
  {
    if Uses(lens, x) && lens[x] == b && Rank(lens, x, b) == r { AtUnique(lens, b, r, x, y); }
  }

  /** No symbol has a length between b and c. */
  ghost predicate Gap(lens: seq<nat>, b: nat, c: nat) { b < c && forall d :: b < d < c ==> Count(lens, d) == 0 }

  lemma DoneSkips(lens: seq<nat>, b: nat, c: nat, x: nat)
    requires 0 < b && Gap(lens, b, c)
    ensures Done(lens, c, 0, x) <==> Done(lens, b, Count(lens, b), x)
  {
    if Uses(lens, x) {
      RankMonotone(lens, x, |lens|, lens[x]);
      assert Count(lens, lens[x]) > 0;
    }
  }

  lemma {:induction false} OffsSkips(lens: seq<nat>, b: nat, c: nat)
    requires 0 < b && Gap(lens, b, c)
    ensures Offs(lens, c) == Offs(lens, b) + Count(lens, b)
    decreases c
  {
    if b < c - 1 { OffsSkips(lens, b, c - 1); }
  }

  // -- Codes ----------------------------------------------------------------------------------------------------

  /** The word after the last one of length b. */
  function End(lens: seq<nat>, b: nat): nat { FirstOf(lens, b) + Count(lens, b) }

  lemma {:induction false} EndSkips(lens: seq<nat>, b: nat, c: nat)
    requires Gap(lens, b, c)
    ensures FirstOf(lens, c) == End(lens, b) * Pow2(c - b)
    decreases c
  {
    if b < c - 1 {
      EndSkips(lens, b, c - 1);
      DoubleOut(End(lens, b), Pow2(c - 1 - b));
    } else {
      assert Pow2(1) == 2;
    }
  }

  /** The first bits of a code word. */
  function Prefix(lens: seq<nat>, x: nat, root: nat): (r: seq<bool>)
    requires x < |lens| && root <= lens[x]
    ensures |r| == root
  {
    CodeWord(lens, x)[..root]
  }

  /** Their value, against that of the whole. */
  lemma PrefixValue(lens: seq<nat>, x: nat, root: nat) returns (p: nat)
    requires Subscribed(lens) && Uses(lens, x) && root <= lens[x]
    ensures p == Value(Prefix(lens, x, root))
    ensures p * Pow2(lens[x] - root) <= Code(lens, x) < (p + 1) * Pow2(lens[x] - root)
  {
    hide Subscribed, Code, CodeWord;
    WordValue(lens, x);
    p := Value(Prefix(lens, x, root));
    ValueOfPrefix(CodeWord(lens, x), root);
  }

  lemma PrefixSame(lens: seq<nat>, x: nat, y: nat, root: nat)
    requires x < |lens| && y < |lens| && root <= lens[x] && root <= lens[y]
    requires Value(Prefix(lens, x, root)) == Value(Prefix(lens, y, root))
    ensures Prefix(lens, x, root) == Prefix(lens, y, root)
  {
    hide CodeWord;
    WordOfValue(Prefix(lens, x, root));
    WordOfValue(Prefix(lens, y, root));
  }

  lemma Squeeze(p: nat, q: nat, cx: nat, cy: nat, m: nat, d: nat)
    requires p * m <= cx && cy < (q + 1) * (m * d) && (cx + 1) * d <= cy && d > 0
    ensures p <= q
  {
    if q + 1 <= p {
      CanonicalCode.MulMonotone(q + 1, p, m * d);
      CanonicalCode.MulMonotone(p * m, cx, d);
      Associate(p, m, d);
    }
  }

  lemma Associate(a: nat, b: nat, c: nat)
    ensures a * (b * c) == (a * b) * c
  {
  }

  /** First bits never decrease in the order of the symbols. */
  lemma PrefixOrder(lens: seq<nat>, x: nat, y: nat, root: nat)
    requires Subscribed(lens) && Uses(lens, x) && Uses(lens, y) && Before(lens, x, y) && root <= lens[x]
    ensures Value(Prefix(lens, x, root)) <= Value(Prefix(lens, y, root))
  {
    hide Subscribed, Code, CodeWord, Pow2, Value;
    var p := PrefixValue(lens, x, root);
    var q := PrefixValue(lens, y, root);
    CodesOrdered(lens, x, y);
    Pow2Add(lens[x] - root, lens[y] - lens[x]);
    Squeeze(p, q, Code(lens, x), Code(lens, y), Pow2(lens[x] - root), Pow2(lens[y] - lens[x]));
  }

  /** Once they have changed they do not come back. */
  lemma PrefixNew(lens: seq<nat>, x: nat, y: nat, z: nat, root: nat)
    requires Subscribed(lens) && Uses(lens, x) && Uses(lens, y) && Uses(lens, z) && root <= lens[x]
    requires (x == y || Before(lens, x, y)) && Before(lens, y, z) && Prefix(lens, y, root) != Prefix(lens, z, root)
    ensures Prefix(lens, x, root) != Prefix(lens, z, root)
  {
    hide Subscribed, Code, CodeWord, Pow2, Value, Prefix;
    if x != y { PrefixOrder(lens, x, y, root); }
    PrefixOrder(lens, y, z, root);
    if Prefix(lens, x, root) == Prefix(lens, z, root) {
      PrefixSame(lens, y, z, root);
      assert false;
    }
  }

  lemma Beyond(end: nat, c: nat, p: nat, a: nat, b: nat, m: nat, d: nat)
    requires end >= a + c * b && p * a <= c * b && m == a * d
    ensures end * d >= (p + 1) * m
  {
    CanonicalCode.MulMonotone(a + p * a, end, d);
    assert (a + p * a) * d == (p + 1) * m by {
      assert a + p * a == (p + 1) * a;
      Associate(p + 1, a, d);
    }
  }

  /** When the words up to length b fill what the first bits of y leave, longer words have other first bits. */
  lemma LongerElsewhere(lens: seq<nat>, root: nat, y: nat, b: nat, z: nat)
    requires Subscribed(lens) && Uses(lens, y) && Uses(lens, z) && root <= lens[y] <= b < lens[z]
    requires End(lens, b) >= Pow2(b - root) + Code(lens, y) * Pow2(b - lens[y])
    ensures Prefix(lens, z, root) != Prefix(lens, y, root)
  {
    hide Subscribed, CodeWord, Pow2, Value, Prefix, FirstOf, Count;
    if Prefix(lens, z, root) == Prefix(lens, y, root) {
      var p := PrefixValue(lens, y, root);
      var q := PrefixValue(lens, z, root);
      FirstGrows(lens, b, lens[z]);
      var c, d, e, m := Code(lens, y), Pow2(lens[z] - b), Pow2(b - lens[y]), Pow2(lens[z] - root);
      Pow2Add(b - root, lens[z] - b);
      Pow2Add(lens[y] - root, b - lens[y]);
      CanonicalCode.MulMonotone(p * Pow2(lens[y] - root), c, e);
      Associate(p, Pow2(lens[y] - root), e);
      Beyond(End(lens, b), c, p, Pow2(b - root), e, m, d);
    }
  }

  // -- Complete codes -------------------------------------------------------------------------------------------

  /** The words fill the code space. */
  ghost predicate Full(lens: seq<nat>) { Subscribed(lens) && End(lens, MAX_BITS) == Pow2(MAX_BITS) }

  lemma FullIsKraft(lens: seq<nat>)
    ensures End(lens, MAX_BITS) == Taken(lens, MAX_BITS + 1, MAX_BITS)
  {
    FirstIsTaken(lens, MAX_BITS, MAX_BITS);
    hide FirstOf, Count;
    assert Taken(lens, MAX_BITS + 1, MAX_BITS) == Taken(lens, MAX_BITS, MAX_BITS) + Count(lens, MAX_BITS) * Pow2(0);
  }

  /** The first n bits are a code word, or lie beyond all words of at most n bits. */
  lemma {:induction false} WordOrBeyond(lens: seq<nat>, s: seq<bool>, n: nat)
    requires n <= |s|
    ensures (exists x: nat :: Starts(lens, s, x)) || Value(s[..n]) >= End(lens, n)
  {
    if n > 0 {
      WordOrBeyond(lens, s, n - 1);
      assert s[..n][..n - 1] == s[..n - 1];
      var v := Value(s[..n]);
      if FirstOf(lens, n) <= v < End(lens, n) {
        var x := SymbolAt(lens, n, v - FirstOf(lens, n));
        assert Code(lens, x) == v;
        WordOfValue(s[..n]);
        assert Starts(lens, s, x);
      }
    }
  }

  /** Every stream starts with a word of a complete code. */
  lemma FullDecodes(lens: seq<nat>, s: seq<bool>) returns (x: nat)
    requires Full(lens) && |s| >= MAX_BITS
    ensures Starts(lens, s, x)
  {
    WordOrBeyond(lens, s, MAX_BITS);
    ValueBound(s[..MAX_BITS]);
    x :| Starts(lens, s, x);
  }
}
