/** The canonical prefix code of section 3.2.2 of RFC 1951, given by its code lengths. */
module CanonicalCode {
  import opened Kraft

  const MAX_BITS: nat := 15

  // -- Words ----------------------------------------------------------------------------------------------------

  /** The n bits of v, most significant first. */
  function Word(v: nat, n: nat): (r: seq<bool>)
    ensures |r| == n
  {
    if n == 0 then [] else Word(v / 2, n - 1) + [v % 2 == 1]
  }

  /** The value of a word. */
  function Value(w: seq<bool>): nat {
    if w == [] then 0 else 2 * Value(w[..|w| - 1]) + if w[|w| - 1] then 1 else 0
  }

  lemma {:induction false} ValueOfWord(v: nat, n: nat)
    requires v < Pow2(n)
    ensures Value(Word(v, n)) == v
  {
    if n > 0 {
      ValueOfWord(v / 2, n - 1);
      assert Word(v, n)[..n - 1] == Word(v / 2, n - 1);
    }
  }

  lemma {:induction false} ValueBound(w: seq<bool>)
    ensures Value(w) < Pow2(|w|)
  {
    if w != [] { ValueBound(w[..|w| - 1]); }
  }

  lemma {:induction false} WordOfValue(w: seq<bool>)
    ensures Word(Value(w), |w|) == w
  {
    if w != [] {
      var rest := w[..|w| - 1];
      WordOfValue(rest);
      assert Value(w) / 2 == Value(rest);
      assert w == rest + [w[|w| - 1]];
    }
  }

  lemma DoubleBounds(v: nat, p: nat, value: nat, bit: nat)
    requires v * p <= value < (v + 1) * p && bit <= 1
    ensures v * (2 * p) <= 2 * value + bit < (v + 1) * (2 * p)
  {
    assert v * (2 * p) == 2 * (v * p) && (v + 1) * (2 * p) == 2 * ((v + 1) * p);
  }

  /** A prefix has the leading digits. */
  lemma {:induction false} ValueOfPrefix(w: seq<bool>, n: nat)
    requires n <= |w|
    ensures Value(w[..n]) * Pow2(|w| - n) <= Value(w) < (Value(w[..n]) + 1) * Pow2(|w| - n)
    decreases |w|
  {
    if n < |w| {
      var rest := w[..|w| - 1];
      assert rest[..n] == w[..n];
      ValueOfPrefix(rest, n);
      assert Pow2(|w| - n) == 2 * Pow2(|rest| - n);
      assert Value(w) == 2 * Value(rest) + if w[|w| - 1] then 1 else 0;
      hide Pow2, Value;
      DoubleBounds(Value(w[..n]), Pow2(|rest| - n), Value(rest), if w[|w| - 1] then 1 else 0);
    } else {
      assert w[..n] == w && Pow2(0) == 1;
    }
  }

  // -- Codes ----------------------------------------------------------------------------------------------------

  /** How many of the first n symbols have length b. */
  function Rank(lens: seq<nat>, n: nat, b: nat): nat
    requires n <= |lens|
  {
    if n == 0 then 0 else Rank(lens, n - 1, b) + if lens[n - 1] == b then 1 else 0
  }

  /** How many symbols have the (positive) length b. */
  function Count(lens: seq<nat>, b: nat): nat { if b == 0 then 0 else Rank(lens, |lens|, b) }

  /** The first code word of length b. */
  function FirstOf(lens: seq<nat>, b: nat): nat {
    if b == 0 then 0 else 2 * (FirstOf(lens, b - 1) + Count(lens, b - 1))
  }

  /** The code word of symbol x, as a number. */
  function Code(lens: seq<nat>, x: nat): nat
    requires x < |lens|
  {
    FirstOf(lens, lens[x]) + Rank(lens, x, lens[x])
  }

  function CodeWord(lens: seq<nat>, x: nat): (r: seq<bool>)
    requires x < |lens|
    ensures |r| == lens[x]
  {
    Word(Code(lens, x), lens[x])
  }

  /** The lengths are not over-subscribed: there is room for the words of every length. */
  ghost predicate Subscribed(lens: seq<nat>) {
    && (forall x | 0 <= x < |lens| :: lens[x] <= MAX_BITS)
    && (forall b: nat :: FirstOf(lens, b) + Count(lens, b) <= Pow2(b))
  }

  predicate Uses(lens: seq<nat>, x: nat) { x < |lens| && lens[x] > 0 }

  lemma {:induction false} RankMonotone(lens: seq<nat>, n: nat, m: nat, b: nat)
    requires n <= m <= |lens|
    ensures Rank(lens, n, b) <= Rank(lens, m, b) && (n < m && lens[n] == b ==> Rank(lens, n, b) < Rank(lens, m, b))
    decreases m
  {
    if n < m { RankMonotone(lens, n, m - 1, b); }
  }

  /** A run of equal lengths. */
  lemma {:induction false} RankRun(lens: seq<nat>, n: nat, m: nat, v: nat, b: nat)
    requires n <= m <= |lens| && forall x | n <= x < m :: lens[x] == v
    ensures Rank(lens, m, b) == Rank(lens, n, b) + if v == b then m - n else 0
    decreases m
  {
    if n < m { RankRun(lens, n, m - 1, v, b); }
  }

  /** A code word fits its length, below the words that follow. */
  lemma CodeBelow(lens: seq<nat>, x: nat)
    requires Uses(lens, x)
    ensures Code(lens, x) < FirstOf(lens, lens[x]) + Count(lens, lens[x])
  {
    RankMonotone(lens, x, |lens|, lens[x]);
  }

  lemma CodeFits(lens: seq<nat>, x: nat)
    requires Uses(lens, x) && Subscribed(lens)
    ensures Code(lens, x) < Pow2(lens[x])
  {
    CodeBelow(lens, x);
    assert FirstOf(lens, lens[x]) + Count(lens, lens[x]) <= Pow2(lens[x]);
  }

  /** Longer words come after all shorter ones. */
  lemma {:induction false} FirstGrows(lens: seq<nat>, b: nat, c: nat)
    requires b < c
    ensures FirstOf(lens, c) >= (FirstOf(lens, b) + Count(lens, b)) * Pow2(c - b)
    decreases c
  {
    var f := FirstOf(lens, b) + Count(lens, b);
    if b == c - 1 {
      assert f * Pow2(1) == 2 * f;
    } else {
      FirstGrows(lens, b, c - 1);
      assert f * Pow2(c - b) == 2 * (f * Pow2(c - 1 - b));
    }
  }

  /** Symbols in the order of their code words: by length, then by number. */
  predicate Before(lens: seq<nat>, x: nat, y: nat)
    requires x < |lens| && y < |lens|
  {
    lens[x] < lens[y] || (lens[x] == lens[y] && x < y)
  }

  /** The words of later symbols lie beyond all continuations of an earlier word. */
  lemma CodesOrdered(lens: seq<nat>, x: nat, y: nat)
    requires Uses(lens, x) && Uses(lens, y) && Before(lens, x, y)
    ensures (Code(lens, x) + 1) * Pow2(lens[y] - lens[x]) <= Code(lens, y)
  {
    if lens[x] == lens[y] {
      RankMonotone(lens, x, y, lens[x]);
      assert (Code(lens, x) + 1) * Pow2(0) == Code(lens, x) + 1;
    } else {
      CodeBelow(lens, x);
      FirstGrows(lens, lens[x], lens[y]);
      MulMonotone(Code(lens, x) + 1, FirstOf(lens, lens[x]) + Count(lens, lens[x]), Pow2(lens[y] - lens[x]));
    }
  }

  lemma MulMonotone(a: nat, b: nat, c: nat)
    requires a <= b
    ensures a * c <= b * c
  {
    assert b * c - a * c == (b - a) * c;
  }

  lemma WordValue(lens: seq<nat>, x: nat)
    requires Subscribed(lens) && Uses(lens, x)
    ensures Value(CodeWord(lens, x)) == Code(lens, x)
  {
    CodeFits(lens, x);
    ValueOfWord(Code(lens, x), lens[x]);
  }

  lemma LaterDiffers(lens: seq<nat>, x: nat, y: nat)
    requires Subscribed(lens) && Uses(lens, x) && Uses(lens, y) && Before(lens, x, y)
    ensures !(CodeWord(lens, x) <= CodeWord(lens, y))
  {
    hide Code, Subscribed, CodeWord, Pow2, Value;
    WordValue(lens, x);
    WordValue(lens, y);
    CodesOrdered(lens, x, y);
    if CodeWord(lens, x) <= CodeWord(lens, y) { ValueOfStart(CodeWord(lens, x), CodeWord(lens, y)); }
  }

  lemma ValueOfStart(v: seq<bool>, w: seq<bool>)
    requires v <= w
    ensures Value(w) < (Value(v) + 1) * Pow2(|w| - |v|)
  {
    assert w[..|v|] == v;
    ValueOfPrefix(w, |v|);
  }

  /** No code word is a prefix of another. */
  lemma PrefixesDiffer(lens: seq<nat>, x: nat, y: nat)
    requires Subscribed(lens) && Uses(lens, x) && Uses(lens, y) && x != y
    ensures !(CodeWord(lens, x) <= CodeWord(lens, y))
  {
    if Before(lens, x, y) {
      LaterDiffers(lens, x, y);
    } else {
      LaterDiffers(lens, y, x);
      hide Code, Subscribed, CodeWord;
      assert |CodeWord(lens, y)| <= |CodeWord(lens, x)|;
    }
  }

  lemma PrefixesCompare(v: seq<bool>, w: seq<bool>, bits: seq<bool>)
    requires v <= bits && w <= bits
    ensures v <= w || w <= v
  {
  }

  /** At most one code word starts a given stream of bits. */
  lemma DecodesOnce(lens: seq<nat>, bits: seq<bool>, x: nat, y: nat)
    requires Subscribed(lens) && Uses(lens, x) && Uses(lens, y) && CodeWord(lens, x) <= bits
             && CodeWord(lens, y) <= bits
    ensures x == y
  {
    PrefixesCompare(CodeWord(lens, x), CodeWord(lens, y), bits);
    if x != y {
      PrefixesDiffer(lens, x, y);
      PrefixesDiffer(lens, y, x);
    }
  }

  // -- Lengths that satisfy Kraft's inequality ----------------------------------------------------------------------

  /** What the words shorter than b take of the code space. */
  function Taken(lens: seq<nat>, b: nat, scale: nat): nat
    requires b <= scale + 1
  {
    if b == 0 then 0 else Taken(lens, b - 1, scale) + Count(lens, b - 1) * Pow2(scale - (b - 1))
  }

  lemma Double(f: nat, c: nat, p: nat)
    ensures (2 * (f + c)) * p == f * (2 * p) + c * (2 * p)
  {
  }

  lemma {:induction false} FirstIsTaken(lens: seq<nat>, b: nat, scale: nat)
    requires b <= scale
    ensures FirstOf(lens, b) * Pow2(scale - b) == Taken(lens, b, scale)
  {
    if b > 0 {
      FirstIsTaken(lens, b - 1, scale);
      assert Pow2(scale - (b - 1)) == 2 * Pow2(scale - b);
      Double(FirstOf(lens, b - 1), Count(lens, b - 1), Pow2(scale - b));
    }
  }

  lemma {:induction false} TakenGrows(lens: seq<nat>, b: nat, c: nat, scale: nat)
    requires b <= c <= scale + 1
    ensures Taken(lens, b, scale) <= Taken(lens, c, scale)
    decreases c
  {
    if b < c { TakenGrows(lens, b, c - 1, scale); }
  }

  lemma {:induction false} NoLonger(lens: seq<nat>, n: nat, b: nat)
    requires n <= |lens| && b > MAX_BITS && forall x | 0 <= x < |lens| :: lens[x] <= MAX_BITS
    ensures Rank(lens, n, b) == 0
  {
    if n > 0 { NoLonger(lens, n - 1, b); }
  }

  lemma Cancel(f: nat, c: nat, limit: nat, p: nat)
    requires f * p + c * p <= limit * p && p > 0
    ensures f + c <= limit
  {
    assert (f + c) * p == f * p + c * p && (limit + 1) * p == limit * p + p;
    if f + c > limit { MulMonotone(limit + 1, f + c, p); }
  }

  /** Lengths whose words together take no more than the whole code space are not over-subscribed. */
  lemma {:induction false} KraftSubscribed(lens: seq<nat>, b: nat)
    requires (forall x | 0 <= x < |lens| :: lens[x] <= MAX_BITS)
             && Taken(lens, MAX_BITS + 1, MAX_BITS) <= Pow2(MAX_BITS)
    ensures FirstOf(lens, b) + Count(lens, b) <= Pow2(b)
    decreases b
  {
    if b <= MAX_BITS {
      FirstIsTaken(lens, b, MAX_BITS);
      TakenGrows(lens, b + 1, MAX_BITS + 1, MAX_BITS);
      Pow2Add(b, MAX_BITS - b);
      assert Taken(lens, b + 1, MAX_BITS) == Taken(lens, b, MAX_BITS) + Count(lens, b) * Pow2(MAX_BITS - b);
      hide Pow2, Taken, FirstOf, Count;
      Cancel(FirstOf(lens, b), Count(lens, b), Pow2(b), Pow2(MAX_BITS - b));
    } else {
      KraftSubscribed(lens, b - 1);
      NoLonger(lens, |lens|, b);
    }
  }
}
