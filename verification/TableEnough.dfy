/** Why ENOUGH is enough: for codes of as many symbols as the format has, and the index bits that inflate asks for, the
    tables of inftrees.c never take more space than there is. */
module TableEnough {
  import opened Kraft
  import opened CanonicalCode
  import opened TableCode
  import opened DecodeTable
  import opened TableSpace
  import opened TableSteps
  import BlockHeader
  import InflateTable

  /** The numbers of symbols that TABLE lets through, and the index bits that inflate asks for. */
  const MAX_LENS: nat := 286
  const MAX_DISTS: nat := 30

  predicate Asked(kind: Kind, symbols: nat, bits: nat) {
    match kind
    case Codes => true
    case Lens => symbols <= MAX_LENS && bits == 9
    case Dists => symbols <= MAX_DISTS && bits == 6
  }

  // -- From symbol to symbol ------------------------------------------------------------------------------------

  ghost function Counts(lens: seq<nat>, len: nat, r: nat): (count: seq<nat>)
    requires r <= Count(lens, len)
    ensures Left(lens, count, len, r)
  {
    seq(MAX_BITS + 1, (b: nat) requires b <= MAX_BITS => if b == len then Count(lens, len) - r else Count(lens, b))
  }

  lemma NextSymbol(lens: seq<nat>, max: nat, len: nat, r: nat, y: nat) returns (m: nat, q: nat, z: nat)
    requires At(lens, len, r, y) && len <= max <= MAX_BITS && Count(lens, max) > 0
             && !(len == max && r + 1 == Count(lens, max))
    ensures Follows(lens, len, r, y, m, q, z) && len <= m <= max && Place(lens, z) == Place(lens, y) + 1
    ensures Code(lens, z) == (Code(lens, y) + 1) * Pow2(m - len)
            && (m == len || (q == 0 && Gap(lens, len, m) && r + 1 == Count(lens, len)))
  {
    hide Count, Code, Place, Rank;
    CodeAt(lens, len, r, y);
    var count := Counts(lens, len, r);
    if r + 1 < Count(lens, len) {
      m, q := len, r + 1;
      z := InflateTable.SameLength(lens, len, r, y, count);
      assert (Code(lens, y) + 1) * Pow2(0) == Code(lens, y) + 1;
    } else {
      m, z := InflateTable.NextLonger(lens, len, r, y, count, max);
      q := 0;
    }
  }

  // -- The size of a sub-table ----------------------------------------------------------------------------------

  lemma {:induction false} SubBitsBounds(lens: seq<nat>, y: nat, root: nat, max: nat, b: nat)
    requires y < |lens| && root < lens[y] <= b <= max
    ensures b - root <= SubBits(lens, y, root, max, b) <= max - root
    decreases max - b
  {
    hide Room, Count;
    if SubBits(lens, y, root, max, b) != b - root { SubBitsBounds(lens, y, root, max, b + 1); }
  }

  /** A length whose words fill the sub-table is at least its depth. */
  lemma {:induction false} SubBitsFilled(lens: seq<nat>, y: nat, root: nat, max: nat, b: nat, c: nat)
    requires Uses(lens, y) && root < lens[y] <= b <= c
    requires Room(lens, y, Rank(lens, y, lens[y]), root, c)
             <= Count(lens, c) - (if c == lens[y] then Rank(lens, y, lens[y]) else 0)
    ensures SubBits(lens, y, root, max, b) <= c - root
    decreases c - b
  {
    hide Room, Count, Rank;
    if b < c { SubBitsFilled(lens, y, root, max, b + 1, c); }
  }

  /** The sub-table of the words with first bits p was opened by o, with d index bits. */
  ghost predicate OpenedBy(lens: seq<nat>, root: nat, max: nat, p: nat, o: nat, d: nat) {
    Uses(lens, o) && root < lens[o] <= max && Code(lens, o) == p * Pow2(lens[o] - root)
    && d == SubBits(lens, o, root, max, lens[o])
  }

  /** It is no deeper than the last of the words that fill it is long. */
  lemma DepthReached(lens: seq<nat>, root: nat, max: nat, p: nat, o: nat, d: nat, len: nat)
    requires OpenedBy(lens, root, max, p, o, d) && lens[o] <= len && (p + 1) * Pow2(len - root) <= End(lens, len)
    ensures d <= len - root
  {
    hide FirstOf, Code, Room, SubBits;
    var q := Rank(lens, o, lens[o]);
    RankMonotone(lens, o, |lens|, lens[o]);
    assert Count(lens, lens[o]) == Rank(lens, |lens|, lens[o]);
    RoomNext(lens, lens[o], q, o, root, len, if len == lens[o] then Count(lens, len) - q else Count(lens, len));
    Pow2Add(lens[o] - root, len - lens[o]);
    Associate(p, Pow2(lens[o] - root), Pow2(len - lens[o]));
    assert (p + 1) * Pow2(len - root) == p * Pow2(len - root) + Pow2(len - root);
    hide Pow2, Rank;
    SubBitsFilled(lens, o, root, max, lens[o], len);
  }

  // -- Counting the symbols -------------------------------------------------------------------------------------

  /** The entries of the sub-tables up to rank r of length len. */
  ghost function Sub(lens: seq<nat>, root: nat, max: nat, len: nat, r: nat): int {
    SpaceTo(lens, root, max, len, r + 1) - Pow2(root)
  }

  /** The words between the code word c, of n bits more than the first bits p, and the end of their sub-table. */
  function Behind(p: nat, c: nat, n: nat): int { (p + 1) * Pow2(n) - (c + 1) }

  /** Up to y, in the sub-table of p with d index bits, opened by o: each sub-table before has needed as many symbols as
      it has entries, all but those that the depth of the last one makes up for. */
  ghost predicate Counting(lens: seq<nat>, root: nat, max: nat, len: nat, r: nat, y: nat, p: nat, o: nat, d: nat)
    requires y < |lens|
  {
    var s, n := Sub(lens, root, max, len, r), len - root;
    root < len <= max && OpenedBy(lens, root, max, p, o, d) && lens[o] <= len
    && p * Pow2(n) <= Code(lens, y) && Behind(p, Code(lens, y), n) >= 0
    && s % 2 == 0 && d > 0 && s - Pow2(d) >= 2 * (p - End(lens, root)) && p >= End(lens, root)
    && Place(lens, y) + 1 + Behind(p, Code(lens, y), n) >= Offs(lens, root + 1) + 1 + s - Pow2(d) + n
  }

  lemma {:induction false} PowGap(a: nat, b: nat)
    requires a <= b
    ensures Pow2(b) - b >= Pow2(a) - a
    decreases b
  {
    if a < b { PowGap(a, b - 1); }
  }

  lemma PowEven(d: nat)
    requires d > 0
    ensures Pow2(d) % 2 == 0 && Pow2(d) >= 2
  {
    assert Pow2(d) == 2 * Pow2(d - 1);
  }

  // -- The next symbol in the same sub-table ------------------------------------------------------------------------

  lemma SameStep(off: int, n: int, s: int, e: int, b: int, t: nat, c: nat, p: nat, a: nat)
    requires n + (p + 1) * a - c >= off + 1 + s - e + b && c * Pow2(t) < (p + 1) * (a * Pow2(t)) && p * a <= c
    ensures n + 1 + (p + 1) * (a * Pow2(t)) - (c * Pow2(t) + 1) >= off + 1 + s - e + b + t
    ensures p * (a * Pow2(t)) <= c * Pow2(t)
  {
    var u, f := (p + 1) * a - c, Pow2(t);
    Associate(p + 1, a, f);
    Associate(p, a, f);
    Distribute((p + 1) * a, c, f);
    CanonicalCode.MulMonotone(p * a, c, f);
    PowGap(0, t);
    assert Pow2(0) == 1;
    assert u * f > 0;
    if u <= 0 { NotPositive(u, f); }
    assert u * f >= u + (f - 1) by { Grows(u, f); }
  }

  lemma NotPositive(u: int, f: nat)
    requires u <= 0
    ensures u * f <= 0
  {
  }

  lemma Grows(u: int, f: nat)
    requires u >= 1 && f >= 1
    ensures u * f >= u + (f - 1)
  {
    assert (u - 1) * (f - 1) >= 0;
  }

  lemma SameTable(lens: seq<nat>, root: nat, max: nat, len: nat, r: nat, y: nat, p: nat, o: nat, d: nat, m: nat, q: nat,
                  z: nat)
    requires Subscribed(lens) && Follows(lens, len, r, y, m, q, z) && len <= m <= max
    requires Place(lens, z) == Place(lens, y) + 1 && Code(lens, z) == (Code(lens, y) + 1) * Pow2(m - len)
    requires Counting(lens, root, max, len, r, y, p, o, d) && Code(lens, z) < (p + 1) * Pow2(m - root)
    requires Sub(lens, root, max, m, q) == Sub(lens, root, max, len, r)
    ensures Counting(lens, root, max, m, q, z, p, o, d)
  {
    hide Subscribed, Code, Place, SpaceTo, FirstOf, Count, Offs, OpenedBy;
    assert Uses(lens, y) && Uses(lens, z);
    hide Follows, Done;
    Pow2Add(len - root, m - len);
    var s := Sub(lens, root, max, len, r);
    hide Sub;
    SameStep(Offs(lens, root + 1), Place(lens, y) + 1, s, Pow2(d), len - root, m - len, Code(lens, y) + 1, p,
             Pow2(len - root));
  }

  // -- A symbol that opens a sub-table ------------------------------------------------------------------------------

  lemma DepthOf(lens: seq<nat>, root: nat, max: nat, z: nat) returns (d: nat)
    requires Uses(lens, z) && root < lens[z] <= max
    ensures d == SubBits(lens, z, root, max, lens[z]) && 0 < d <= max - root
    ensures SubSize(lens, z, root, max) == Pow2(d) && Pow2(d) % 2 == 0 && Pow2(d) >= 2
  {
    d := SubBits(lens, z, root, max, lens[z]);
    SubBitsBounds(lens, z, root, max, lens[z]);
    PowEven(d);
  }

  lemma JustFilled(c: nat, p: nat, a: nat, f: nat)
    requires c <= (p + 1) * a && c * f >= (p + 1) * (a * f) && f > 0
    ensures c == (p + 1) * a
  {
    Associate(p + 1, a, f);
    if c < (p + 1) * a { CanonicalCode.MulMonotone(c + 1, (p + 1) * a, f); }
  }

  /** The sub-table before is full. */
  lemma Filled(lens: seq<nat>, root: nat, max: nat, len: nat, r: nat, y: nat, p: nat, o: nat, d: nat, m: nat)
    requires Uses(lens, y) && lens[y] == len <= m
    requires Counting(lens, root, max, len, r, y, p, o, d)
             && (Code(lens, y) + 1) * Pow2(m - len) >= (p + 1) * Pow2(m - root)
    ensures Behind(p, Code(lens, y), len - root) == 0 && d <= len - root
    ensures (Code(lens, y) + 1) * Pow2(m - len) == (p + 1) * Pow2(m - root)
  {
    CodeBelow(lens, y);
    hide Code, FirstOf, Count, Place, Sub, Offs, OpenedBy;
    Pow2Add(len - root, m - len);
    JustFilled(Code(lens, y) + 1, p, Pow2(len - root), Pow2(m - len));
    Associate(p + 1, Pow2(len - root), Pow2(m - len));
    DepthReached(lens, root, max, p, o, d, len);
  }

  /** The first symbol of a sub-table, where those before have t entries. */
  lemma Opening(lens: seq<nat>, root: nat, max: nat, m: nat, q: nat, z: nat, p: nat, t: int) returns (e: nat)
    requires Uses(lens, z) && lens[z] == m && root < m <= max && Code(lens, z) == p * Pow2(m - root)
             && p >= End(lens, root)
    requires Sub(lens, root, max, m, q) == t + SubSize(lens, z, root, max) && t % 2 == 0
             && t >= 2 * (p - End(lens, root))
    requires Place(lens, z) + Pow2(m - root) >= Offs(lens, root + 1) + 1 + t + (m - root)
    ensures Counting(lens, root, max, m, q, z, p, z, e)
  {
    hide Code, End, Place, Sub, Offs, SubBits, SubSize, Pow2;
    e := DepthOf(lens, root, max, z);
    OneIn(p, Pow2(m - root));
  }

  lemma OneIn(p: nat, a: nat)
    requires a > 0
    ensures (p + 1) * a == p * a + a
  {
  }

  lemma NewTable(lens: seq<nat>, root: nat, max: nat, len: nat, r: nat, y: nat, p: nat, o: nat, d: nat, m: nat, q: nat,
                 z: nat) returns (e: nat)
    requires Follows(lens, len, r, y, m, q, z) && len <= m <= max
    requires Place(lens, z) == Place(lens, y) + 1 && Code(lens, z) == (Code(lens, y) + 1) * Pow2(m - len)
    requires Counting(lens, root, max, len, r, y, p, o, d) && Code(lens, z) >= (p + 1) * Pow2(m - root)
    requires Sub(lens, root, max, m, q) == Sub(lens, root, max, len, r) + SubSize(lens, z, root, max)
    ensures Counting(lens, root, max, m, q, z, p + 1, z, e)
  {
    hide Code, End, Place, Sub, Offs, SubBits, SubSize, OpenedBy;
    assert Uses(lens, y) && lens[y] == len && Uses(lens, z) && lens[z] == m;
    hide Follows, Done;
    Filled(lens, root, max, len, r, y, p, o, d, m);
    PowEven(d);
    PowGap(d, len - root);
    PowGap(len - root, m - root);
    hide Pow2;
    e := Opening(lens, root, max, m, q, z, p + 1, Sub(lens, root, max, len, r));
  }

  lemma FirstTable(lens: seq<nat>, root: nat, max: nat, len: nat, m: nat, z: nat) returns (e: nat)
    requires 0 < root && len <= root < m <= max && Gap(lens, len, m) && At(lens, m, 0, z)
    requires Sub(lens, root, max, m, 0) == SubSize(lens, z, root, max)
    ensures Counting(lens, root, max, m, 0, z, End(lens, root), z, e)
  {
    CodeAt(lens, m, 0, z);
    EndSkips(lens, root, m);
    OffsSkips(lens, root, m);
    PowGap(0, m - root);
    assert Pow2(0) == 1 && Place(lens, z) == Offs(lens, root + 1);
    hide Code, FirstOf, Count, Place, Sub, SubBits, SubSize, Rank, Offs, Pow2;
    e := Opening(lens, root, max, m, 0, z, End(lens, root), 0);
  }

  // -- All the symbols ----------------------------------------------------------------------------------------------

  /** The first bits are those for which p stands. */
  lemma Between(p: nat, q: nat, c: nat, a: nat)
    requires p * a <= c < (q + 1) * a && q * a <= c < (p + 1) * a
    ensures p == q
  {
    if p < q { CanonicalCode.MulMonotone(p + 1, q, a); }
    if q < p { CanonicalCode.MulMonotone(q + 1, p, a); }
  }

  lemma PrefixIs(lens: seq<nat>, root: nat, y: nat, p: nat)
    requires Subscribed(lens) && Uses(lens, y) && root <= lens[y]
    ensures Value(Prefix(lens, y, root)) == p
            <==> p * Pow2(lens[y] - root) <= Code(lens, y) < (p + 1) * Pow2(lens[y] - root)
  {
    hide Subscribed, Code, Prefix, Value, Pow2;
    var q := PrefixValue(lens, y, root);
    if p * Pow2(lens[y] - root) <= Code(lens, y) < (p + 1) * Pow2(lens[y] - root) {
      Between(p, q, Code(lens, y), Pow2(lens[y] - root));
    }
  }

  lemma Monotone(p: nat, c: nat, a: nat, f: nat)
    requires p * a <= c
    ensures p * (a * f) <= (c + 1) * f
  {
    Associate(p, a, f);
    CanonicalCode.MulMonotone(p * a, c + 1, f);
  }

  /** The next symbol is in the same sub-table just when its word is not behind it. */
  lemma PrefixTells(lens: seq<nat>, root: nat, y: nat, z: nat, p: nat)
    requires Subscribed(lens) && Uses(lens, y) && Uses(lens, z) && root < lens[y] <= lens[z]
    requires p * Pow2(lens[y] - root) <= Code(lens, y) < (p + 1) * Pow2(lens[y] - root)
    requires Code(lens, z) == (Code(lens, y) + 1) * Pow2(lens[z] - lens[y])
    ensures Prefix(lens, y, root) == Prefix(lens, z, root) <==> Code(lens, z) < (p + 1) * Pow2(lens[z] - root)
  {
    hide Subscribed, Code, Prefix, Value, CodeWord;
    PrefixIs(lens, root, y, p);
    PrefixIs(lens, root, z, p);
    Pow2Add(lens[y] - root, lens[z] - lens[y]);
    hide Pow2;
    Monotone(p, Code(lens, y), Pow2(lens[y] - root), Pow2(lens[z] - lens[y]));
    if Value(Prefix(lens, z, root)) == p { PrefixSame(lens, y, z, root); }
  }

  lemma SubNext(lens: seq<nat>, root: nat, max: nat, len: nat, r: nat, y: nat, m: nat, q: nat, z: nat)
    requires Subscribed(lens) && Follows(lens, len, r, y, m, q, z)
    ensures z < |lens| && y < |lens| && lens[y] == len && lens[z] == m && Uses(lens, y) && Uses(lens, z)
    ensures Sub(lens, root, max, m, q)
         == Sub(lens, root, max, len, r)
          + if m > root && (len > root ==> Prefix(lens, y, root) != Prefix(lens, z, root))
            then SubSize(lens, z, root, max) else 0
  {
    SpaceNext(lens, root, max, len, r, y, m, q, z);
  }

  /** The words fill the code space; `max` is the longest length. */
  ghost predicate Complete(lens: seq<nat>, max: nat) {
    Subscribed(lens) && max <= MAX_BITS && Count(lens, max) > 0 && End(lens, max) == Pow2(max)
  }

  /** What all the sub-tables together take: the depth of the last one is e. */
  ghost predicate Tight(lens: seq<nat>, root: nat, max: nat, e: nat) {
    var s := Space(lens, root, max) - Pow2(root);
    root < max && s % 2 == 0 && 0 < e <= max - root && End(lens, root) < Pow2(root)
    && s - Pow2(e) >= 2 * (Pow2(root) - 1 - End(lens, root))
    && |lens| >= Offs(lens, root + 1) + 1 + s - Pow2(e) + (max - root)
  }

  lemma LastWord(p: nat, c: nat, a: nat, b: nat)
    requires c + 1 == b * a && p * a <= c && (p + 1) * a >= c + 1 && a > 0
    ensures p + 1 == b
  {
    if p >= b { CanonicalCode.MulMonotone(b, p, a); }
    if p + 1 < b { CanonicalCode.MulMonotone(p + 2, b, a); }
  }

  lemma BehindLast(p: nat, c: nat, root: nat, max: nat)
    requires c + 1 == Pow2(max) && root <= max && p * Pow2(max - root) <= c && Behind(p, c, max - root) >= 0
    ensures p + 1 == Pow2(root) && Behind(p, c, max - root) == 0 && (p + 1) * Pow2(max - root) == Pow2(max)
  {
    Pow2Add(root, max - root);
    hide Pow2;
    LastWord(p, c, Pow2(max - root), Pow2(root));
  }

  lemma AtLast(lens: seq<nat>, root: nat, max: nat, r: nat, y: nat, p: nat, o: nat, d: nat)
    requires Complete(lens, max) && At(lens, max, r, y) && r + 1 == Count(lens, max)
             && Counting(lens, root, max, max, r, y, p, o, d)
    ensures Tight(lens, root, max, d)
  {
    hide Subscribed, Count, FirstOf, Place, Offs, Space, SpaceTo, OpenedBy, Pow2, Behind;
    CodeAt(lens, max, r, y);
    PlaceBound(lens, y);
    InflateTable.WholeSpace(lens, root, max, r + 1);
    hide Code;
    assert Code(lens, y) + 1 == End(lens, max) == Pow2(max);
    hide End, Rank, Done, At;
    BehindLast(p, Code(lens, y), root, max);
    DepthReached(lens, root, max, p, o, d, max);
  }

  lemma CountingAt(lens: seq<nat>, root: nat, max: nat, len: nat, r: nat, y: nat, p: nat, o: nat, d: nat)
    requires y < |lens| && Counting(lens, root, max, len, r, y, p, o, d)
    ensures root < len <= max && p * Pow2(len - root) <= Code(lens, y) < (p + 1) * Pow2(len - root)
  {
  }

  lemma WalkOn(lens: seq<nat>, root: nat, max: nat, len: nat, r: nat, y: nat, p: nat, o: nat, d: nat)
    returns (m: nat, q: nat, z: nat, p': nat, o': nat, d': nat)
    requires Complete(lens, max) && At(lens, len, r, y) && Counting(lens, root, max, len, r, y, p, o, d)
    requires !(len == max && r + 1 == Count(lens, max))
    ensures At(lens, m, q, z) && Counting(lens, root, max, m, q, z, p', o', d')
    ensures Place(lens, y) < Place(lens, z) < |lens|
  {
    hide Count, Code, Place, Counting, Subscribed, End, Pow2, SubSize, Sub, Prefix;
    CountingAt(lens, root, max, len, r, y, p, o, d);
    m, q, z := NextSymbol(lens, max, len, r, y);
    SubNext(lens, root, max, len, r, y, m, q, z);
    PlaceBound(lens, z);
    PrefixTells(lens, root, y, z, p);
    p', o', d' := p, o, d;
    if Code(lens, z) < (p + 1) * Pow2(m - root) {
      SameTable(lens, root, max, len, r, y, p, o, d, m, q, z);
    } else {
      d' := NewTable(lens, root, max, len, r, y, p, o, d, m, q, z);
      p', o' := p + 1, z;
    }
  }

  lemma {:induction false} Walk(lens: seq<nat>, root: nat, max: nat, len: nat, r: nat, y: nat, p: nat, o: nat, d: nat)
      returns (e: nat)
    requires Complete(lens, max) && At(lens, len, r, y) && Counting(lens, root, max, len, r, y, p, o, d)
    ensures Tight(lens, root, max, e)
    decreases |lens| - Place(lens, y)
  {
    if len == max && r + 1 == Count(lens, max) {
      e := d;
      AtLast(lens, root, max, r, y, p, o, d);
    } else {
      hide Count, Place, Counting, Tight, Complete;
      var m, q, z, p', o', d' := WalkOn(lens, root, max, len, r, y, p, o, d);
      e := Walk(lens, root, max, m, q, z, p', o', d');
    }
  }

  lemma {:induction false} WalkRoot(lens: seq<nat>, root: nat, max: nat, len: nat, r: nat, y: nat) returns (e: nat)
    requires Complete(lens, max) && At(lens, len, r, y) && 0 < root < max && len <= root
             && Sub(lens, root, max, len, r) == 0
    ensures Tight(lens, root, max, e)
    decreases |lens| - Place(lens, y)
  {
    var m, q, z := NextSymbol(lens, max, len, r, y);
    hide Count, Code, Place, Sub, End, Offs, Tight, Subscribed;
    PlaceBound(lens, z);
    SubNext(lens, root, max, len, r, y, m, q, z);
    if m <= root {
      e := WalkRoot(lens, root, max, m, q, z);
    } else {
      var d := FirstTable(lens, root, max, len, m, z);
      e := Walk(lens, root, max, m, q, z, End(lens, root), z, d);
    }
  }

  // -- How many symbols the root table holds --------------------------------------------------------------------

  /** Words of m bits or more take few codes of b bits. */
  lemma {:induction false} EndAtMost(lens: seq<nat>, m: nat, b: nat)
    requires 1 <= m <= b && forall d: nat :: 0 < d < m ==> Count(lens, d) == 0
    ensures End(lens, b) <= Offs(lens, b + 1) * Pow2(b - m)
    decreases b
  {
    if b == m {
      InflateTable.NothingBefore(lens, m);
      assert Pow2(0) == 1;
    } else {
      EndAtMost(lens, m, b - 1);
      var a, n, c := Pow2(b - 1 - m), Offs(lens, b), Count(lens, b);
      assert Pow2(b - m) == 2 * a;
      Spreads(n, c, a);
    }
  }

  lemma Spreads(n: nat, c: nat, a: nat)
    requires a > 0
    ensures 2 * (n * a) + c <= (n + c) * (2 * a)
  {
    assert (n + c) * (2 * a) == 2 * (n * a) + c * (2 * a);
    CanonicalCode.MulMonotone(1, 2 * a, c);
  }

  /** Words of two bits or more, besides those of one bit. */
  lemma {:induction false} EndAfterOnes(lens: seq<nat>, b: nat)
    requires b >= 2
    ensures Count(lens, 1) <= Offs(lens, b + 1)
    ensures End(lens, b) <= Count(lens, 1) * Pow2(b - 1) + (Offs(lens, b + 1) - Count(lens, 1)) * Pow2(b - 2)
    decreases b
  {
    var one, n, c := Count(lens, 1), Offs(lens, b), Count(lens, b);
    assert FirstOf(lens, 1) == 0;
    if b == 2 {
      assert Pow2(1) == 2 && Pow2(0) == 1 && Offs(lens, 2) == one;
      assert FirstOf(lens, 2) == 2 * one;
    } else {
      EndAfterOnes(lens, b - 1);
      var a := Pow2(b - 3);
      assert Pow2(b - 2) == 2 * a && Pow2(b - 1) == 2 * (2 * a);
      assert End(lens, b) == 2 * End(lens, b - 1) + c && Offs(lens, b + 1) == n + c;
      hide Pow2, Count, Offs, FirstOf, End;
      Spreads(n - one, c, a);
      DoubleOut(one, 2 * a);
    }
  }

  /** At most one word of one bit: there are longer ones. */
  lemma OneOne(lens: seq<nat>, root: nat)
    requires root >= 2 && End(lens, root) < Pow2(root)
    ensures Count(lens, 1) <= 1
  {
    FirstGrows(lens, 1, root);
    assert FirstOf(lens, 1) == 0;
    assert Pow2(root) == 2 * Pow2(root - 1);
  }

  /** The first `off` words take no more of the root table than one of one bit and others of two bits would. */
  lemma RootHolds(lens: seq<nat>, root: nat, off: nat)
    requires root >= 2 && End(lens, root) < Pow2(root) && Offs(lens, root + 1) == off
    ensures End(lens, root) <= (off + 1) * Pow2(root - 2) && (off == 0 ==> End(lens, root) == 0)
  {
    OneOne(lens, root);
    EndAfterOnes(lens, root);
    assert Pow2(root - 1) == 2 * Pow2(root - 2);
    hide Pow2, Count, FirstOf;
    var a := Pow2(root - 2);
    if Count(lens, 1) == 0 {
      assert (off - 0) * a + a == (off + 1) * a;
    } else {
      assert 1 * (2 * a) + (off - 1) * a == (off + 1) * a;
    }
  }

  /** The entries of the sub-tables: no more than there is space for. */
  lemma TightEnough(kind: Kind, lens: seq<nat>, root: nat, max: nat, e: nat)
    requires kind != Codes && Asked(kind, |lens|, root) && max <= MAX_BITS && Tight(lens, root, max, e)
    ensures Space(lens, root, max) <= Enough(kind)
  {
    hide Space, Offs, End;
    RootHolds(lens, root, Offs(lens, root + 1));
    PowGap(max - root, MAX_BITS - root);
    Pow2Monotone(e, max - root);
    Powers();
  }

  lemma Powers()
    ensures Pow2(4) == 16 && Pow2(6) == 64 && Pow2(7) == 128 && Pow2(9) == 512 && Pow2(10) == 1024
  {
    assert Pow2(3) == 8;
    assert Pow2(5) == 32;
    assert Pow2(7) == 128;
    assert Pow2(9) == 512;
  }

  // -- The bound ------------------------------------------------------------------------------------------------

  lemma {:induction false} ShortestFacts(lens: seq<nat>, b: nat, max: nat)
    requires 0 < b <= max && Count(lens, max) > 0
    ensures var min := ShortestFrom(lens, b, max);
            b <= min <= max && Count(lens, min) > 0 && forall d: nat :: b <= d < min ==> Count(lens, d) == 0
    decreases max - b
  {
    if b < max && Count(lens, b) == 0 { ShortestFacts(lens, b + 1, max); }
  }

  /** Complete codes of so few symbols have short words. */
  lemma ShortWord(lens: seq<nat>, max: nat, m: nat)
    requires End(lens, max) == Pow2(max) && 1 <= m <= max && forall d: nat :: 0 < d < m ==> Count(lens, d) == 0
    ensures Pow2(m) <= |lens|
  {
    EndAtMost(lens, m, max);
    OffsIsAmong(lens, max + 1);
    AmongBound(lens, |lens|, max + 1);
    Pow2Add(m, max - m);
    hide Pow2, Count, FirstOf;
    if Pow2(m) > |lens| {
      CanonicalCode.MulMonotone(Offs(lens, max + 1) + 1, Pow2(m), Pow2(max - m));
      OneIn(Offs(lens, max + 1), Pow2(max - m));
    }
  }

  lemma NoneLonger(lens: seq<nat>, codes: bool)
    requires BlockHeader.Acceptable(lens, codes) && MaxLength(lens) > 0
    ensures Subscribed(lens) && MaxLength(lens) <= MAX_BITS && Count(lens, MaxLength(lens)) > 0
    ensures forall b: nat :: b > MaxLength(lens) ==> Count(lens, b) == 0
  {
    LongestFacts(lens, MAX_BITS);
    MaxUsed(lens, MaxLength(lens));
    hide Taken, LongestUpTo;
    forall b: nat | b > MAX_BITS
      ensures Count(lens, b) == 0
    {
      NoLonger(lens, |lens|, b);
    }
  }

  lemma CompleteIs(lens: seq<nat>, codes: bool, max: nat)
    requires BlockHeader.Acceptable(lens, codes) && max == MaxLength(lens) > 1
    ensures Complete(lens, max)
  {
    hide Taken, MaxLength, Count, Subscribed, End, Pow2;
    NoneLonger(lens, codes);
    MaxUsed(lens, max);
    FullIsKraft(lens);
    InflateTable.FullAtEnd(lens, max);
  }

  /** Every code with sub-tables that inflate_table takes. */
  lemma LongEnough(kind: Kind, lens: seq<nat>, bits: nat, max: nat)
    requires kind != Codes && Asked(kind, |lens|, bits) && bits < max && max == MaxLength(lens) && Complete(lens, max)
    ensures RootBits(lens, bits) == bits && Space(lens, bits, max) <= Enough(kind)
  {
    hide Count, Space, Subscribed, End, SpaceTo;
    Powers();
    ShortestFacts(lens, 1, max);
    var min := ShortestFrom(lens, 1, max);
    if min > bits {
      Pow2Monotone(bits + 1, min);
      ShortWord(lens, max, min);
      assert false;
    }
    hide Pow2;
    var y := SymbolAt(lens, min, 0);
    SpaceFirst(lens, bits, max, min, y);
    var e := WalkRoot(lens, bits, max, min, 0, y);
    TightEnough(kind, lens, bits, max, e);
  }

  /** ENOUGH_LENS and ENOUGH_DISTS are enough, for every code that TABLE may come by. */
  lemma EnoughIsEnough(kind: Kind, lens: seq<nat>, bits: nat)
    requires Asked(kind, |lens|, bits) && BlockHeader.Acceptable(lens, kind == Codes)
    ensures !Overflows(kind, lens, bits)
  {
    var max := MaxLength(lens);
    if kind != Codes && max > 0 {
      NoneLonger(lens, kind == Codes);
      Powers();
      hide Space, Pow2, Subscribed, Count, MaxLength, BlockHeader.Acceptable, RootBits;
      if max <= bits {
        InflateTable.LensUsed(lens, max);
        RootOnly(kind, lens, bits);
      } else {
        CompleteIs(lens, kind == Codes, max);
        LongEnough(kind, lens, bits, max);
      }
    }
  }
}
