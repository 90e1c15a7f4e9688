/** How many entries the tables of inftrees.c take: inflate_table gives up exactly when there are more than ENOUGH. */
module TableSpace {
  import opened Kraft
  import opened CanonicalCode
  import opened TableCode
  import opened DecodeTable

  /** The space for the tables of lengths and distances, and what the code length code needs. */
  const ENOUGH_LENS: nat := 852
  const ENOUGH_DISTS: nat := 592

  function Enough(kind: Kind): nat {
    match kind
    case Codes => 128
    case Lens => ENOUGH_LENS
    case Dists => ENOUGH_DISTS
  }

  // -- The longest and the shortest length ----------------------------------------------------------------------

  /** The longest length in use up to b, and the shortest from b on but at most `max`. */
  function LongestUpTo(lens: seq<nat>, b: nat): nat
    decreases b
  {
    if b == 0 || Count(lens, b) > 0 then b else LongestUpTo(lens, b - 1)
  }

  function ShortestFrom(lens: seq<nat>, b: nat, max: nat): nat
    decreases max - b
  {
    if b >= max || Count(lens, b) > 0 then b else ShortestFrom(lens, b + 1, max)
  }

  function MaxLength(lens: seq<nat>): nat { LongestUpTo(lens, MAX_BITS) }

  /** The index bits of the root table, when `bits` are asked for. */
  function RootBits(lens: seq<nat>, bits: nat): nat {
    var max := MaxLength(lens);
    var min := ShortestFrom(lens, 1, max);
    var root := if bits > max then max else bits;
    if root < min then min else root
  }

  // -- The size of a sub-table ----------------------------------------------------------------------------------

  lemma CodeAt(lens: seq<nat>, len: nat, r: nat, y: nat)
    requires At(lens, len, r, y)
    ensures Code(lens, y) == FirstOf(lens, len) + r && Place(lens, y) == Offs(lens, len) + r && lens[y] == len > 0
    ensures r < Count(lens, len) && CodeWord(lens, y) == Word(Code(lens, y), len)
  {
    RankMonotone(lens, y, |lens|, len);
  }

  /** What the words of y's first bits and of lengths below b leave of the sub-table, in words of length b. */
  ghost function Room(lens: seq<nat>, y: nat, q: nat, root: nat, b: nat): int
    requires y < |lens| && root < lens[y] <= b
  {
    Pow2(b - root) + Code(lens, y) * Pow2(b - lens[y]) - FirstOf(lens, b) - if b == lens[y] then q else 0
  }

  lemma RoomFirst(lens: seq<nat>, m: nat, q: nat, y: nat, root: nat)
    requires At(lens, m, q, y) && root < m
    ensures Room(lens, y, q, root, m) == Pow2(m - root)
  {
    CodeAt(lens, m, q, y);
    assert Code(lens, y) * Pow2(0) == Code(lens, y);
  }

  lemma RoomNext(lens: seq<nat>, m: nat, q: nat, y: nat, root: nat, b: nat, count: nat)
    requires At(lens, m, q, y) && root < m <= b && count == if b == m then Count(lens, b) - q else Count(lens, b)
    ensures Room(lens, y, q, root, b) - count == Pow2(b - root) + Code(lens, y) * Pow2(b - m) - End(lens, b)
    ensures Room(lens, y, q, root, b + 1) == 2 * (Room(lens, y, q, root, b) - count)
  {
    PowStep(b + 1 - root);
    PowStep(b + 1 - m);
    DoubleOut(Code(lens, y), Pow2(b - m));
    hide Code, Count, Pow2;
  }

  /** The index bits of the sub-table that y opens, when lengths below b do not fill it: the least number for which the
      words up to that length do, or the longest length. */
  ghost function SubBits(lens: seq<nat>, y: nat, root: nat, max: nat, b: nat): nat
    requires y < |lens| && root < lens[y] <= b
    decreases max - b
  {
    var q := Rank(lens, y, lens[y]);
    if b >= max || Room(lens, y, q, root, b) <= Count(lens, b) - (if b == lens[y] then q else 0) then b - root
    else SubBits(lens, y, root, max, b + 1)
  }

  ghost function SubSize(lens: seq<nat>, y: nat, root: nat, max: nat): nat {
    if y < |lens| && root < lens[y] then Pow2(SubBits(lens, y, root, max, lens[y])) else 0
  }

  ghost function SubSizes(lens: seq<nat>, root: nat, max: nat): (r: seq<nat>)
    ensures |r| == |lens| && forall y: nat | y < |lens| :: r[y] == SubSize(lens, y, root, max)
  {
    seq(|lens|, (y: nat) => SubSize(lens, y, root, max))
  }

  /** The first of the symbols that share their first bits. */
  ghost predicate Opens(lens: seq<nat>, root: nat, z: nat) {
    Uses(lens, z) && lens[z] > root
    && forall y: nat | Uses(lens, y) && lens[y] > root && Before(lens, y, z) ::
       Prefix(lens, y, root) != Prefix(lens, z, root)
  }

  /** The symbols before rank r of length len that open a sub-table. */
  ghost function Openers(lens: seq<nat>, root: nat, len: nat, r: nat): (a: set<nat>)
    ensures forall z: nat :: z in a <==> Done(lens, len, r, z) && Opens(lens, root, z)
  {
    set z: nat | z < |lens| && Done(lens, len, r, z) && Opens(lens, root, z)
  }

  /** The entries for the symbols before rank r of length len. */
  ghost function SpaceTo(lens: seq<nat>, root: nat, max: nat, len: nat, r: nat): int {
    Pow2(root) + Sum(Openers(lens, root, len, r), SubSizes(lens, root, max))
  }

  ghost function Space(lens: seq<nat>, root: nat, max: nat): int { SpaceTo(lens, root, max, max, Count(lens, max)) }

  /** The tables for these lengths take more entries than there is space for. */
  ghost predicate Overflows(kind: Kind, lens: seq<nat>, bits: nat) {
    kind != Codes && MaxLength(lens) > 0 && Space(lens, RootBits(lens, bits), MaxLength(lens)) > Enough(kind)
  }

  // -- From symbol to symbol ------------------------------------------------------------------------------------

  /** The next symbol, z at rank q of length m, follows y. */
  lemma OpensNext(lens: seq<nat>, root: nat, len: nat, r: nat, y: nat, m: nat, q: nat, z: nat)
    requires Subscribed(lens) && Follows(lens, len, r, y, m, q, z)
    ensures Opens(lens, root, z) <==> m > root && (len > root ==> Prefix(lens, y, root) != Prefix(lens, z, root))
  {
    hide Subscribed, Prefix, Rank;
    FollowsBefore(lens, len, r, y, m, q, z);
    if m > root && (len > root ==> Prefix(lens, y, root) != Prefix(lens, z, root)) {
      forall x: nat | Uses(lens, x) && lens[x] > root && Before(lens, x, z)
        ensures Prefix(lens, x, root) != Prefix(lens, z, root)
      {
        DoneBefore(lens, m, q, x, z);
        DoneNext(lens, len, r, y, x);
        DoneBefore(lens, len, r, x, y);
        assert x == y || Before(lens, x, y);
        PrefixNew(lens, x, y, z, root);
      }
    }
  }

  lemma OpenersNext(lens: seq<nat>, root: nat, len: nat, r: nat, y: nat, m: nat, q: nat, z: nat)
    requires Follows(lens, len, r, y, m, q, z)
    ensures Openers(lens, root, m, q + 1) == Openers(lens, root, len, r + 1)
            + (if Opens(lens, root, z) then {z} else {})
    ensures z !in Openers(lens, root, len, r + 1)
  {
    hide Opens;
    var j, k := q + 1, r + 1;
    forall x: nat | Done(lens, m, j, x) || Done(lens, len, k, x) || x == z
      ensures Done(lens, m, j, x) <==> Done(lens, len, k, x) || x == z
    {
      DoneNext(lens, m, q, z, x);
    }
    assert !Done(lens, m, q, z);
    DoneNext(lens, m, q, z, z);
    hide Done;
  }

  /** One more symbol, with or without a sub-table of its own. */
  lemma SpaceNext(lens: seq<nat>, root: nat, max: nat, len: nat, r: nat, y: nat, m: nat, q: nat, z: nat)
    requires Subscribed(lens) && Follows(lens, len, r, y, m, q, z)
    ensures z < |lens|
    ensures SpaceTo(lens, root, max, m, q + 1)
         == SpaceTo(lens, root, max, len, r + 1)
          + if m > root && (len > root ==> Prefix(lens, y, root) != Prefix(lens, z, root))
            then SubSize(lens, z, root, max) else 0
  {
    hide Subscribed, Prefix, Opens, Done, SubSize;
    assert At(lens, m, q, z);
    OpensNext(lens, root, len, r, y, m, q, z);
    OpenersNext(lens, root, len, r, y, m, q, z);
    var a, a' := Openers(lens, root, len, r + 1), Openers(lens, root, m, q + 1);
    if Opens(lens, root, z) {
      SumAdd(a, SubSizes(lens, root, max), z);
      assert SubSizes(lens, root, max)[z] == SubSize(lens, z, root, max);
    } else {
      assert a' == a;
    }
  }

  /** At the first symbol there is only the root table. */
  lemma SpaceFirst(lens: seq<nat>, root: nat, max: nat, len: nat, y: nat)
    requires At(lens, len, 0, y) && len <= root && forall b: nat :: 0 < b < len ==> Count(lens, b) == 0
    ensures SpaceTo(lens, root, max, len, 1) == Pow2(root)
  {
    assert Openers(lens, root, len, 1) == {};
    SumEmpty(SubSizes(lens, root, max));
  }

  lemma {:induction false} SumSubset(a: set<nat>, b: set<nat>, f: seq<nat>)
    requires a <= b
    ensures Sum(a, f) <= Sum(b, f)
  {
    if f != [] { SumSubset(a, b, f[..|f| - 1]); }
  }

  /** Space is only ever added. */
  lemma SpaceGrows(lens: seq<nat>, root: nat, max: nat, len: nat, r: nat)
    requires (len < max || (len == max && r <= Count(lens, max)))
    ensures SpaceTo(lens, root, max, len, r) <= Space(lens, root, max)
  {
    forall x: nat | Done(lens, len, r, x)
      ensures Done(lens, max, Count(lens, max), x)
    {
      RankMonotone(lens, x, |lens|, lens[x]);
    }
    hide Done, Opens;
    assert Openers(lens, root, len, r) <= Openers(lens, root, max, Count(lens, max));
    SumSubset(Openers(lens, root, len, r), Openers(lens, root, max, Count(lens, max)), SubSizes(lens, root, max));
  }

  lemma SpaceAtLeast(lens: seq<nat>, root: nat, max: nat)
    ensures Space(lens, root, max) >= Pow2(root)
  {
    SumAtLeast(Openers(lens, root, max, Count(lens, max)), SubSizes(lens, root, max));
  }

  // -- The extremes ---------------------------------------------------------------------------------------------

  lemma {:induction false} MaxIs(lens: seq<nat>, b: nat, max: nat)
    requires max <= b && (max > 0 ==> Count(lens, max) > 0) && forall d: nat :: max < d <= b ==> Count(lens, d) == 0
    ensures LongestUpTo(lens, b) == max
    decreases b
  {
    if b > max { MaxIs(lens, b - 1, max); }
  }

  lemma {:induction false} MinIs(lens: seq<nat>, b: nat, min: nat, max: nat)
    requires b <= min <= max && Count(lens, min) > 0 && forall d: nat :: b <= d < min ==> Count(lens, d) == 0
    ensures ShortestFrom(lens, b, max) == min
    decreases min - b
  {
    if b < min { MinIs(lens, b + 1, min, max); }
  }

  lemma {:induction false} LongestFacts(lens: seq<nat>, b: nat)
    ensures var max := LongestUpTo(lens, b);
            max <= b && (max > 0 ==> Count(lens, max) > 0) && forall d: nat :: max < d <= b ==> Count(lens, d) == 0
    decreases b
  {
    if b > 0 && Count(lens, b) == 0 { LongestFacts(lens, b - 1); }
  }

  lemma {:induction false} ShortestAtMost(lens: seq<nat>, b: nat, max: nat)
    requires b <= max
    ensures ShortestFrom(lens, b, max) <= max
    decreases max - b
  {
    if b < max && Count(lens, b) == 0 { ShortestAtMost(lens, b + 1, max); }
  }

  lemma UsedCounts(lens: seq<nat>, x: nat)
    requires Uses(lens, x)
    ensures Count(lens, lens[x]) > 0
  {
    RankMonotone(lens, x, |lens|, lens[x]);
  }

  lemma MaxUsed(lens: seq<nat>, b: nat)
    requires Count(lens, b) > 0
    ensures exists x :: 0 <= x < |lens| && lens[x] == b > 0
  {
    var y := SymbolAt(lens, b, 0);
  }

  /** Words that all fit the root table need no sub-tables. */
  lemma RootOnly(kind: Kind, lens: seq<nat>, bits: nat)
    requires (forall x | 0 <= x < |lens| :: lens[x] <= MAX_BITS && lens[x] <= bits) && Pow2(bits) <= Enough(kind)
    ensures !Overflows(kind, lens, bits)
  {
    hide Count, Opens;
    var max := MaxLength(lens);
    LongestFacts(lens, MAX_BITS);
    if max > 0 {
      MaxUsed(lens, max);
      ShortestAtMost(lens, 1, max);
      assert RootBits(lens, bits) == max;
      forall z: nat
        ensures !Opens(lens, max, z)
      {
        if Uses(lens, z) { UsedCounts(lens, z); }
        OpensLonger(lens, max, z);
      }
      assert Openers(lens, max, max, Count(lens, max)) == {};
      SumEmpty(SubSizes(lens, max, max));
      Pow2Monotone(max, bits);
    }
  }

  lemma OpensLonger(lens: seq<nat>, root: nat, z: nat)
    ensures Opens(lens, root, z) ==> Uses(lens, z) && lens[z] > root
  {
  }
}
