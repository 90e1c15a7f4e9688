/** inflate_table of inftrees.c: a canonical code, given by its lengths, entered in a two-level decoding table. */
module InflateTable {
  import opened Kraft
  import opened CanonicalCode
  import opened GenCodes
  import opened BlockCode
  import BlockHeader
  import opened TableCode
  import opened DecodeTable
  import opened TableSpace
  import opened TableSteps

  // -- The next symbol ------------------------------------------------------------------------------------------

  lemma SameLength(lens: seq<nat>, len: nat, r: nat, y: nat, count: seq<nat>) returns (z: nat)
    requires At(lens, len, r, y) && r + 1 < Count(lens, len) && Left(lens, count, len, r) && len <= MAX_BITS
    ensures Follows(lens, len, r, y, len, r + 1, z) && Code(lens, z) == Code(lens, y) + 1
            && Place(lens, z) == Place(lens, y) + 1
    ensures count[len] > 0 && Left(lens, count[len := count[len] - 1], len, r + 1)
  {
    z := SymbolAt(lens, len, r + 1);
    CodeAt(lens, len, r, y);
    CodeAt(lens, len, r + 1, z);
  }

  lemma NextLength(lens: seq<nat>, len: nat, max: nat) returns (m: nat)
    requires len < max && Count(lens, max) > 0
    ensures Gap(lens, len, m) && m <= max && Count(lens, m) > 0
  {
    m := len + 1;
    while Count(lens, m) == 0
      invariant len < m <= max && forall d :: len < d < m ==> Count(lens, d) == 0
      decreases max - m
    {
      m := m + 1;
    }
  }

  lemma NextLonger(lens: seq<nat>, len: nat, r: nat, y: nat, count: seq<nat>, max: nat) returns (m: nat, z: nat)
    requires At(lens, len, r, y) && r + 1 == Count(lens, len) && len < max <= MAX_BITS && Count(lens, max) > 0
    requires Left(lens, count, len, r)
    ensures Gap(lens, len, m) && m <= max && Follows(lens, len, r, y, m, 0, z) && Place(lens, z) == Place(lens, y) + 1
    ensures Code(lens, z) == (Code(lens, y) + 1) * Pow2(m - len)
    ensures count[len] == 1 && Left(lens, count[len := 0], m, 0)
  {
    hide Count, FirstOf, Code, Place, Offs, CodeWord, Pow2, Rank, Word;
    m := NextLength(lens, len, max);
    z := SymbolAt(lens, m, 0);
    CodeAt(lens, len, r, y);
    CodeAt(lens, m, 0, z);
    EndSkips(lens, len, m);
    OffsSkips(lens, len, m);
    forall x: nat
      ensures Done(lens, m, 0, x) <==> Done(lens, len, r + 1, x)
    {
      DoneSkips(lens, len, m, x);
    }
  }

  // -- The size of a sub-table ----------------------------------------------------------------------------------

  /** The look-ahead: enough index bits for all words with the first bits of y. */
  method LookAhead(count: array<nat>, m: nat, root: nat, max: nat, ghost c: Coding, ghost q: nat, ghost y: nat)
      returns (curr: nat)
    requires Subscribed(c.lens) && At(c.lens, m, q, y) && root == c.root < m <= max <= MAX_BITS
             && Left(c.lens, count[..], m, q)
    requires forall b: nat :: b > max ==> Count(c.lens, b) == 0
    ensures 0 < curr && curr + root <= max && Roomy(c, y, curr) && Pow2(curr) == SubSize(c.lens, y, root, max)
  {
    hide Count, FirstOf, Code, Pow2, Rank, Roomy, Subscribed, CodeWord, Room;
    curr := m - root;
    var left: int := Pow2(curr);
    RoomFirst(c.lens, m, q, y, root);
    while curr + root < max
      invariant m <= curr + root <= max && left == Room(c.lens, y, q, root, curr + root)
      invariant SubBits(c.lens, y, root, max, curr + root) == SubBits(c.lens, y, root, max, m)
    {
      RoomNext(c.lens, m, q, y, root, curr + root, count[curr + root]);
      left := left - count[curr + root];
      if left <= 0 {
        RoomyIs(c, m, q, y, curr, max);
        return;
      }
      curr := curr + 1;
      left := 2 * left;
    }
    RoomyIs(c, m, q, y, curr, max);
  }

  lemma RoomyIs(c: Coding, m: nat, q: nat, y: nat, curr: nat, max: nat)
    requires Subscribed(c.lens) && At(c.lens, m, q, y) && c.root < m <= c.root + curr
    requires forall b: nat :: b > max ==> Count(c.lens, b) == 0
    requires c.root + curr >= max || End(c.lens, c.root + curr) >= Pow2(curr)
             + Code(c.lens, y) * Pow2(c.root + curr - m)
    ensures Roomy(c, y, curr)
  {
    hide FirstOf, Code, Pow2, Rank, Subscribed, CodeWord, Prefix, Count;
    var b := c.root + curr;
    forall z: nat | Uses(c.lens, z) && !Before(c.lens, z, y) && c.lens[z] > c.root
      && Prefix(c.lens, z, c.root) == Prefix(c.lens, y, c.root)
      ensures c.lens[z] <= b
    {
      if c.lens[z] > b {
        CodeAt(c.lens, c.lens[z], Rank(c.lens, z, c.lens[z]), z);
        LongerElsewhere(c.lens, c.root, y, b, z);
      }
    }
  }

  // -- Entering all symbols -------------------------------------------------------------------------------------

  lemma SpreadTail(before: seq<Entry>, after: seq<Entry>, at: nat, next: nat, curr: nat, word: seq<bool>, here: Entry)
    requires Spread(before, after, at + next, curr, word, here) && at + next + Pow2(curr) <= |before|
    ensures |after| == |before| && after[..at] == before[..at]
            && Spread(before[at..], after[at..], next, curr, word, here)
  {
    hide Pow2, Bits;
    forall j: nat | j < Pow2(curr) && next + j < |before[at..]|
      ensures after[at..][next + j] == if word <= Bits(j, curr) then here else before[at..][next + j]
    {
      assert after[at..][next + j] == after[at + next + j];
    }
  }

  /** The code with its bits reversed, and what is left of it below the root. */
  lemma HuffTail(lens: seq<nat>, y: nat, huff: nat, drop: nat)
    requires y < |lens| && Reversed(huff, Code(lens, y), lens[y]) && drop <= lens[y]
    ensures HighPart(huff, drop) < Pow2(lens[y] - drop)
            && Bits(HighPart(huff, drop), lens[y] - drop) == CodeWord(lens, y)[drop..]
    ensures Bits(huff, drop) == Prefix(lens, y, drop) && LowPart(huff, drop) == FromBits(Prefix(lens, y, drop))
  {
    var len := lens[y];
    BitsSplit(huff, drop, len - drop);
    FromLow(huff, drop);
    HighBelow(huff, drop, len);
    hide Pow2, Bits, Word, FromBits, LowPart, HighPart, Code;
    assert CodeWord(lens, y) == Bits(huff, drop) + Bits(HighPart(huff, drop), len - drop);
  }

  lemma HighBelow(huff: nat, drop: nat, len: nat)
    requires huff < Pow2(len) && drop <= len
    ensures HighPart(huff, drop) < Pow2(len - drop)
  {
    Pow2Add(drop, len - drop);
    DivMod(huff, Pow2(drop));
    if HighPart(huff, drop) >= Pow2(len - drop) {
      CanonicalCode.MulMonotone(Pow2(len - drop), HighPart(huff, drop), Pow2(drop));
    }
  }

  /** The entry for symbol x, copied to all indices that start with its word. */
  method EnterSymbol(kind: Kind, table: array<Entry>, at: nat, x: nat, len: nat, drop: nat, next: nat, curr: nat,
                     huff: nat, ghost c: Coding)
    returns (here: Entry)
    requires kind == c.kind && x < |c.lens| && c.lens[x] == len && drop == DropOf(c, x)
             && Reversed(huff, Code(c.lens, x), len)
    requires len - drop <= curr && at + next + Pow2(curr) <= table.Length
    modifies table
    ensures here == Leaf(kind, x, len - drop)
    ensures table[..at] == old(table[..at])
    ensures Spread(old(table[at..]), table[at..], next, curr, CodeWord(c.lens, x)[drop..], here)
  {
    hide Pow2, Bits, Reversed, HighPart, CodeWord, Code, Leaf, Spread;
    HuffTail(c.lens, x, huff, drop);
    here := Leaf(kind, x, len - drop);
    ghost var before := table[..];
    Replicate(table, at + next, curr, HighPart(huff, drop), len - drop, here);
    SpreadTail(before, table[..], at, next, curr, CodeWord(c.lens, x)[drop..], here);
  }

  /** What the loop relies on besides the table. */
  ghost predicate Position(c: Coding, work: seq<nat>, count: seq<nat>, max: nat, len: nat, r: nat, y: nat, huff: nat,
                           sym: nat)
  {
    At(c.lens, len, r, y) && sym == Place(c.lens, y) && Sorted(c.lens, work) && Left(c.lens, count, len, r)
    && len <= max <= MAX_BITS && Count(c.lens, max) > 0 && (forall b: nat :: b > max ==> Count(c.lens, b) == 0)
    && Reversed(huff, Code(c.lens, y), len)
  }

  /** After the last symbol. */
  ghost predicate AtEnd(c: Coding, max: nat, len: nat, r: nat, y: nat, huff: nat)
  {
    At(c.lens, len, r, y) && len == max && r + 1 == Count(c.lens, max) && Reversed(huff, End(c.lens, max), max)
  }

  lemma Counted(c: Coding, work: seq<nat>, count: seq<nat>, max: nat, len: nat, r: nat, y: nat, huff: nat, sym: nat,
                huff': nat)
    requires Position(c, work, count, max, len, r, y, huff, sym) && Reversed(huff', Code(c.lens, y) + 1, len)
    ensures |count| == MAX_BITS + 1 && len <= MAX_BITS && count[len] == Count(c.lens, len) - r > 0
    ensures r + 1 == Count(c.lens, len) && len == max ==> AtEnd(c, max, len, r, y, huff')
  {
    hide Pow2, Bits, Word;
    CodeAt(c.lens, len, r, y);
  }

  lemma ToNext(c: Coding, work: seq<nat>, count: seq<nat>, max: nat, len: nat, r: nat, y: nat, huff: nat, sym: nat,
               huff': nat)
    returns (m: nat, q: nat, z: nat)
    requires Position(c, work, count, max, len, r, y, huff, sym) && Reversed(huff', Code(c.lens, y) + 1, len)
    requires !(r + 1 == Count(c.lens, len) && len == max)
    ensures Follows(c.lens, len, r, y, m, q, z) && m >= len
    ensures |count| == MAX_BITS + 1 && len <= MAX_BITS && count[len] > 0 && count[len] == Count(c.lens, len) - r
    ensures Position(c, work, count[len := count[len] - 1], max, m, q, z, huff', sym + 1)
    ensures if r + 1 == Count(c.lens, len) then q == 0 && sym + 1 < |work| && work[sym + 1] == z && z < |c.lens|
            && c.lens[z] == m
            else m == len && q == r + 1
  {
    hide Pow2, Bits, Word, Code, CodeWord, Count, FirstOf, Place, Offs, Rank;
    CodeAt(c.lens, len, r, y);
    if r + 1 < Count(c.lens, len) {
      m, q := len, r + 1;
      z := SameLength(c.lens, len, r, y, count);
    } else {
      m, z := NextLonger(c.lens, len, r, y, count, max);
      q := 0;
      ReversedLonger(huff', Code(c.lens, y) + 1, len, m - len);
    }
  }

  /** The current sub-table can hold y. */
  lemma Fits(w: seq<Entry>, c: Coding, len: nat, r: nat, y: nat, next: nat, curr: nat, low: int)
    requires Inv(w, c, len, r, y, next, curr, low)
    ensures len - DropOf(c, y) <= curr && c.lens[y] == len && next + Pow2(curr) <= |w|
  {
    hide Pow2, Subscribed, AllFilled, OldFilled, Prefix;
    assert !Before(c.lens, y, y);
  }

  /** Whether the next symbol needs a sub-table of its own. */
  lemma LowTells(w: seq<Entry>, c: Coding, len: nat, r: nat, y: nat, next: nat, curr: nat, low: int, z: nat)
    requires Inv(w, c, len, r, y, next, curr, low) && Uses(c.lens, z) && c.lens[z] > c.root && c.lens[z] >= len
    ensures FromBits(Prefix(c.lens, z, c.root)) != low
            <==> (len > c.root ==> Prefix(c.lens, y, c.root) != Prefix(c.lens, z, c.root))
  {
    hide Pow2, Subscribed, AllFilled, OldFilled, Prefix, Roomy, Bits;
    FromFits(Prefix(c.lens, z, c.root));
    if len > c.root { FromFits(Prefix(c.lens, y, c.root)); }
  }

  lemma LinkTail(t: seq<Entry>, at: nat, i: nat, e: Entry)
    requires at + i < |t|
    ensures t[at + i := e][at..] == t[at..][i := e] && t[at + i := e][..at] == t[..at]
  {
  }

  /** A new sub-table, or the mark that there is no space for it. */
  method StartTable(kind: Kind, root: nat, table: array<Entry>, at: nat, count: array<nat>, max: nat, len: nat,
                    next: nat, curr: nat, used: nat,
                    huff: nat, ghost c: Coding, ghost w: seq<Entry>, ghost prev: nat, ghost r: nat, ghost y: nat,
                      ghost low: int, ghost q: nat, ghost z: nat)
    returns (ok: bool, next': nat, curr': nat, low': int, used': nat)
    requires Inv(w, c, prev, r, y, next, curr, low) && Follows(c.lens, prev, r, y, len, q, z) && prev <= len
    requires kind == c.kind && root == c.root && at <= table.Length && table.Length - at >= Enough(c.kind)
             && used == next + Pow2(curr)
    requires Spread(w, table[at..], next, curr, CodeWord(c.lens, y)[DropOf(c, y)..],
                    Leaf(c.kind, y, prev - DropOf(c, y)))
    requires len > c.root && (prev > c.root ==> Prefix(c.lens, y, c.root) != Prefix(c.lens, z, c.root))
    requires Left(c.lens, count[..], len, q) && len <= max <= MAX_BITS
             && forall b: nat :: b > max ==> Count(c.lens, b) == 0
    requires Reversed(huff, Code(c.lens, z), len) && c.kind != Codes
    modifies table
    ensures table[..at] == old(table[..at])
    ensures used' == used + SubSize(c.lens, z, c.root, max) && (ok <==> used' <= Enough(c.kind))
    ensures ok ==> Inv(table[at..], c, len, q, z, next', curr', low') && used' == next' + Pow2(curr') <= Enough(c.kind)
  {
    hide Pow2, Bits, FromBits, LowPart, Reversed, CodeWord, Code, Leaf, Spread, Inv, Left, Done, Prefix, Subscribed,
         Count, SubSize;
    InvSubscribed(w, c, prev, r, y, next, curr, low);
    next' := next + Pow2(curr);
    curr' := LookAhead(count, len, root, max, c, q, z);
    used' := used + Pow2(curr');
    low' := -1;
    ok := used' <= Enough(kind);
    if !ok { return; }
    low' := LowPart(huff, root);
    HuffTail(c.lens, z, huff, c.root);
    SpreadSize(w, table[at..], next, curr, CodeWord(c.lens, y)[DropOf(c, y)..], Leaf(c.kind, y, prev - DropOf(c, y)));
    NewTable(w, table[at..], c, prev, r, y, next, curr, low, len, q, z, curr');
    LinkTail(table[..], at, low', Entry(curr', c.root, next'));
    table[at + low'] := Entry(curr', root, next');
  }

  lemma InvSubscribed(w: seq<Entry>, c: Coding, len: nat, r: nat, y: nat, next: nat, curr: nat, low: int)
    requires Inv(w, c, len, r, y, next, curr, low)
    ensures Subscribed(c.lens)
  {
  }

  /** The codes all entered: `used` entries, the last symbol y in the table at `next`. */
  ghost predicate AllIn(w: seq<Entry>, c: Coding, max: nat, used: nat)
  {
    used <= |w| && AllFilled(w, c, max, Count(c.lens, max), used)
  }

  /** The loop over all symbols. */
  method EnterAll(kind: Kind, root: nat, table: array<Entry>, at: nat, lens: array<nat>, off: nat, work: array<nat>,
                  count: array<nat>, min: nat, max: nat,
                  ghost c: Coding)
    returns (ok: bool, used: nat, huff: nat, ghost last: nat, ghost r: nat)
    requires kind == c.kind && root == c.root && at <= table.Length && table.Length - at >= Enough(c.kind)
    requires off + |c.lens| <= lens.Length && lens[off..off + |c.lens|] == c.lens && work != lens && count != lens
             && work != count
    requires Subscribed(c.lens) && Extremes(c.lens, min, max) && min <= c.root <= max
             && (c.kind == Codes ==> max <= c.root)
    requires Sorted(c.lens, work[..]) && Left(c.lens, count[..], 1, 0) && Pow2(c.root) <= Enough(c.kind)
    modifies table, count
    ensures table[..at] == old(table[..at])
    ensures ok
            ==> used <= Enough(c.kind) && AllIn(table[at..], c, max, used) && Pow2(c.root) <= used
                && AtEnd(c, max, max, r, last, huff)
    ensures ok <==> Space(c.lens, c.root, max) <= Enough(c.kind)
  {
    hide Space, SpaceTo, SubSize, Pow2, Bits, FromBits, LowPart, Reversed, CodeWord, Code, Leaf, Spread, Inv, Position,
         Follows, Prefix, Subscribed, Count, Extremes, AllIn, Sorted, Left;
    ghost var y;
    var len: nat, sym: nat, next: nat, curr: nat, drop: nat := min, 0, 0, root, 0;
    var low: int := -1;
    ok, used, huff, r, last := true, Pow2(root), 0, 0, 0;
    y := Start(table[at..], c, work[..], count[..], min, max);
    PositionFacts(c, work[..], count[..], max, min, 0, y, 0, 0);
    StartSpace(c.lens, c.root, min, max, y);
    while true
      invariant table[..at] == old(table[..at])
      invariant Inv(table[at..], c, len, r, y, next, curr, low)
                && Position(c, work[..], count[..], max, len, r, y, huff, sym)
      invariant used == SpaceTo(c.lens, c.root, max, len, r + 1)
      invariant drop == DropAt(len, c.root) && used == next + Pow2(curr) <= Enough(c.kind) && sym < |c.lens|
      decreases |c.lens| - sym
    {
      PositionFacts(c, work[..], count[..], max, len, r, y, huff, sym);
      Fits(table[at..], c, len, r, y, next, curr, low);
      ghost var w := table[at..];
      var here := EnterSymbol(kind, table, at, work[sym], len, drop, next, curr, huff, c);
      ghost var h, k := huff, count[..];
      huff := Increment(huff, len, Code(c.lens, y));
      Counted(c, work[..], k, max, len, r, y, h, sym, huff);
      sym := sym + 1;
      count[len] := count[len] - 1;
      ghost var prev := len;
      if count[len] == 0 && len == max {
        last := y;
        WholeSpace(c.lens, c.root, max, r + 1);
        Finished(w, table[at..], c, max, r, y, next, curr, low);
        return;
      }
      ghost var m, q, z := ToNext(c, work[..], k, max, len, r, y, h, sym - 1, huff);
      assert count[..] == k[prev := k[prev] - 1];
      if count[len] == 0 {
        assert work[sym] == z && lens[off + z] == c.lens[z];
        len := lens[off + work[sym]];
      }
      assert len == m;
      PositionFacts(c, work[..], count[..], max, len, q, z, huff, sym);
      PrefixLow(c, z, huff);
      InvSubscribed(w, c, prev, r, y, next, curr, low);
      SpaceNext(c.lens, c.root, max, prev, r, y, m, q, z);
      if len > c.root { LowTells(w, c, prev, r, y, next, curr, low, z); }
      if len > root && LowPart(huff, root) != low {
        if drop == 0 { drop := root; }
        var ok', next', curr', low', used' :=
          StartTable(kind, root, table, at, count, max, len, next, curr, used, huff, c, w, prev, r, y, low, q, z);
        if !ok' {
          RankBelow(c.lens, prev, r, y, len, q, z);
          SpaceGrows(c.lens, c.root, max, len, q + 1);
          ok := false;
          return;
        }
        next, curr, low, used := next', curr', low', used';
      } else {
        SameTable(w, table[at..], c, prev, r, y, next, curr, low, m, q, z);
      }
      r, y := q, z;
    }
  }

  lemma WholeSpace(lens: seq<nat>, root: nat, max: nat, r: nat)
    requires r == Count(lens, max)
    ensures SpaceTo(lens, root, max, max, r) == Space(lens, root, max)
  {
  }

  lemma RankBelow(lens: seq<nat>, prev: nat, r: nat, y: nat, len: nat, q: nat, z: nat)
    requires Follows(lens, prev, r, y, len, q, z)
    ensures q + 1 <= Count(lens, len)
  {
    RankMonotone(lens, z, |lens|, len);
  }

  lemma StartSpace(lens: seq<nat>, root: nat, min: nat, max: nat, y: nat)
    requires Extremes(lens, min, max) && min <= root && At(lens, min, 0, y)
    ensures SpaceTo(lens, root, max, min, 1) == Pow2(root)
  {
    SpaceFirst(lens, root, max, min, y);
  }

  function DropAt(len: nat, root: nat): nat { if len <= root then 0 else root }

  lemma PositionFacts(c: Coding, work: seq<nat>, count: seq<nat>, max: nat, len: nat, r: nat, y: nat, huff: nat,
                      sym: nat)
    requires Position(c, work, count, max, len, r, y, huff, sym)
    ensures Uses(c.lens, y) && c.lens[y] == len > 0 && sym < |c.lens| && sym < |work| && work[sym] == y
    ensures DropOf(c, y) == DropAt(len, c.root) && Reversed(huff, Code(c.lens, y), len) && |count| == MAX_BITS + 1
            && len <= max <= MAX_BITS
    ensures Left(c.lens, count, len, r) && forall b: nat :: b > max ==> Count(c.lens, b) == 0
  {
    hide Pow2, Bits, Word, Code, Count, Place;
    PlaceBound(c.lens, y);
  }

  lemma PrefixLow(c: Coding, z: nat, huff: nat)
    requires z < |c.lens| && Reversed(huff, Code(c.lens, z), c.lens[z])
    ensures c.lens[z] > c.root ==> LowPart(huff, c.root) == FromBits(Prefix(c.lens, z, c.root))
  {
    if c.lens[z] > c.root { HuffTail(c.lens, z, huff, c.root); }
  }

  lemma {:induction false} NothingBefore(lens: seq<nat>, b: nat)
    requires forall d: nat :: 0 < d < b ==> Count(lens, d) == 0
    ensures FirstOf(lens, b) == 0 && Offs(lens, b) == 0
  {
    if b > 0 { NothingBefore(lens, b - 1); }
  }

  lemma Start(w: seq<Entry>, c: Coding, work: seq<nat>, count: seq<nat>, min: nat, max: nat) returns (y: nat)
    requires Subscribed(c.lens) && Extremes(c.lens, min, max) && min <= c.root <= max && Pow2(c.root) <= |w|
    requires Sorted(c.lens, work) && Left(c.lens, count, 1, 0)
    ensures Inv(w, c, min, 0, y, 0, c.root, -1) && Position(c, work, count, max, min, 0, y, 0, 0)
            && At(c.lens, min, 0, y)
  {
    hide Pow2, Bits, Word, Subscribed, FirstOf, Offs, Prefix, Filled, CodeWord;
    y := SymbolAt(c.lens, min, 0);
    NothingBefore(c.lens, min);
    CodeAt(c.lens, min, 0, y);
    ZeroBits(min);
    WordZero(min);
    forall x: nat
      ensures !Done(c.lens, min, 0, x)
    {
      if Uses(c.lens, x) { UsedCounts(c.lens, x); }
    }
  }

  lemma WordZero(n: nat)
    ensures Word(0, n) == TableCode.Zeros(n) && 0 < Pow2(n)
  {
    WordZeros(0, 0, n);
    assert 0 * Pow2(n) == 0;
    hide Pow2, TableCode.Zeros;
    assert Word(0, 0) + TableCode.Zeros(n) == TableCode.Zeros(n);
  }

  lemma Finished(w: seq<Entry>, w': seq<Entry>, c: Coding, len: nat, r: nat, y: nat, next: nat, curr: nat, low: int)
    requires Inv(w, c, len, r, y, next, curr, low) && r + 1 == Count(c.lens, len)
    requires Spread(w, w', next, curr, CodeWord(c.lens, y)[DropOf(c, y)..], Leaf(c.kind, y, len - DropOf(c, y)))
    ensures AllIn(w', c, len, next + Pow2(curr)) && Pow2(c.root) <= next + Pow2(curr)
  {
    hide Spread, AllFilled, OldFilled, Pow2, Prefix, CodeWord, Leaf, Subscribed, Roomy;
    Entered(w, w', c, len, r, y, next, curr, low);
  }

  // -- The finished table ---------------------------------------------------------------------------------------

  lemma AllDone(c: Coding, max: nat, x: nat)
    requires Uses(c.lens, x) && forall b: nat :: b > max ==> Count(c.lens, b) == 0
    ensures Done(c.lens, max, Count(c.lens, max), x)
  {
    UsedCounts(c.lens, x);
    RankMonotone(c.lens, x, |c.lens|, c.lens[x]);
  }

  lemma AllDecode(w: seq<Entry>, c: Coding, max: nat, used: nat)
    requires AllIn(w, c, max, used) && Pow2(c.root) <= used && forall b: nat :: b > max ==> Count(c.lens, b) == 0
    ensures forall x: nat | Uses(c.lens, x) :: Filled(w[..used], c, x, used) && Decodes(w[..used], c, x)
  {
    hide Filled, Decodes, Count, Pow2;
    forall x: nat | Uses(c.lens, x)
      ensures Filled(w[..used], c, x, used) && Decodes(w[..used], c, x)
    {
      AllDone(c, max, x);
      FilledAt(w, c, max, Count(c.lens, max), used, x);
      FilledCut(w, c, x, used);
      FilledDecodes(w[..used], c, x, used);
    }
  }

  /** The longest words tell whether the code is complete. */
  lemma FullAtEnd(lens: seq<nat>, max: nat)
    requires Subscribed(lens) && 1 <= max <= MAX_BITS && forall b: nat :: b > max ==> Count(lens, b) == 0
    ensures Full(lens) <==> End(lens, max) == Pow2(max)
  {
    hide Count, FirstOf, Subscribed;
    if max < MAX_BITS {
      EndSkips(lens, max, MAX_BITS);
      Pow2Add(max, MAX_BITS - max);
      hide Pow2;
      SameFactor(End(lens, max), Pow2(max), Pow2(MAX_BITS - max));
    }
  }

  lemma SameFactor(a: nat, b: nat, p: nat)
    requires p > 0
    ensures a * p == b * p <==> a == b
  {
    if a < b { CanonicalCode.MulMonotone(a + 1, b, p); }
    if b < a { CanonicalCode.MulMonotone(b + 1, a, p); }
  }

  /** After all symbols of a complete code the next code word is zero. */
  lemma FullWraps(c: Coding, max: nat, r: nat, y: nat, huff: nat)
    requires Full(c.lens) && AtEnd(c, max, max, r, y, huff) && 1 <= max <= MAX_BITS
             && forall b: nat :: b > max ==> Count(c.lens, b) == 0
    ensures huff == 0
  {
    FullAtEnd(c.lens, max);
    WordZeros(1, 0, max);
    assert 1 * Pow2(max) == Pow2(max);
    FromToBits(huff, max);
    ZeroBits(max);
    FromToBits(0, max);
    hide Pow2, Bits, FromBits, TableCode.Zeros, FirstOf, Count, Subscribed;
    assert Word(1, 0) + TableCode.Zeros(max) == TableCode.Zeros(max);
  }

  /** An incomplete code that gets this far has a single word, of one bit. */
  lemma SingleWord(c: Coding, r: nat, y: nat, huff: nat)
    requires Subscribed(c.lens) && !Full(c.lens) && AtEnd(c, 1, 1, r, y, huff)
             && forall b: nat :: b > 1 ==> Count(c.lens, b) == 0
    ensures huff == 1 && forall x: nat | Uses(c.lens, x) :: CodeWord(c.lens, x) == [false]
  {
    FullAtEnd(c.lens, 1);
    assert FirstOf(c.lens, 1) == 0 && Pow2(1) == 2 && Pow2(0) == 1;
    assert FirstOf(c.lens, 1) + Count(c.lens, 1) <= Pow2(1);
    CodeAt(c.lens, 1, r, y);
    assert Count(c.lens, 1) == 1;
    assert Word(1, 1) == Word(0, 0) + [true] == [true];
    assert Bits(huff, 1) == [huff % 2 == 1] + Bits(huff / 2, 0) == [huff % 2 == 1];
    forall x: nat | Uses(c.lens, x)
      ensures CodeWord(c.lens, x) == [false]
    {
      UsedCounts(c.lens, x);
      CodeAt(c.lens, 1, Rank(c.lens, x, 1), x);
      assert Word(0, 1) == Word(0, 0) + [false] == [false];
    }
  }

  lemma TableIs(w: seq<Entry>, c: Coding, limit: nat)
    requires forall x: nat | Uses(c.lens, x) :: Filled(w, c, x, limit) && Decodes(w, c, x)
    requires Full(c.lens)
    ensures Table(w, c)
  {
    hide Filled, Decodes, Full, WholeLinks;
    LinksAreWhole(w, c, limit);
  }

  lemma BitIndex()
    ensures Pow2(1) == 2 && Pow2(0) == 1 && FromBits([true]) == 1 && FromBits([false]) == 0
    ensures Bits(1, 1) == [true] && Bits(0, 1) == [false] && !([false] <= [true])
  {
    assert [false][0] != [true][0];
    assert FromBits([true]) == 1 + 2 * FromBits([true][1..]);
    assert FromBits([false]) == 2 * FromBits([false][1..]);
    assert Bits(1, 1) == [true] + Bits(0, 0);
    assert Bits(0, 1) == [false] + Bits(0, 0);
  }

  /** The mark of an invalid code at index 1, or at both. */
  lemma MarkedTable(w: seq<Entry>, c: Coding)
    requires c.root == 1 && |w| >= 2 && w[1] == Entry(64, 1, 0)
    requires (forall x: nat :: !Uses(c.lens, x)) ==> w[0] == Entry(64, 1, 0)
    requires forall x: nat | Uses(c.lens, x) ::
             CodeWord(c.lens, x) == [false] && c.lens[x] == 1 && w[0] == Leaf(c.kind, x, 1)
    ensures Table(w, c)
  {
    BitIndex();
    hide CodeWord, FromBits, Bits, Pow2, Leaf, Full;
    forall x: nat | Uses(c.lens, x)
      ensures Decodes(w, c, x)
    {
      forall i: nat | i < Pow2(1) && CodeWord(c.lens, x) <= Bits(i, 1)
        ensures w[i] == Leaf(c.kind, x, c.lens[x])
      {
      }
      FilledDecodes(w, c, x, 2);
    }
    forall i: nat | i < Pow2(1)
      ensures !IsLink(w[i])
    {
      if x: nat :| Uses(c.lens, x) { LeafNoLink(c.kind, x, 1); }
    }
    forall s: seq<bool> | s != [] && NoWord(c.lens, s)
      ensures Lookup(w, c.root, s) == Found(64, 0, 1)
    {
      assert Ahead(s, 1) == if s[0] then [true] else [false];
      if x: nat :| Uses(c.lens, x) { StartsTrue(c.lens, x, s); }
    }
  }

  lemma StartsTrue(lens: seq<nat>, x: nat, s: seq<bool>)
    requires Uses(lens, x) && CodeWord(lens, x) == [false] && s != [] && NoWord(lens, s)
    ensures s[0]
  {
    assert !Starts(lens, s, x);
    assert !([false] <= s);
  }

  /** What inflate_table refuses. */
  ghost predicate Refused(kind: Kind, lens: seq<nat>) { !BlockHeader.Acceptable(lens, kind == Codes) }

  lemma LensUsed(lens: seq<nat>, max: nat)
    requires forall b: nat :: b > max ==> Count(lens, b) == 0
    ensures forall x | 0 <= x < |lens| :: lens[x] <= max
  {
    forall x: nat | x < |lens|
      ensures lens[x] <= max
    {
      if lens[x] > 0 { UsedCounts(lens, x); }
    }
  }

  lemma SomeUsed(lens: seq<nat>, b: nat)
    requires Count(lens, b) > 0
    ensures exists x :: 0 <= x < |lens| && lens[x] == b > 0
  {
    var y := SymbolAt(lens, b, 0);
  }

  /** The test after the counts, in terms of the code. */
  lemma RefusedIs(kind: Kind, lens: seq<nat>, max: nat, left: int)
    requires 1 <= max <= MAX_BITS && Count(lens, max) > 0 && forall b: nat :: b > max ==> Count(lens, b) == 0
    requires left >= 0 <==> Subscribed(lens)
    requires left >= 0 ==> left == Pow2(MAX_BITS) - End(lens, MAX_BITS)
    ensures Refused(kind, lens) <==> left < 0 || (left > 0 && (kind == Codes || max != 1))
    ensures left >= 0 ==> (left == 0 <==> Full(lens))
  {
    LensUsed(lens, max);
    SomeUsed(lens, max);
    FullIsKraft(lens);
    hide Count, FirstOf, Subscribed, Pow2, Taken;
  }

  lemma NothingRefused(kind: Kind, lens: seq<nat>)
    requires forall b: nat :: b > 0 ==> Count(lens, b) == 0
    ensures !Refused(kind, lens) && forall x: nat :: !Uses(lens, x)
  {
    LensUsed(lens, 0);
    hide Subscribed, Taken, Count;
  }

  /** Small root tables fit. */
  lemma RootFits(root: nat)
    ensures root <= 7 ==> Pow2(root) <= 128
    ensures root > 0 ==> Pow2(root) >= 2
  {
    if root <= 7 {
      Pow2Monotone(root, 7);
      SmallSeven();
    }
    if root > 0 {
      Pow2Monotone(1, root);
      assert Pow2(1) == 2;
    }
  }

  lemma SmallSeven()
    ensures Pow2(7) == 128
  {
    assert Pow2(3) == 8 && Pow2(7) == 2 * Pow2(6) == 4 * Pow2(5) == 8 * Pow2(4) == 16 * Pow2(3);
  }

  lemma CutFrom(t: seq<Entry>, at: nat, used: nat)
    requires at + used <= |t|
    ensures t[at..][..used] == t[at..at + used]
  {
  }

  /** The entry left over when the code is incomplete. */
  method MarkRest(table: array<Entry>, at: nat, used: nat, huff: nat, root: nat, max: nat, ghost c: Coding,
                  ghost r: nat, ghost y: nat)
    requires at + used <= table.Length && root == c.root && 1 <= root <= max <= MAX_BITS && Pow2(root) <= used
    requires Subscribed(c.lens) && (Full(c.lens) || max == 1) && AtEnd(c, max, max, r, y, huff)
    requires (forall b: nat :: b > max ==> Count(c.lens, b) == 0) && AllIn(table[at..], c, max, used)
    modifies table
    ensures table[..at] == old(table[..at]) && Table(table[at..at + used], c)
  {
    hide Pow2, Subscribed, AtEnd, AllIn, Count, Full, Filled, Decodes, Table;
    AllDecode(table[at..], c, max, used);
    CutFrom(table[..], at, used);
    ghost var w := table[at..at + used];
    AtEndUses(c, max, r, y, huff);
    if Full(c.lens) {
      FullWraps(c, max, r, y, huff);
      TableIs(w, c, used);
    } else {
      SingleWord(c, r, y, huff);
      RootFits(root);
    }
    if huff != 0 {
      table[at + huff] := Entry(64, 1, 0);
      assert table[at..at + used] == w[1 := Entry(64, 1, 0)];
      forall x: nat | Uses(c.lens, x)
        ensures CodeWord(c.lens, x) == [false] && c.lens[x] == 1 && w[0] == Leaf(c.kind, x, 1)
      {
        FirstEntry(w, c, x, used);
      }
      MarkedTable(table[at..at + used], c);
    }
  }

  lemma AtEndUses(c: Coding, max: nat, r: nat, y: nat, huff: nat)
    requires AtEnd(c, max, max, r, y, huff)
    ensures Uses(c.lens, y)
  {
  }

  lemma FirstEntry(w: seq<Entry>, c: Coding, x: nat, limit: nat)
    requires Uses(c.lens, x) && CodeWord(c.lens, x) == [false] && c.root == 1 && Filled(w, c, x, limit) && |w| > 0
    ensures c.lens[x] == 1 && w[0] == Leaf(c.kind, x, 1)
  {
    BitIndex();
    hide Bits, Leaf, Pow2;
    assert |CodeWord(c.lens, x)| == 1;
  }

  /** inflate_table, for the lengths from `off` on: `end` is where the next table may start, `root` the number of index
      bits of the root table. */
  method Build(kind: Kind, lens: array<nat>, off: nat, codes: nat, table: array<Entry>, at: nat, bits: nat,
               work: array<nat>)
    returns (ret: int, end: nat, root: nat)
    requires off + codes <= lens.Length && codes <= work.Length && lens != work && codes <= SymbolLimit(kind)
    requires forall x | off <= x < off + codes :: lens[x] <= MAX_BITS
    requires at <= table.Length && table.Length - at >= Enough(kind)
    requires kind == Codes ==> bits >= 7 && forall x | off <= x < off + codes :: lens[x] <= 7
    modifies table, work
    ensures bits in lens[off..off + codes] && bits > 0 && (forall x | off <= x < off + codes :: lens[x] <= bits)
            ==> root == bits
    ensures table[..at] == old(table[..at]) && ret in {-1, 0, 1}
    ensures ret == -1 <==> Refused(kind, lens[off..off + codes])
    ensures ret == 1 <==> !Refused(kind, lens[off..off + codes]) && Overflows(kind, lens[off..off + codes], bits)
    ensures ret == 0 ==> MaxLength(lens[off..off + codes]) > 0 ==> root == RootBits(lens[off..off + codes], bits)
    ensures ret == 0
            ==> at < end <= at + Enough(kind) && root > 0
                && Table(table[at..end], Coding(kind, lens[off..off + codes], root))
    ensures ret == 0 && kind == Codes ==> forall x | off <= x < off + codes :: lens[x] <= root
  {
    hide Pow2, Subscribed, AtEnd, AllIn, Count, Full, Filled, Decodes, Table, Refused, Left, Sorted, Overflows, Space,
         Extremes;
    ghost var ls := lens[off..off + codes];
    end := at;
    var count := CountLengths(lens, off, codes);
    var max := Longest(count, ls);
    root := if bits > max then max else bits;
    assert forall x | off <= x < off + codes :: lens[x] == ls[x - off];
    LongestIs(ls, bits, max);
    MaxIs(ls, MAX_BITS, max);
    if max == 0 {
      NothingRefused(kind, ls);
      LensUsed(ls, 0);
      NoCodes(kind, ls, bits);
      table[at], table[at + 1] := Entry(64, 1, 0), Entry(64, 1, 0);
      MarkedTable(table[at..at + 2], Coding(kind, ls, 1));
      return 0, at + 2, 1;
    }
    var min := Shortest(count, max, ls);
    if root < min { root := min; }
    RootIs(ls, bits, min, max, root);
    var left := WordsLeft(count, ls);
    RefusedIs(kind, ls, max, left);
    if left < 0 || (left > 0 && (kind == Codes || max != 1)) { return -1, end, root; }
    RootFits(root);
    if kind == Codes { LongestUsed(ls, max); }
    LensUsed(ls, max);
    OverflowIs(kind, ls, bits, max, root);
    if Pow2(root) > Enough(kind) { return 1, end, root; }
    ret, end := Fill(kind, root, lens, off, codes, table, at, work, count, min, max, ls);
  }

  lemma NoCodes(kind: Kind, lens: seq<nat>, bits: nat)
    requires LongestUpTo(lens, MAX_BITS) == 0
    ensures !Overflows(kind, lens, bits) && MaxLength(lens) == 0
  {
  }

  lemma RootIs(lens: seq<nat>, bits: nat, min: nat, max: nat, root: nat)
    requires Extremes(lens, min, max) && LongestUpTo(lens, MAX_BITS) == max
    requires root == if (if bits > max then max else bits) < min then min else if bits > max then max else bits
    ensures MaxLength(lens) == max && root == RootBits(lens, bits) && 1 <= min <= root <= max
            && (bits >= max ==> root == max)
  {
    TableSpace.MinIs(lens, 1, min, max);
    hide Count;
  }

  lemma OverflowIs(kind: Kind, lens: seq<nat>, bits: nat, max: nat, root: nat)
    requires MaxLength(lens) == max > 0 && root == RootBits(lens, bits)
             && (kind == Codes ==> bits >= max && max <= 7 && root == max)
    ensures Overflows(kind, lens, bits) <==> kind != Codes && Space(lens, root, max) > Enough(kind)
    ensures Pow2(root) > Enough(kind) ==> Space(lens, root, max) > Enough(kind) && kind != Codes
    ensures kind == Codes && (forall x | 0 <= x < |lens| :: lens[x] <= max) && max <= MAX_BITS
            ==> Space(lens, root, max) <= Enough(kind)
  {
    SpaceAtLeast(lens, root, max);
    RootFits(root);
    hide Space;
    if kind == Codes && (forall x | 0 <= x < |lens| :: lens[x] <= max) { NoSubTables(lens, max); }
  }

  lemma NoSubTables(lens: seq<nat>, max: nat)
    requires forall x | 0 <= x < |lens| :: lens[x] <= max
    ensures Space(lens, max, max) == Pow2(max)
  {
    assert Openers(lens, max, max, Count(lens, max)) == {};
    SumEmpty(SubSizes(lens, max, max));
  }

  lemma LongestIs(lens: seq<nat>, bits: nat, max: nat)
    requires forall b: nat :: b > max ==> Count(lens, b) == 0
    requires max > 0 ==> Count(lens, max) > 0
    ensures bits in lens && bits > 0 ==> max >= bits
    ensures (forall x | 0 <= x < |lens| :: lens[x] <= bits) ==> max <= bits
  {
    LensUsed(lens, max);
    if max > 0 { SomeUsed(lens, max); }
  }

  /** Sorting, and filling the table. */
  method Fill(kind: Kind, root: nat, lens: array<nat>, off: nat, codes: nat, table: array<Entry>, at: nat,
              work: array<nat>, count: array<nat>,
              min: nat, max: nat, ghost ls: seq<nat>) returns (ret: int, end: nat)
    requires off + codes <= lens.Length && codes <= work.Length && lens != work && ls == lens[off..off + codes]
             && count != lens && count != work
    requires (forall x | off <= x < off + codes :: lens[x] <= MAX_BITS) && at <= table.Length
             && table.Length - at >= Enough(kind)
    requires Subscribed(ls) && Extremes(ls, min, max) && min <= root <= max && (kind == Codes ==> max <= root)
             && Pow2(root) <= Enough(kind)
    requires (Full(ls) || max == 1) && Left(ls, count[..], 1, 0)
    modifies table, work, count
    ensures table[..at] == old(table[..at]) && ret in {0, 1}
    ensures ret == 1 <==> Space(ls, root, max) > Enough(kind)
    ensures ret == 0 ==> at < end <= at + Enough(kind) && Table(table[at..end], Coding(kind, ls, root))
  {
    hide Pow2, Subscribed, AtEnd, AllIn, Count, Full, Filled, Decodes, Table, Left, Sorted, Space;
    var offs := Offsets(count, ls);
    Sort(lens, off, codes, offs, work);
    RootFits(root);
    ghost var c := Coding(kind, ls, root);
    var ok, used, huff;
    ghost var last, r;
    ok, used, huff, last, r := EnterAll(kind, root, table, at, lens, off, work, count, min, max, c);
    if !ok { return 1, at; }
    MarkRest(table, at, used, huff, root, max, c, r, last);
    ret, end := 0, at + used;
  }

  lemma LongestUsed(lens: seq<nat>, max: nat)
    requires Count(lens, max) > 0 && forall x | 0 <= x < |lens| :: lens[x] <= 7
    ensures max <= 7
  {
    SomeUsed(lens, max);
  }
}
