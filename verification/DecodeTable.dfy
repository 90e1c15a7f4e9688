/** The two-level tables of inftrees.c: what it means that an entry decodes a symbol, what one more symbol or sub-table
    keeps, and that a finished table decodes the canonical code. */
module DecodeTable {
  import opened Wrappers
  import opened Kraft
  import opened CanonicalCode
  import opened GenCodes
  import opened BlockTables
  import opened BlockCode
  import opened TableCode

  datatype Entry = Entry(op: nat, bits: nat, val: nat)

  datatype Kind = Codes | Lens | Dists

  /** The symbols from which base values and extra bits are used. */
  function FirstBase(kind: Kind): nat {
    match kind
    case Codes => 20
    case Lens => 257
    case Dists => 0
  }

  function BaseOf(kind: Kind, i: nat): nat {
    match kind
    case Codes => 0
    case Lens => LengthBase(i)
    case Dists => DistBase(i)
  }

  /** The operation of a length or a distance; the codes that are never valid are marked so. */
  function ExtraOf(kind: Kind, i: nat): nat {
    match kind
    case Codes => 0
    case Lens => if i < L_CODES then 16 + LengthXBits(i) else if i == L_CODES then 77 else 202
    case Dists => if i < D_CODES then 16 + DistXBits(i) else 64
  }

  /** How many symbols a code of each kind may have. */
  function SymbolLimit(kind: Kind): nat {
    match kind
    case Codes => 19
    case Lens => 288
    case Dists => 32
  }

  /** The entry that decodes symbol x, whose last n bits are left when it is reached. */
  function Leaf(kind: Kind, x: nat, n: nat): Entry {
    if x + 1 < FirstBase(kind) then Entry(0, n, x)
    else if x >= FirstBase(kind) then Entry(ExtraOf(kind, x - FirstBase(kind)), n, BaseOf(kind, x - FirstBase(kind)))
    else Entry(96, n, 0)
  }

  predicate IsLink(e: Entry) { 0 < e.op < 16 }

  lemma LeafNoLink(kind: Kind, x: nat, n: nat)
    ensures !IsLink(Leaf(kind, x, n)) && Leaf(kind, x, n).bits == n
  {
  }

  // -- Using a table --------------------------------------------------------------------------------------------

  /** What BITS(n) sees: the next n bits, with zeros for those not there. */
  function Ahead(s: seq<bool>, n: nat): (r: seq<bool>)
    ensures |r| == n
  {
    if n <= |s| then s[..n] else s + Zeros(n - |s|)
  }

  datatype Found = Found(op: nat, val: nat, total: nat)

  /** BITS(last.bits + last.op) >> last.bits */
  function SubIndex(s: seq<bool>, last: Entry): nat { FromBits(Ahead(s, last.bits + last.op)[last.bits..]) }

  lemma SubIndexIs(s: seq<bool>, last: Entry)
    ensures SubIndex(s, last) < Pow2(last.op)
            && Bits(SubIndex(s, last), last.op) == Ahead(s, last.bits + last.op)[last.bits..]
  {
    FromFits(Ahead(s, last.bits + last.op)[last.bits..]);
  }

  /** The lookup of states LEN, DIST and CODELENS: the entry, and the bits of both levels together. */
  function Lookup(w: seq<Entry>, root: nat, s: seq<bool>): Found
  {
    var i := FromBits(Ahead(s, root));
    if i >= |w| then Found(64, 0, 0)
    else
      var last := w[i];
      if !IsLink(last) then Found(last.op, last.val, last.bits)
      else
        var j := last.val + SubIndex(s, last);
        if j >= |w| then Found(64, 0, 0) else Found(w[j].op, w[j].val, last.bits + w[j].bits)
  }

  // -- Entries in place -----------------------------------------------------------------------------------------

  datatype Coding = Coding(kind: Kind, lens: seq<nat>, root: nat)

  ghost predicate RootFilled(w: seq<Entry>, c: Coding, x: nat)
    requires Uses(c.lens, x)
  {
    Pow2(c.root) <= |w|
    && forall i: nat | i < Pow2(c.root) && CodeWord(c.lens, x) <= Bits(i, c.root) :: w[i] == Leaf(c.kind, x, c.lens[x])
  }

  /** The entry for the first bits of x links to a sub-table that ends before `limit`. */
  ghost predicate Linked(w: seq<Entry>, c: Coding, x: nat, limit: nat)
    requires Uses(c.lens, x) && c.lens[x] > c.root
  {
    var low := FromBits(Prefix(c.lens, x, c.root));
    Pow2(c.root) <= limit <= |w| && low < Pow2(c.root)
    && w[low].bits == c.root && IsLink(w[low]) && c.lens[x] - c.root <= w[low].op
    && Pow2(c.root) <= w[low].val && w[low].val + Pow2(w[low].op) <= limit
  }

  ghost predicate SubFilled(w: seq<Entry>, c: Coding, x: nat, op: nat, val: nat)
    requires Uses(c.lens, x) && c.lens[x] > c.root
  {
    val + Pow2(op) <= |w|
    && forall j: nat | j < Pow2(op) && CodeWord(c.lens, x)[c.root..] <= Bits(j, op) ::
       w[val + j] == Leaf(c.kind, x, c.lens[x] - c.root)
  }

  ghost predicate Filled(w: seq<Entry>, c: Coding, x: nat, limit: nat)
    requires Uses(c.lens, x)
  {
    if c.lens[x] <= c.root then RootFilled(w, c, x)
    else
      Linked(w, c, x, limit)
      && var e := w[FromBits(Prefix(c.lens, x, c.root))];
         SubFilled(w, c, x, e.op, e.val)
  }

  /** The symbols that come before rank r of length len are in place. */
  ghost predicate AllFilled(w: seq<Entry>, c: Coding, len: nat, r: nat, limit: nat)
  {
    forall x: nat | Done(c.lens, len, r, x) :: Filled(w, c, x, limit)
  }

  /** Those with other first bits than y are in place before the current sub-table. */
  ghost predicate OldFilled(w: seq<Entry>, c: Coding, len: nat, r: nat, y: nat, next: nat)
    requires Uses(c.lens, y) && c.lens[y] > c.root
  {
    forall x: nat | Done(c.lens, len, r, x) && c.lens[x] > c.root
      && Prefix(c.lens, x, c.root) != Prefix(c.lens, y, c.root) ::
      Filled(w, c, x, next)
  }

  /** The current sub-table has room for the words that share the first bits of y. */
  ghost predicate Roomy(c: Coding, y: nat, curr: nat)
    requires Uses(c.lens, y) && c.lens[y] > c.root
  {
    forall z: nat | Uses(c.lens, z) && !Before(c.lens, z, y) && c.lens[z] > c.root
      && Prefix(c.lens, z, c.root) == Prefix(c.lens, y, c.root) ::
      c.lens[z] <= c.root + curr
  }

  /** The table that y goes to. */
  ghost predicate Current(w: seq<Entry>, c: Coding, y: nat, next: nat, curr: nat, low: int)
    requires Uses(c.lens, y)
  {
    next + Pow2(curr) <= |w| && Pow2(c.root) <= next + Pow2(curr)
    && if c.lens[y] <= c.root then next == 0 && curr == c.root && low == -1
       else
         Pow2(c.root) <= next && low == FromBits(Prefix(c.lens, y, c.root)) && 0 <= low < Pow2(c.root)
         && w[low] == Entry(curr, c.root, next) && 0 < curr < 16 && Roomy(c, y, curr)
  }

  /** What holds when y, at rank r of length len, is about to be entered. */
  ghost predicate Inv(w: seq<Entry>, c: Coding, len: nat, r: nat, y: nat, next: nat, curr: nat, low: int)
  {
    Subscribed(c.lens) && At(c.lens, len, r, y) && Current(w, c, y, next, curr, low)
    && AllFilled(w, c, len, r, next + Pow2(curr)) && (len > c.root ==> OldFilled(w, c, len, r, y, next))
  }

  // -- Entering a symbol ----------------------------------------------------------------------------------------

  function DropOf(c: Coding, y: nat): nat
    requires y < |c.lens|
  {
    if c.lens[y] <= c.root then 0 else c.root
  }

  /** `here` copied to every entry of the table at `next` whose index starts with `word`. */
  ghost predicate Spread(before: seq<Entry>, after: seq<Entry>, next: nat, curr: nat, word: seq<bool>, here: Entry)
  {
    |after| == |before|
    && (forall i | 0 <= i < |before| && !(next <= i < next + Pow2(curr)) :: after[i] == before[i])
    && (forall j: nat | j < Pow2(curr) && next + j < |before| ::
          after[next + j] == if word <= Bits(j, curr) then here else before[next + j])
  }

  lemma SpreadAt(before: seq<Entry>, after: seq<Entry>, next: nat, curr: nat, word: seq<bool>, here: Entry, i: nat)
    requires Spread(before, after, next, curr, word, here) && i < |before|
    ensures |after| == |before|
    ensures !(next <= i < next + Pow2(curr)) ==> after[i] == before[i]
    ensures next <= i < next + Pow2(curr) ==> after[i] == if word <= Bits(i - next, curr) then here else before[i]
  {
    if next <= i < next + Pow2(curr) { assert after[next + (i - next)] == after[i]; }
  }

  lemma WordsApart(c: Coding, x: nat, y: nat, s: seq<bool>)
    requires Subscribed(c.lens) && Uses(c.lens, x) && Uses(c.lens, y) && x != y && CodeWord(c.lens, x) <= s
    ensures !(CodeWord(c.lens, y) <= s)
  {
    hide CodeWord, Subscribed;
    if CodeWord(c.lens, y) <= s { DecodesOnce(c.lens, s, x, y); }
  }

  /** Words in one sub-table differ after their first bits. */
  lemma TailsApart(c: Coding, x: nat, y: nat, t: seq<bool>)
    requires Subscribed(c.lens) && Uses(c.lens, x) && Uses(c.lens, y) && x != y && c.lens[x] > c.root
             && c.lens[y] > c.root
    requires Prefix(c.lens, x, c.root) == Prefix(c.lens, y, c.root) && CodeWord(c.lens, x)[c.root..] <= t
    ensures !(CodeWord(c.lens, y)[c.root..] <= t)
  {
    var wx, wy, p := CodeWord(c.lens, x), CodeWord(c.lens, y), Prefix(c.lens, x, c.root);
    assert p == wx[..c.root] && p == wy[..c.root];
    hide CodeWord, Subscribed, Prefix;
    assert wx == p + wx[c.root..] && wy == p + wy[c.root..];
    if wy[c.root..] <= t {
      assert wx <= p + t && wy <= p + t;
      DecodesOnce(c.lens, p + t, x, y);
    }
  }

  lemma FilledY(w: seq<Entry>, w': seq<Entry>, c: Coding, len: nat, r: nat, y: nat, next: nat, curr: nat, low: int)
    requires Inv(w, c, len, r, y, next, curr, low)
    requires Spread(w, w', next, curr, CodeWord(c.lens, y)[DropOf(c, y)..], Leaf(c.kind, y, len - DropOf(c, y)))
    ensures Filled(w', c, y, next + Pow2(curr))
  {
    hide CodeWord, Subscribed, Leaf, Prefix, Bits, Pow2;
    if len <= c.root {
      assert CodeWord(c.lens, y)[0..] == CodeWord(c.lens, y);
    } else {
      SpreadAt(w, w', next, curr, CodeWord(c.lens, y)[c.root..], Leaf(c.kind, y, len - c.root), low);
      assert !Before(c.lens, y, y);
      assert c.lens[y] <= c.root + curr;
    }
  }

  lemma KeepsRoot(w: seq<Entry>, w': seq<Entry>, c: Coding, len: nat, r: nat, y: nat, next: nat, curr: nat, low: int,
                  x: nat)
    requires Inv(w, c, len, r, y, next, curr, low) && Done(c.lens, len, r, x) && c.lens[x] <= c.root
             && RootFilled(w, c, x)
    requires Spread(w, w', next, curr, CodeWord(c.lens, y)[DropOf(c, y)..], Leaf(c.kind, y, len - DropOf(c, y)))
    ensures RootFilled(w', c, x)
  {
    hide CodeWord, Subscribed, Leaf, Prefix, Bits, Pow2, AllFilled, OldFilled, Spread;
    var word, here := CodeWord(c.lens, y)[DropOf(c, y)..], Leaf(c.kind, y, len - DropOf(c, y));
    SpreadSize(w, w', next, curr, word, here);
    forall i: nat | i < Pow2(c.root) && CodeWord(c.lens, x) <= Bits(i, c.root)
      ensures w'[i] == Leaf(c.kind, x, c.lens[x])
    {
      SpreadAt(w, w', next, curr, word, here, i);
      if len <= c.root {
        assert word == CodeWord(c.lens, y);
        WordsApart(c, x, y, Bits(i, c.root));
      }
    }
  }

  lemma SpreadSize(before: seq<Entry>, after: seq<Entry>, next: nat, curr: nat, word: seq<bool>, here: Entry)
    requires Spread(before, after, next, curr, word, here)
    ensures |after| == |before|
  {
  }

  /** A sub-table before the current one is not touched. */
  lemma KeepsOld(w: seq<Entry>, w': seq<Entry>, c: Coding, next: nat, curr: nat, word: seq<bool>, here: Entry, x: nat)
    requires Uses(c.lens, x) && c.lens[x] > c.root && Filled(w, c, x, next) && Spread(w, w', next, curr, word, here)
    ensures Filled(w', c, x, next)
  {
    hide CodeWord, Leaf, Prefix, Bits, Pow2, IsLink;
  }

  /** Nor are the entries of other words in the current one. */
  lemma KeepsCurrent(w: seq<Entry>, w': seq<Entry>, c: Coding, len: nat, r: nat, y: nat, next: nat, curr: nat, low: int,
                     x: nat)
    requires Inv(w, c, len, r, y, next, curr, low) && Done(c.lens, len, r, x) && c.lens[x] > c.root && len > c.root
    requires Prefix(c.lens, x, c.root) == Prefix(c.lens, y, c.root) && Filled(w, c, x, next + Pow2(curr))
    requires Spread(w, w', next, curr, CodeWord(c.lens, y)[c.root..], Leaf(c.kind, y, len - c.root))
    ensures Filled(w', c, x, next + Pow2(curr))
  {
    hide CodeWord, Subscribed, Leaf, Prefix, Bits, Pow2, AllFilled, OldFilled, Spread, Roomy;
    var word, here := CodeWord(c.lens, y)[c.root..], Leaf(c.kind, y, len - c.root);
    SpreadSize(w, w', next, curr, word, here);
    SpreadAt(w, w', next, curr, word, here, low);
    forall j: nat | j < Pow2(curr) && CodeWord(c.lens, x)[c.root..] <= Bits(j, curr)
      ensures w'[next + j] == Leaf(c.kind, x, c.lens[x] - c.root)
    {
      SpreadAt(w, w', next, curr, word, here, next + j);
      TailsApart(c, x, y, Bits(j, curr));
    }
  }

  /** Limits may grow. */
  lemma FilledLater(w: seq<Entry>, c: Coding, x: nat, limit: nat, more: nat)
    requires Uses(c.lens, x) && Filled(w, c, x, limit) && limit <= more <= |w|
    ensures Filled(w, c, x, more)
  {
    hide CodeWord, Leaf, Prefix, Bits, Pow2, IsLink;
  }

  /** One symbol entered: it and all before it are in place, those with other first bits before the current sub-table.
      */
  lemma Entered(w: seq<Entry>, w': seq<Entry>, c: Coding, len: nat, r: nat, y: nat, next: nat, curr: nat, low: int)
    requires Inv(w, c, len, r, y, next, curr, low)
    requires Spread(w, w', next, curr, CodeWord(c.lens, y)[DropOf(c, y)..], Leaf(c.kind, y, len - DropOf(c, y)))
    ensures AllFilled(w', c, len, r + 1, next + Pow2(curr))
    ensures len > c.root ==> OldFilled(w', c, len, r + 1, y, next)
    ensures |w'| == |w| && (len > c.root ==> 0 <= low < |w| && w'[low] == w[low])
  {
    hide CodeWord, Subscribed, Leaf, Prefix, Bits, Pow2, AllFilled, Spread, Roomy, OldFilled, Filled, RootFilled;
    var word, here := CodeWord(c.lens, y)[DropOf(c, y)..], Leaf(c.kind, y, len - DropOf(c, y));
    SpreadSize(w, w', next, curr, word, here);
    if len > c.root { SpreadAt(w, w', next, curr, word, here, low); }
    forall x: nat | Done(c.lens, len, r + 1, x)
      ensures Filled(w', c, x, next + Pow2(curr))
      ensures len > c.root && c.lens[x] > c.root && Prefix(c.lens, x, c.root) != Prefix(c.lens, y, c.root)
              ==> Filled(w', c, x, next)
    {
      DoneNext(c.lens, len, r, y, x);
      if x == y { FilledY(w, w', c, len, r, y, next, curr, low); } else {
        EnteredOther(w, w', c, len, r, y, next, curr, low, x);
      }
    }
    AllFilledIs(w', c, len, r + 1, next + Pow2(curr));
    if len > c.root { OldFilledIs(w', c, len, r + 1, y, next); }
  }

  lemma AllFilledIs(w: seq<Entry>, c: Coding, len: nat, r: nat, limit: nat)
    requires forall x: nat | Done(c.lens, len, r, x) :: Filled(w, c, x, limit)
    ensures AllFilled(w, c, len, r, limit)
  {
  }

  lemma OldFilledIs(w: seq<Entry>, c: Coding, len: nat, r: nat, y: nat, next: nat)
    requires Uses(c.lens, y) && c.lens[y] > c.root
    requires forall x: nat | Done(c.lens, len, r, x) && c.lens[x] > c.root
             && Prefix(c.lens, x, c.root) != Prefix(c.lens, y, c.root) ::
      Filled(w, c, x, next)
    ensures OldFilled(w, c, len, r, y, next)
  {
  }

  lemma EnteredOther(w: seq<Entry>, w': seq<Entry>, c: Coding, len: nat, r: nat, y: nat, next: nat, curr: nat, low: int,
                     x: nat)
    requires Inv(w, c, len, r, y, next, curr, low) && Done(c.lens, len, r, x)
    requires Spread(w, w', next, curr, CodeWord(c.lens, y)[DropOf(c, y)..], Leaf(c.kind, y, len - DropOf(c, y)))
    ensures Filled(w', c, x, next + Pow2(curr))
    ensures len > c.root && c.lens[x] > c.root && Prefix(c.lens, x, c.root) != Prefix(c.lens, y, c.root)
            ==> Filled(w', c, x, next)
  {
    hide CodeWord, Subscribed, Leaf, Prefix, Bits, Pow2, Spread, Roomy, RootFilled, Linked, SubFilled;
    var word, here := CodeWord(c.lens, y)[DropOf(c, y)..], Leaf(c.kind, y, len - DropOf(c, y));
    SpreadSize(w, w', next, curr, word, here);
    assert Filled(w, c, x, next + Pow2(curr));
    if c.lens[x] <= c.root {
      KeepsRoot(w, w', c, len, r, y, next, curr, low, x);
    } else if Prefix(c.lens, x, c.root) == Prefix(c.lens, y, c.root) {
      KeepsCurrent(w, w', c, len, r, y, next, curr, low, x);
    } else {
      KeepsOld(w, w', c, next, curr, word, here, x);
      FilledLater(w', c, x, next, next + Pow2(curr));
    }
  }

  // -- Going to the next symbol ---------------------------------------------------------------------------------

  /** The next symbol, z at rank q of length m, follows y. */
  ghost predicate Follows(lens: seq<nat>, len: nat, r: nat, y: nat, m: nat, q: nat, z: nat)
  {
    At(lens, len, r, y) && At(lens, m, q, z)
    && forall x: nat :: Done(lens, m, q, x) <==> Done(lens, len, r + 1, x)
  }

  lemma FollowsBefore(lens: seq<nat>, len: nat, r: nat, y: nat, m: nat, q: nat, z: nat)
    requires Follows(lens, len, r, y, m, q, z)
    ensures Before(lens, y, z)
  {
    assert Done(lens, len, r + 1, y);
    DoneBefore(lens, m, q, y, z);
  }

  lemma AllFilledNext(w: seq<Entry>, c: Coding, len: nat, r: nat, y: nat, m: nat, q: nat, z: nat, limit: nat)
    requires Follows(c.lens, len, r, y, m, q, z) && AllFilled(w, c, len, r + 1, limit)
    ensures AllFilled(w, c, m, q, limit)
  {
    hide Filled, Done;
  }

  /** The next symbol goes to the same table. */
  lemma SameTable(w: seq<Entry>, w': seq<Entry>, c: Coding, len: nat, r: nat, y: nat, next: nat, curr: nat, low: int,
                  m: nat, q: nat, z: nat)
    requires Inv(w, c, len, r, y, next, curr, low) && Follows(c.lens, len, r, y, m, q, z)
    requires Spread(w, w', next, curr, CodeWord(c.lens, y)[DropOf(c, y)..], Leaf(c.kind, y, len - DropOf(c, y)))
    requires m <= c.root || (len > c.root && Prefix(c.lens, y, c.root) == Prefix(c.lens, z, c.root))
    ensures Inv(w', c, m, q, z, next, curr, low)
  {
    hide CodeWord, Subscribed, Leaf, Prefix, Bits, Pow2, Spread, Filled, Done, AllFilled, OldFilled, Roomy;
    Entered(w, w', c, len, r, y, next, curr, low);
    AllFilledNext(w', c, len, r, y, m, q, z, next + Pow2(curr));
    FollowsBefore(c.lens, len, r, y, m, q, z);
    if m > c.root {
      SameOld(w', c, len, r, y, m, q, z, next);
      SameRoom(c, y, z, curr);
    }
  }

  lemma SameOld(w: seq<Entry>, c: Coding, len: nat, r: nat, y: nat, m: nat, q: nat, z: nat, next: nat)
    requires Follows(c.lens, len, r, y, m, q, z) && len > c.root && m > c.root && OldFilled(w, c, len, r + 1, y, next)
    requires Prefix(c.lens, y, c.root) == Prefix(c.lens, z, c.root)
    ensures OldFilled(w, c, m, q, z, next)
  {
    hide Filled, Prefix, Done;
  }

  lemma SameRoom(c: Coding, y: nat, z: nat, curr: nat)
    requires Uses(c.lens, y) && Uses(c.lens, z) && c.lens[y] > c.root && c.lens[z] > c.root && Before(c.lens, y, z)
    requires Prefix(c.lens, y, c.root) == Prefix(c.lens, z, c.root) && Roomy(c, y, curr)
    ensures Roomy(c, z, curr)
  {
    hide Prefix;
  }

  /** A link does not touch the words in place, whose first bits are others. */
  /** The place of a link in the first level. */
  lemma LinkPlace(c: Coding, z: nat)
    requires Uses(c.lens, z) && c.lens[z] > c.root
    ensures var p := Prefix(c.lens, z, c.root);
            FromBits(p) < Pow2(c.root) && Bits(FromBits(p), c.root) == p && |CodeWord(c.lens, z)| > c.root
              && p == CodeWord(c.lens, z)[..c.root]
  {
    FirstPrefix(c, z);
    FromFits(Prefix(c.lens, z, c.root));
    hide CodeWord, Pow2, Bits, FromBits, Prefix;
  }

  /** A link does not touch the entries of a word that fits the first level. */
  lemma LinkKeepsRoot(w: seq<Entry>, c: Coding, x: nat, z: nat, e: Entry)
    requires Subscribed(c.lens) && Uses(c.lens, x) && Uses(c.lens, z) && Before(c.lens, x, z) && c.lens[z] > c.root
    requires c.lens[x] <= c.root && Pow2(c.root) <= |w| && RootFilled(w, c, x)
             && FromBits(Prefix(c.lens, z, c.root)) < Pow2(c.root)
    ensures RootFilled(w[FromBits(Prefix(c.lens, z, c.root)) := e], c, x)
  {
    hide Subscribed, CodeWord, Leaf, Pow2, Bits, FromBits, Prefix;
    var p := Prefix(c.lens, z, c.root);
    var low := FromBits(p);
    LinkPlace(c, z);
    PrefixesDiffer(c.lens, x, z);
    assert p <= CodeWord(c.lens, z);
    assert !(CodeWord(c.lens, x) <= p);
  }

  /** Nor those of another sub-table. */
  lemma LinkKeepsSub(w: seq<Entry>, c: Coding, x: nat, z: nat, limit: nat, e: Entry)
    requires Uses(c.lens, x) && c.lens[x] > c.root && Uses(c.lens, z) && c.lens[z] > c.root
             && Pow2(c.root) <= limit <= |w| && Filled(w, c, x, limit)
    requires Prefix(c.lens, x, c.root) != Prefix(c.lens, z, c.root)
             && FromBits(Prefix(c.lens, z, c.root)) < Pow2(c.root)
    ensures Filled(w[FromBits(Prefix(c.lens, z, c.root)) := e], c, x, limit)
  {
    hide Subscribed, CodeWord, Leaf, Pow2, Bits, FromBits, Prefix, IsLink;
    LinkPlace(c, x);
    LinkPlace(c, z);
    assert FromBits(Prefix(c.lens, x, c.root)) != FromBits(Prefix(c.lens, z, c.root));
  }

  lemma LinkKeeps(w: seq<Entry>, c: Coding, x: nat, z: nat, limit: nat, e: Entry)
    requires Subscribed(c.lens) && Uses(c.lens, x) && Uses(c.lens, z) && Before(c.lens, x, z) && c.lens[z] > c.root
    requires c.lens[x] > c.root ==> Prefix(c.lens, x, c.root) != Prefix(c.lens, z, c.root)
    requires Pow2(c.root) <= limit <= |w| && Filled(w, c, x, limit)
    ensures FromBits(Prefix(c.lens, z, c.root)) < Pow2(c.root)
            && Filled(w[FromBits(Prefix(c.lens, z, c.root)) := e], c, x, limit)
  {
    hide Subscribed, CodeWord, Leaf, Pow2, Bits, FromBits, Prefix, IsLink, RootFilled, Linked, SubFilled;
    LinkPlace(c, z);
    if c.lens[x] <= c.root { LinkKeepsRoot(w, c, x, z, e); } else { LinkKeepsSub(w, c, x, z, limit, e); }
  }

  /** The next symbol starts a sub-table. */
  lemma NewTable(w: seq<Entry>, w': seq<Entry>, c: Coding, len: nat, r: nat, y: nat, next: nat, curr: nat, low: int,
                 m: nat, q: nat, z: nat, curr': nat)
    requires Inv(w, c, len, r, y, next, curr, low) && Follows(c.lens, len, r, y, m, q, z)
    requires Spread(w, w', next, curr, CodeWord(c.lens, y)[DropOf(c, y)..], Leaf(c.kind, y, len - DropOf(c, y)))
    requires m > c.root && (len > c.root ==> Prefix(c.lens, y, c.root) != Prefix(c.lens, z, c.root))
    requires 0 < curr' < 16 && Roomy(c, z, curr') && next + Pow2(curr) + Pow2(curr') <= |w|
    ensures var low' := FromBits(Prefix(c.lens, z, c.root));
            low' < |w| == |w'| && Inv(w'[low' := Entry(curr', c.root, next + Pow2(curr))], c, m, q, z,
                                      next + Pow2(curr), curr', low')
  {
    hide CodeWord, Subscribed, Leaf, Prefix, Bits, Pow2, Spread, Filled, AllFilled, OldFilled, Roomy, FromBits;
    var used := next + Pow2(curr);
    var low' := FromBits(Prefix(c.lens, z, c.root));
    FromFits(Prefix(c.lens, z, c.root));
    Entered(w, w', c, len, r, y, next, curr, low);
    AllFilledNext(w', c, len, r, y, m, q, z, used);
    var w'' := w'[low' := Entry(curr', c.root, used)];
    forall x: nat | Done(c.lens, m, q, x)
      ensures Filled(w'', c, x, used) && Filled(w'', c, x, used + Pow2(curr'))
    {
      NewPrefix(c, len, r, y, m, q, z, x);
      FilledAt(w', c, m, q, used, x);
      LinkKeeps(w', c, x, z, used, Entry(curr', c.root, used));
      FilledLater(w'', c, x, used, used + Pow2(curr'));
    }
    AllFilledIs(w'', c, m, q, used + Pow2(curr'));
    OldFilledIs(w'', c, m, q, z, used);
  }

  lemma FilledAt(w: seq<Entry>, c: Coding, len: nat, r: nat, limit: nat, x: nat)
    requires AllFilled(w, c, len, r, limit) && Done(c.lens, len, r, x)
    ensures Filled(w, c, x, limit)
  {
    hide Filled, Done;
  }

  lemma NewPrefix(c: Coding, len: nat, r: nat, y: nat, m: nat, q: nat, z: nat, x: nat)
    requires Subscribed(c.lens) && Follows(c.lens, len, r, y, m, q, z) && m > c.root && Done(c.lens, m, q, x)
    requires len > c.root ==> Prefix(c.lens, y, c.root) != Prefix(c.lens, z, c.root)
    ensures Uses(c.lens, x) && Before(c.lens, x, z)
    ensures c.lens[x] > c.root ==> Prefix(c.lens, x, c.root) != Prefix(c.lens, z, c.root)
  {
    hide Subscribed, Prefix;
    DoneBefore(c.lens, m, q, x, z);
    assert Done(c.lens, len, r + 1, x);
    DoneNext(c.lens, len, r, y, x);
    DoneBefore(c.lens, len, r, x, y);
    FollowsBefore(c.lens, len, r, y, m, q, z);
    if c.lens[x] > c.root { PrefixNew(c.lens, x, y, z, c.root); }
  }

  // -- A finished table -----------------------------------------------------------------------------------------

  /** Every stream that starts with the word of x is looked up as x. */
  ghost predicate Decodes(w: seq<Entry>, c: Coding, x: nat)
    requires Uses(c.lens, x)
  {
    forall s: seq<bool> | CodeWord(c.lens, x) <= s :: Lookup(w, c.root, s) == FoundFor(c, x)
  }

  function FoundFor(c: Coding, x: nat): Found
    requires x < |c.lens|
  {
    Found(Leaf(c.kind, x, 0).op, Leaf(c.kind, x, 0).val, c.lens[x])
  }

  lemma AheadIndex(s: seq<bool>, n: nat)
    ensures FromBits(Ahead(s, n)) < Pow2(n) && Bits(FromBits(Ahead(s, n)), n) == Ahead(s, n)
  {
    FromFits(Ahead(s, n));
  }

  lemma AheadStarts(v: seq<bool>, s: seq<bool>, n: nat)
    requires v <= s
    ensures |v| <= n ==> v <= Ahead(s, n)
    ensures n <= |v| ==> Ahead(s, n) == v[..n]
  {
  }

  lemma LeafParts(kind: Kind, x: nat, n: nat)
    ensures Leaf(kind, x, n) == Entry(Leaf(kind, x, 0).op, n, Leaf(kind, x, 0).val)
  {
  }

  lemma RootDecodes(w: seq<Entry>, c: Coding, x: nat, s: seq<bool>)
    requires Uses(c.lens, x) && c.lens[x] <= c.root && RootFilled(w, c, x) && CodeWord(c.lens, x) <= s
    ensures Lookup(w, c.root, s) == FoundFor(c, x)
  {
    hide CodeWord, Bits, Pow2, FromBits, Ahead, Leaf, IsLink;
    AheadIndex(s, c.root);
    AheadStarts(CodeWord(c.lens, x), s, c.root);
    LeafNoLink(c.kind, x, c.lens[x]);
    LeafParts(c.kind, x, c.lens[x]);
  }

  lemma FirstPrefix(c: Coding, x: nat)
    requires Uses(c.lens, x) && c.lens[x] > c.root
    ensures |CodeWord(c.lens, x)| > c.root && Prefix(c.lens, x, c.root) == CodeWord(c.lens, x)[..c.root]
  {
    hide Bits, Pow2;
  }

  /** The first level leads to the sub-table of x. */
  lemma SubFirst(w: seq<Entry>, c: Coding, x: nat, limit: nat, s: seq<bool>)
    requires Uses(c.lens, x) && c.lens[x] > c.root && Linked(w, c, x, limit) && CodeWord(c.lens, x) <= s
    ensures FromBits(Ahead(s, c.root)) == FromBits(Prefix(c.lens, x, c.root)) < |w|
    ensures var last := w[FromBits(Prefix(c.lens, x, c.root))];
            IsLink(last) && last.bits == c.root && SubIndex(s, last) < Pow2(last.op) && last.val + Pow2(last.op) <= |w|
            && c.root <= |CodeWord(c.lens, x)| && CodeWord(c.lens, x)[c.root..] <= Bits(SubIndex(s, last), last.op)
  {
    hide CodeWord, Bits, Pow2, FromBits, Ahead, IsLink, Prefix, SubIndex;
    var word := CodeWord(c.lens, x);
    FirstPrefix(c, x);
    AheadStarts(word, s, c.root);
    var last := w[FromBits(Prefix(c.lens, x, c.root))];
    AheadStarts(word, s, c.root + last.op);
    SubIndexIs(s, last);
    assert word[c.root..] <= Ahead(s, c.root + last.op)[c.root..];
  }

  lemma SubDecodes(w: seq<Entry>, c: Coding, x: nat, limit: nat, s: seq<bool>)
    requires Uses(c.lens, x) && c.lens[x] > c.root && Filled(w, c, x, limit) && CodeWord(c.lens, x) <= s
    ensures Lookup(w, c.root, s) == FoundFor(c, x)
  {
    hide CodeWord, Bits, Pow2, FromBits, Ahead, Leaf, IsLink, Prefix, SubIndex, Linked;
    SubFirst(w, c, x, limit, s);
    var last := w[FromBits(Prefix(c.lens, x, c.root))];
    LeafNoLink(c.kind, x, c.lens[x] - c.root);
    LeafParts(c.kind, x, c.lens[x] - c.root);
    assert w[last.val + SubIndex(s, last)] == Leaf(c.kind, x, c.lens[x] - c.root);
  }

  lemma FilledDecodes(w: seq<Entry>, c: Coding, x: nat, limit: nat)
    requires Uses(c.lens, x) && Filled(w, c, x, limit)
    ensures Decodes(w, c, x)
  {
    hide Filled, RootFilled, Lookup, CodeWord, FoundFor;
    forall s: seq<bool> | CodeWord(c.lens, x) <= s
      ensures Lookup(w, c.root, s) == FoundFor(c, x)
    {
      if c.lens[x] <= c.root {
        FilledRoot(w, c, x, limit);
        RootDecodes(w, c, x, s);
      } else {
        SubDecodes(w, c, x, limit, s);
      }
    }
  }

  lemma FilledRoot(w: seq<Entry>, c: Coding, x: nat, limit: nat)
    requires Uses(c.lens, x) && Filled(w, c, x, limit) && c.lens[x] <= c.root
    ensures RootFilled(w, c, x)
  {
  }

  ghost predicate NoWord(lens: seq<nat>, s: seq<bool>) { forall x: nat :: !Starts(lens, s, x) }

  /** Links take all index bits of the root table, and only words longer than that need them. */
  ghost predicate WholeLinks(w: seq<Entry>, c: Coding)
  {
    forall i: nat | i < Pow2(c.root) && i < |w| && IsLink(w[i]) :: w[i].bits == c.root && HasLonger(c)
  }

  ghost predicate HasLonger(c: Coding) { exists x: nat :: Uses(c.lens, x) && c.lens[x] > c.root }

  /** The table decodes the canonical code, and marks what is no code word of an incomplete code. */
  ghost predicate Table(w: seq<Entry>, c: Coding)
  {
    WholeLinks(w, c)
    && (forall x: nat | Uses(c.lens, x) :: Decodes(w, c, x))
    && (Full(c.lens) || forall s: seq<bool> | s != [] && NoWord(c.lens, s) :: Lookup(w, c.root, s) == Found(64, 0, 1))
  }

  /** The table may be cut off after its last entry. */
  lemma FilledCut(w: seq<Entry>, c: Coding, x: nat, limit: nat)
    requires Uses(c.lens, x) && Filled(w, c, x, limit) && Pow2(c.root) <= limit <= |w|
    ensures Filled(w[..limit], c, x, limit)
  {
    hide CodeWord, Bits, Pow2, FromBits, Leaf, IsLink, Prefix;
  }

  lemma PadAhead(s: seq<bool>, m: nat, n: nat)
    ensures Ahead(s + Zeros(m), n) == Ahead(s, n)
  {
    if n > |s| {
      if n <= |s| + m { ZerosCut(m, n - |s|); } else { ZerosAdd(m, n - |s| - m); }
    }
  }

  lemma {:induction false} ZerosCut(m: nat, n: nat)
    requires n <= m
    ensures Zeros(m)[..n] == Zeros(n)
  {
    if n > 0 { ZerosCut(m - 1, n - 1); }
  }

  lemma {:induction false} ZerosAdd(m: nat, n: nat)
    ensures Zeros(m) + Zeros(n) == Zeros(m + n)
  {
    if m > 0 { ZerosAdd(m - 1, n); }
  }

  lemma PadLookup(w: seq<Entry>, root: nat, s: seq<bool>, m: nat)
    ensures Lookup(w, root, s + Zeros(m)) == Lookup(w, root, s)
  {
    hide FromBits, Ahead, IsLink, SubIndex;
    PadAhead(s, m, root);
    var i := FromBits(Ahead(s, root));
    if i < |w| { PadSub(s, m, w[i]); }
  }

  lemma PadSub(s: seq<bool>, m: nat, last: Entry)
    ensures SubIndex(s + Zeros(m), last) == SubIndex(s, last)
  {
    hide FromBits, Ahead;
    PadAhead(s, m, last.bits + last.op);
  }

  /** A lookup with however few bits at hand finds the symbol that comes first in the stream, takes just the bits of its
      word, and asks for more bits, or finds the mark of an invalid code, only when there is no such symbol. */
  lemma TableDecodes(w: seq<Entry>, c: Coding, s: seq<bool>)
    requires Table(w, c) && Subscribed(c.lens)
    ensures var f := Lookup(w, c.root, s);
            match Symbol(c.lens, s)
            case Some((x, rest)) => f == FoundFor(c, x) && f.total <= |s| && rest == s[f.total..]
            case None => f.total > |s| || (f == Found(64, 0, 1) && !Full(c.lens))
  {
    hide Lookup, CodeWord, Full, Subscribed, FoundFor;
    match Symbol(c.lens, s) {
      case Some((x, rest)) =>
        SymbolStarts(c.lens, s);
        assert Decodes(w, c, x);
        FoundTotal(c, x);
      case None =>
        NoSymbol(c.lens, s);
        if Full(c.lens) {
          var t := s + Zeros(MAX_BITS);
          var x := FullDecodes(c.lens, t);
          NotYet(w, c, s, MAX_BITS, x);
        } else if s == [] {
          var t := s + Zeros(1);
          if x: nat :| Starts(c.lens, t, x) {
            NotYet(w, c, s, 1, x);
          } else {
            PadLookup(w, c.root, s, 1);
          }
        }
    }
  }

  lemma FoundTotal(c: Coding, x: nat)
    requires x < |c.lens|
    ensures FoundFor(c, x).total == c.lens[x]
  {
  }

  lemma SymbolStarts(lens: seq<nat>, s: seq<bool>)
    requires Symbol(lens, s).Some?
    ensures var (x, rest) := Symbol(lens, s).value; Uses(lens, x) && CodeWord(lens, x) <= s && rest == s[lens[x]..]
  {
  }

  lemma NoSymbol(lens: seq<nat>, s: seq<bool>)
    requires Symbol(lens, s).None?
    ensures NoWord(lens, s)
  {
  }

  lemma NotYet(w: seq<Entry>, c: Coding, s: seq<bool>, m: nat, x: nat)
    requires Starts(c.lens, s + Zeros(m), x) && !Starts(c.lens, s, x) && Uses(c.lens, x) && Decodes(w, c, x)
    ensures Lookup(w, c.root, s).total > |s|
  {
    hide Lookup, CodeWord;
    PadLookup(w, c.root, s, m);
    assert CodeWord(c.lens, x) <= s + Zeros(m);
    assert Lookup(w, c.root, s) == FoundFor(c, x);
    var word := CodeWord(c.lens, x);
    assert !(word <= s);
  }

  /** Every index of a complete code's root table belongs to a word. */
  lemma LinksAreWhole(w: seq<Entry>, c: Coding, limit: nat)
    requires Full(c.lens) && forall x: nat | Uses(c.lens, x) :: Filled(w, c, x, limit)
    ensures WholeLinks(w, c)
  {
    hide CodeWord, Bits, Pow2, FromBits, Leaf, IsLink, Full, Subscribed, SubFilled;
    forall i: nat | i < Pow2(c.root) && i < |w| && IsLink(w[i])
      ensures w[i].bits == c.root && HasLonger(c)
    {
      var t := Bits(i, c.root) + Zeros(MAX_BITS);
      var x := FullDecodes(c.lens, t);
      FromToBits(i, c.root);
      if c.lens[x] <= c.root {
        AheadStarts(CodeWord(c.lens, x), t, c.root);
        assert Ahead(t, c.root) == Bits(i, c.root);
        LeafNoLink(c.kind, x, c.lens[x]);
      } else {
        PrefixIs(c, x, t, i);
      }
    }
  }

  lemma PrefixIs(c: Coding, x: nat, t: seq<bool>, i: nat)
    requires Uses(c.lens, x) && c.lens[x] > c.root && CodeWord(c.lens, x) <= t && t[..c.root] == Bits(i, c.root)
    ensures Prefix(c.lens, x, c.root) == Bits(i, c.root)
  {
    hide CodeWord, Bits;
  }

  /** A lookup stays within the table; it takes at least one bit and no more than the longest word. */
  lemma LookupInside(w: seq<Entry>, c: Coding, s: seq<bool>)
    requires Table(w, c) && Subscribed(c.lens)
    ensures 1 <= Lookup(w, c.root, s).total <= MAX_BITS
    ensures var i := FromBits(Ahead(s, c.root));
            i < |w| && (IsLink(w[i]) ==> w[i].bits == c.root && HasLonger(c) && w[i].val + SubIndex(s, w[i]) < |w|)
  {
    AheadIndex(s, c.root);
    var t := s + Zeros(MAX_BITS);
    PadLookup(w, c.root, s, MAX_BITS);
    hide CodeWord, FromBits, Ahead, SubIndex, Full, Zeros, Bits, Pow2, IsLink, FoundFor;
    if Full(c.lens) {
      var x := FullDecodes(c.lens, t);
      FoundUsed(w, c, x, t);
    } else if x: nat :| Starts(c.lens, t, x) {
      FoundUsed(w, c, x, t);
    }
  }

  lemma FoundUsed(w: seq<Entry>, c: Coding, x: nat, t: seq<bool>)
    requires Table(w, c) && Subscribed(c.lens) && Starts(c.lens, t, x)
    ensures 1 <= Lookup(w, c.root, t).total <= MAX_BITS
  {
    hide CodeWord, Lookup;
    assert Decodes(w, c, x);
    FoundTotal(c, x);
  }
}
