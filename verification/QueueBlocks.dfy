/** Where the elements of an implicit producer live: the invariant that ties the claimed indices, the blocks and the
    block index together. */
module QueueBlocks {
  import opened Wrappers
  import opened ImplicitQueue
  import opened Congruence

  // -- Claims -------------------------------------------------------------------------------------------------

  /** The indices a dequeuer has claimed and not yet counted as emptied. */
  function Claim(pc: CPC): (nat, nat) {
    match pc
    case CIndex(lo, hi) => (lo, hi)
    case CPos(lo, hi, _) => (lo, hi)
    case CKey(lo, hi, _, _) => (lo, hi)
    case CBlock(lo, hi, _, _) => (lo, hi)
    case CRead(lo, _, hi, _, _, _) => (lo, hi)
    case CMark(lo, _, hi, _, _, _) => (lo, hi)
    case CClear(_, x, hi, _, _, _) => (x, hi)
    case CReturn(_, x, hi, _, _, _) => (x, hi)
    case _ => (0, 0)
  }

  /** Those of them it has not moved out yet. */
  function Untaken(pc: CPC): (nat, nat) {
    match pc
    case CRead(_, x, hi, _, _, _) => (x, hi)
    case CMark(_, x, hi, _, _, _) => (x, hi)
    case _ => Claim(pc)
  }

  predicate Within(i: nat, a: (nat, nat)) { a.0 <= i < a.1 }

  ghost predicate ClaimAt(pc: CPC, head: nat, marked: set<nat>, taken: map<nat, Value>) {
    && Claim(pc).0 <= Untaken(pc).0 <= Claim(pc).1 == Untaken(pc).1
    && (Claim(pc).0 < Claim(pc).1 ==> Claim(pc).1 <= head)
    && (forall i | i in marked :: !Within(i, Claim(pc)))
    && (forall i: nat | Within(i, Claim(pc)) :: i in taken <==> i < Untaken(pc).0)
  }

  predicate Apart(a: (nat, nat), b: (nat, nat)) { a.0 >= a.1 || b.0 >= b.1 || a.1 <= b.0 || b.1 <= a.0 }

  /** Every index below the head is claimed by exactly one dequeuer or counted as emptied, and whatever was taken is
      the element that was enqueued at that index. */
  ghost predicate Claims(head: nat, marked: set<nat>, taken: map<nat, Value>, enq: seq<Value>, cons: seq<CPC>) {
    && (forall c | 0 <= c < |cons| :: ClaimAt(cons[c], head, marked, taken))
    && (forall c, d | 0 <= c < d < |cons| :: Apart(Claim(cons[c]), Claim(cons[d])))
    && (forall i | i in marked :: i in taken)
    && (forall i | i in taken :: i < head && i < |enq| && taken[i] == enq[i])
    && (forall i: nat | i < head && i !in marked :: exists c :: 0 <= c < |cons| && Within(i, Claim(cons[c])))
  }

  // -- Life of a block ----------------------------------------------------------------------------------------

  /** The indices of the r-th block. */
  function Indices(r: nat): set<nat> { Range(BLOCK_SIZE * r, BLOCK_SIZE * r + BLOCK_SIZE) }

  predicate Clearing(pc: CPC, r: nat) { pc.CClear? && pc.r == r }

  predicate Returning(pc: CPC, r: nat) { pc.CReturn? && pc.r == r }

  /** A block leaves the index, and then the producer, exactly when all its elements have been counted as emptied;
      one dequeuer does it. */
  ghost predicate Life(n: nat, marked: set<nat>, cleared: set<nat>, returned: set<nat>, cons: seq<CPC>) {
    && (forall r | r in cleared :: r < n && Indices(r) <= marked)
    && returned <= cleared
    && (forall c | 0 <= c < |cons| && cons[c].CClear? ::
          cons[c].r < n && cons[c].r !in cleared && Indices(cons[c].r) <= marked)
    && (forall c | 0 <= c < |cons| && cons[c].CReturn? :: cons[c].r in cleared && cons[c].r !in returned)
    && (forall c, d | 0 <= c < d < |cons| && cons[c].CClear? && cons[d].CClear? :: cons[c].r != cons[d].r)
    && (forall c, d | 0 <= c < d < |cons| && cons[c].CReturn? && cons[d].CReturn? :: cons[c].r != cons[d].r)
    && (forall r: nat | r < n && r !in cleared && Indices(r) <= marked :: exists c ::
        0 <= c < |cons| && Clearing(cons[c], r))
    && (forall r | r in cleared && r !in returned :: exists c :: 0 <= c < |cons| && Returning(cons[c], r))
  }

  predicate Installing(prod: PPC) { prod.PWrite? || prod.PPublish? }

  /** How many blocks have been installed. */
  ghost predicate Shape(tail: nat, n: nat, enq: seq<Value>, prod: PPC) {
    && |enq| == tail
    && (if prod.PIdle? then tail <= BLOCK_SIZE * n < tail + BLOCK_SIZE
        else if Installing(prod) then tail < BLOCK_SIZE * n <= tail + BLOCK_SIZE
        else tail == BLOCK_SIZE * n)
  }

  /** A block the producer still owns counts its emptied elements and holds those not yet taken. */
  ghost predicate Stored(blocks: map<BlockId, Block>, b: BlockId, r: nat, marked: set<nat>, taken: map<nat, Value>,
                         enq: seq<Value>) {
    && BlockAt(blocks, b).done == |marked * Indices(r)|
    && (forall i: nat | i in Indices(r) && i < |enq| && i !in taken ::
          i % BLOCK_SIZE in BlockAt(blocks, b).cells && BlockAt(blocks, b).cells[i % BLOCK_SIZE] == enq[i])
  }

  predicate Holding(prod: PPC, b: BlockId) { (prod.PReset? || prod.PValue?) && prod.block == b }

  ghost predicate AllStored(blocks: map<BlockId, Block>, home: seq<Home>, returned: set<nat>, marked: set<nat>,
                            taken: map<nat, Value>, enq: seq<Value>) {
    forall r | 0 <= r < |home| && r !in returned :: Stored(blocks, home[r].block, r, marked, taken, enq)
  }

  /** The producer's blocks are those in the index and the one being installed, all different. */
  ghost predicate Owned(home: seq<Home>, returned: set<nat>, own: set<BlockId>, prod: PPC) {
    && (forall r | 0 <= r < |home| && r !in returned :: home[r].block in own && !Holding(prod, home[r].block))
    && (forall r, q | 0 <= r < q < |home| && r !in returned && q !in returned :: home[r].block != home[q].block)
    && (forall b | b in own :: Holding(prod, b) || exists r :: 0 <= r < |home| && r !in returned && home[r].block == b)
    && (prod.PReset? || prod.PValue? ==> prod.block in own)
  }

  ghost predicate Tail(blocks: map<BlockId, Block>, home: seq<Home>, returned: set<nat>, enq: seq<Value>, prod: PPC,
                       tailBlock: BlockId) {
    && (prod.PValue? ==> BlockAt(blocks, prod.block).done == 0)
    && (|enq| % BLOCK_SIZE != 0 || Installing(prod)
        ==> |home| > 0 && |home| - 1 !in returned && tailBlock == home[|home| - 1].block)
    && (prod.PPublish? ==>
          && |enq| % BLOCK_SIZE in BlockAt(blocks, tailBlock).cells
          && BlockAt(blocks, tailBlock).cells[|enq| % BLOCK_SIZE] == prod.v)
  }

  ghost predicate Blocks(blocks: map<BlockId, Block>, home: seq<Home>, returned: set<nat>, own: set<BlockId>,
                         marked: set<nat>, taken: map<nat, Value>, enq: seq<Value>, prod: PPC, tailBlock: BlockId) {
    && AllStored(blocks, home, returned, marked, taken, enq)
    && Owned(home, returned, own, prod)
    && Tail(blocks, home, returned, enq, prod, tailBlock)
  }

  // -- The block index ----------------------------------------------------------------------------------------

  function KeyAt(entries: seq<Entry>, h: Header, p: nat): Option<nat> { EntryAt(entries, Slot(h, p)).key }

  ghost predicate HeaderOK(h: Header, entries: seq<Entry>, n: nat, z: int) {
    && h.tail < |h.index|
    && (forall p | 0 <= p < |h.index| :: h.index[p] < |entries|)
    && (forall p, q | 0 <= p < q < |h.index| :: h.index[p] != h.index[q])
    && (forall p | 0 <= p < |h.index| && KeyAt(entries, h, p).Some? ::
          var k := KeyAt(entries, h, p).value;
          k % BLOCK_SIZE == 0 && k <= BLOCK_SIZE * n && Cong(k / BLOCK_SIZE, p + z, |h.index|))
    && (n > 0 ==> KeyAt(entries, h, h.tail).Some?)
  }

  /** Between publishing the new index tail and storing the block, the tail slot is that of the next block. */
  predicate TailAhead(prod: PPC) { prod.PTake? || prod.PReset? || prod.PValue? || prod.PRewind? }

  function TailRank(prod: PPC, n: nat): int { if TailAhead(prod) then n else n - 1 }

  /** The slots of the current index hold the most recent blocks. */
  ghost predicate Current(h: Header, entries: seq<Entry>, rank: int, z: int) {
    && Cong(rank, h.tail + z, |h.index|)
    && (forall p | 0 <= p < |h.index| && KeyAt(entries, h, p).Some? ::
        KeyAt(entries, h, p).value / BLOCK_SIZE > rank - |h.index|)
  }

  function Working(prod: PPC): Option<EntryId> {
    match prod
    case PTail(_, e, _) => Some(e)
    case PTake(_, e) => Some(e)
    case PRewind(e) => Some(e)
    case PClear(e) => Some(e)
    case PReset(_, e, _) => Some(e)
    case PValue(_, e, _) => Some(e)
    case _ => None
  }

  /** Every older index agrees with the current one: a slot they share has congruent positions in both. */
  ghost predicate Nested(headers: seq<Header>, z: seq<int>)
    requires |z| == |headers|
  {
    forall h | 0 <= h < |headers| :: headers[h].index != [] && NestedIn(headers[h], z[h], Last(headers), z[|z| - 1])
  }

  ghost predicate NestedIn(h: Header, z: int, last: Header, zl: int)
    requires h.index != []
  {
    && |last.index| % |h.index| == 0
    && (forall p, q | 0 <= p < |h.index| && 0 <= q < |last.index| && h.index[p] == last.index[q] ::
        Cong(q + zl, p + z, |h.index|))
  }

  /** The slot of the next block is still free after a failed attempt to install it. */
  ghost predicate NextFree(last: Header, entries: seq<Entry>, n: nat, prod: PPC) {
    forall p | 0 <= p < |last.index| && KeyAt(entries, last, p) == Some(BLOCK_SIZE * n)
      && Working(prod) != Some(last.index[p]) ::
      EntryAt(entries, last.index[p]).value == None
  }

  ghost predicate RingWith(headers: seq<Header>, entries: seq<Entry>, n: nat, prod: PPC, z: seq<int>) {
    && |z| == |headers|
    && (forall h | 0 <= h < |headers| :: HeaderOK(headers[h], entries, n, z[h]))
    && Nested(headers, z)
    && (n == 0 ==> |headers| <= 1)
    && (headers != [] ==> Current(Last(headers), entries, TailRank(prod, n), z[|z| - 1]))
    && NextFree(Last(headers), entries, n, prod)
  }

  ghost predicate HasRing(headers: seq<Header>, entries: seq<Entry>, n: nat, prod: PPC) {
    exists z: seq<int> :: RingWith(headers, entries, n, prod, z)
  }

  /** A block that has not left the index can be found there. */
  ghost predicate Live(headers: seq<Header>, entries: seq<Entry>, home: seq<Home>, cleared: set<nat>) {
    forall r | 0 <= r < |home| && r !in cleared ::
      && headers != [] && home[r].entry in Last(headers).index
      && home[r].entry < |entries| && entries[home[r].entry] == Entry(Some(BLOCK_SIZE * r), Some(home[r].block))
  }

  ghost predicate Unused(e: EntryId, home: seq<Home>, cleared: set<nat>) {
    forall r | 0 <= r < |home| && r !in cleared :: home[r].entry != e
  }

  ghost predicate Producer(prod: PPC, headers: seq<Header>, entries: seq<Entry>, home: seq<Home>, cleared: set<nat>) {
    var h := Last(headers);
    && (!prod.PIdle? && !prod.PHead? && !Installing(prod) ==> headers != [])
    && (prod.PGrow? ==>
          var k := KeyAt(entries, h, Wrap(h.tail + 1, h));
          k.Some? && k.value < BLOCK_SIZE * |home|)
    && (prod.PKey? || prod.PTail?
        ==> prod.pos == Wrap(h.tail + 1, h) && prod.entry == Slot(h, prod.pos)
            && Unused(prod.entry, home, cleared))
    && (Working(prod).Some? ==>
          var e := Working(prod).value;
          e < |entries| && entries[e].key == Some(BLOCK_SIZE * |home|) && Unused(e, home, cleared))
    && (TailAhead(prod)
        ==> prod.entry == Slot(h, h.tail)
            && (|home| > 0 ==> KeyAt(entries, h, Wrap(h.tail - 1, h)).Some?))
  }

  // -- Dequeuers in the index -----------------------------------------------------------------------------------

  ghost predicate Covers(h: Header, home: seq<Home>, lo: nat, hi: nat) {
    forall r | 0 <= r < |home| && lo < hi && lo < BLOCK_SIZE * (r + 1) && BLOCK_SIZE * r < hi ::
      home[r].entry in h.index
  }

  ghost predicate AtSlot(h: Header, home: seq<Home>, at: nat, r: nat) {
    at < |h.index| && r < |home| && h.index[at] == home[r].entry
  }

  ghost predicate Place(pc: CPC, headers: seq<Header>, entries: seq<Entry>, home: seq<Home>) {
    match pc
    case CFault => false
    case CTail(max) => max > 0
    case COver(max, _) => max > 0
    case COpt(max, _, _) => max > 0
    case CClaim(want, _) => want > 0
    case CCheck(want, _, _) => want > 0
    case CSpill(_, got, _) => got > 0
    case CGrant(got) => got > 0
    case CIndex(lo, hi) => lo < hi
    case CPos(lo, hi, h) => lo < hi && h < |headers| && Covers(headers[h], home, lo, hi)
    case CKey(lo, hi, h, pos) =>
      lo < hi && h < |headers| && Covers(headers[h], home, lo, hi) && pos < |headers[h].index|
        && KeyAt(entries, headers[h], pos).Some?
    case CBlock(lo, hi, h, at) =>
      lo < hi && h < |headers| && Covers(headers[h], home, lo, hi) && AtSlot(headers[h], home, at, lo / BLOCK_SIZE)
    case CRead(lo, x, hi, h, at, b) =>
      && lo <= x < End(lo, hi) && h < |headers| && Covers(headers[h], home, lo, hi)
      && AtSlot(headers[h], home, at, lo / BLOCK_SIZE)
      && b == home[lo / BLOCK_SIZE].block
    case CMark(lo, x, hi, h, at, b) =>
      && lo < x == End(lo, hi) && h < |headers| && Covers(headers[h], home, lo, hi)
      && AtSlot(headers[h], home, at, lo / BLOCK_SIZE)
      && b == home[lo / BLOCK_SIZE].block
    case CClear(r, x, hi, h, at, b) =>
      && x <= hi && h < |headers| && Covers(headers[h], home, x, hi) && AtSlot(headers[h], home, at, r)
      && b == home[r].block
      && (x < hi ==> x == BLOCK_SIZE * (r + 1) && AtSlot(headers[h], home, Wrap(at + 1, headers[h]), r + 1))
    case CReturn(r, x, hi, h, at, b) =>
      && x <= hi && h < |headers| && Covers(headers[h], home, x, hi) && AtSlot(headers[h], home, at, r)
      && b == home[r].block
      && (x < hi ==> x == BLOCK_SIZE * (r + 1) && AtSlot(headers[h], home, Wrap(at + 1, headers[h]), r + 1))
    case _ => true
  }

  ghost predicate Places(cons: seq<CPC>, headers: seq<Header>, entries: seq<Entry>, home: seq<Home>) {
    forall c | 0 <= c < |cons| :: Place(cons[c], headers, entries, home)
  }

  ghost predicate BlockInv(s: State) {
    && s.head <= s.tail
    && Claims(s.head, s.marked, s.taken, s.enq, s.cons)
    && Life(|s.home|, s.marked, s.cleared, s.returned, s.cons)
    && Shape(s.tail, |s.home|, s.enq, s.prod)
    && Blocks(s.blocks, s.home, s.returned, s.own, s.marked, s.taken, s.enq, s.prod, s.tailBlock)
    && HasRing(s.headers, s.entries, |s.home|, s.prod)
    && Live(s.headers, s.entries, s.home, s.cleared)
    && Producer(s.prod, s.headers, s.entries, s.home, s.cleared)
    && Places(s.cons, s.headers, s.entries, s.home)
  }

  // -- Claims are kept ------------------------------------------------------------------------------------------

  predicate Empty(a: (nat, nat)) { a.0 >= a.1 }

  /** Moving on without taking, counting or claiming anything. */
  predicate SameClaim(pc: CPC, pc': CPC) {
    (Claim(pc') == Claim(pc) && Untaken(pc') == Untaken(pc))
      || (Empty(Claim(pc)) && Claim(pc') == (0, 0) && Untaken(pc') == (0, 0))
  }

  lemma ClaimsSame(head: nat, marked: set<nat>, taken: map<nat, Value>, enq: seq<Value>, cons: seq<CPC>, c: nat,
                   pc': CPC)
    requires Claims(head, marked, taken, enq, cons) && c < |cons| && SameClaim(cons[c], pc')
    ensures Claims(head, marked, taken, enq, cons[c := pc'])
  {
    hide Claim, Untaken;
    var cons' := cons[c := pc'];
    forall d | 0 <= d < |cons'| ensures ClaimAt(cons'[d], head, marked, taken) {
      assert ClaimAt(cons[d], head, marked, taken);
    }
    forall d, e | 0 <= d < e < |cons'| ensures Apart(Claim(cons'[d]), Claim(cons'[e])) {
      assert Apart(Claim(cons[d]), Claim(cons[e]));
    }
    forall i: nat | i < head && i !in marked ensures exists d :: 0 <= d < |cons'| && Within(i, Claim(cons'[d])) {
      var d :| 0 <= d < |cons| && Within(i, Claim(cons[d]));
      assert Within(i, Claim(cons'[d]));
    }
  }

  /** headIndex.fetch_add: the indices up to the new head now belong to this dequeuer. */
  lemma ClaimsGrant(head: nat, marked: set<nat>, taken: map<nat, Value>, enq: seq<Value>, cons: seq<CPC>, c: nat,
                    pc': CPC, got: nat)
    requires Claims(head, marked, taken, enq, cons) && c < |cons|
    requires Empty(Claim(cons[c])) && Claim(pc') == Untaken(pc') == (head, head + got)
    ensures Claims(head + got, marked, taken, enq, cons[c := pc'])
  {
    hide Claim, Untaken;
    var cons', head' := cons[c := pc'], head + got;
    forall i | i in marked ensures i < head { assert i in taken; }
    forall d | 0 <= d < |cons'| ensures ClaimAt(cons'[d], head', marked, taken) {
      assert ClaimAt(cons[d], head, marked, taken);
    }
    forall d, e | 0 <= d < e < |cons'| ensures Apart(Claim(cons'[d]), Claim(cons'[e])) {
      assert Apart(Claim(cons[d]), Claim(cons[e])) && ClaimAt(cons[d], head, marked, taken)
             && ClaimAt(cons[e], head, marked, taken);
    }
    forall i: nat | i < head' && i !in marked ensures exists d :: 0 <= d < |cons'| && Within(i, Claim(cons'[d])) {
      if i < head {
        var d :| 0 <= d < |cons| && Within(i, Claim(cons[d]));
        assert Within(i, Claim(cons'[d]));
      } else {
        assert Within(i, Claim(cons'[c]));
      }
    }
  }

  lemma ApartFrom(cons: seq<CPC>, c: nat, d: nat)
    requires forall c, d | 0 <= c < d < |cons| :: Apart(Claim(cons[c]), Claim(cons[d]))
    requires c < |cons| && d < |cons| && c != d
    ensures Apart(Claim(cons[d]), Claim(cons[c]))
  {
    assert Apart(Claim(cons[if c < d then c else d]), Claim(cons[if c < d then d else c]));
  }

  lemma ClaimTakes(head: nat, marked: set<nat>, taken: map<nat, Value>, pc: CPC, pc': CPC, v: Value)
    requires ClaimAt(pc, head, marked, taken) && !Empty(Untaken(pc))
    requires Claim(pc') == Claim(pc) && Untaken(pc') == (Untaken(pc).0 + 1, Untaken(pc).1)
    ensures ClaimAt(pc', head, marked, taken[Untaken(pc).0 := v]) && Within(Untaken(pc).0, Claim(pc))
            && Untaken(pc).0 < head
  {
    hide Claim, Untaken;
  }

  lemma ClaimLeaves(head: nat, marked: set<nat>, taken: map<nat, Value>, pc: CPC, own: CPC, x: nat, v: Value)
    requires ClaimAt(pc, head, marked, taken) && Apart(Claim(pc), Claim(own)) && Within(x, Claim(own))
    ensures ClaimAt(pc, head, marked, taken[x := v])
  {
    hide Claim, Untaken;
  }

  /** Taking the element at the front of the untaken part. */
  lemma ClaimsTake(head: nat, marked: set<nat>, taken: map<nat, Value>, enq: seq<Value>, cons: seq<CPC>, c: nat,
                   pc': CPC, v: Value)
    requires Claims(head, marked, taken, enq, cons) && c < |cons| && !Empty(Untaken(cons[c])) && head <= |enq|
    requires Claim(pc') == Claim(cons[c]) && Untaken(pc') == (Untaken(cons[c]).0 + 1, Untaken(cons[c]).1)
    requires v == enq[Untaken(cons[c]).0]
    ensures Claims(head, marked, taken[Untaken(cons[c]).0 := v], enq, cons[c := pc'])
  {
    hide Claim, Untaken, ClaimAt;
    var x := Untaken(cons[c]).0;
    var cons', taken' := cons[c := pc'], taken[x := v];
    ClaimTakes(head, marked, taken, cons[c], pc', v);
    forall d | 0 <= d < |cons'| ensures ClaimAt(cons'[d], head, marked, taken') {
      if d != c {
        ApartFrom(cons, c, d);
        ClaimLeaves(head, marked, taken, cons[d], cons[c], x, v);
      }
    }
    forall d, e | 0 <= d < e < |cons'| ensures Apart(Claim(cons'[d]), Claim(cons'[e])) {
      assert Apart(Claim(cons[d]), Claim(cons[e]));
    }
    forall i: nat | i < head && i !in marked ensures exists d :: 0 <= d < |cons'| && Within(i, Claim(cons'[d])) {
      var d :| 0 <= d < |cons| && Within(i, Claim(cons[d]));
      assert Within(i, Claim(cons'[d]));
    }
  }

  lemma ClaimKept(head: nat, marked: set<nat>, taken: map<nat, Value>, pc: CPC, own: CPC, lo: nat, x: nat)
    requires ClaimAt(pc, head, marked, taken) && Apart(Claim(pc), Claim(own)) && lo == Claim(own).0 && x <= Claim(own).1
    ensures ClaimAt(pc, head, marked + Range(lo, x), taken)
  {
    hide Claim, Untaken;
  }

  lemma ClaimCut(head: nat, marked: set<nat>, taken: map<nat, Value>, pc: CPC, pc': CPC, x: nat)
    requires ClaimAt(pc, head, marked, taken) && Untaken(pc) == (x, Claim(pc).1) && Claim(pc).0 < x <= Claim(pc).1
    requires Claim(pc') == Untaken(pc') == (x, Claim(pc).1)
             || (x == Claim(pc).1 && Claim(pc') == Untaken(pc') == (0, 0))
    ensures ClaimAt(pc', head, marked + Range(Claim(pc).0, x), taken)
    ensures x <= head && forall i: nat | Claim(pc).0 <= i < x :: i in taken
  {
    hide Claim, Untaken;
    forall i: nat | Claim(pc).0 <= i < x ensures i in taken { assert Within(i, Claim(pc)); }
  }

  /** Counting the taken front part of the claim as emptied. */
  lemma ClaimsMark(head: nat, marked: set<nat>, taken: map<nat, Value>, enq: seq<Value>, cons: seq<CPC>, c: nat,
                   pc': CPC, x: nat)
    requires Claims(head, marked, taken, enq, cons) && c < |cons|
    requires Untaken(cons[c]) == (x, Claim(cons[c]).1) && Claim(cons[c]).0 < x <= Claim(cons[c]).1
    requires Claim(pc') == Untaken(pc') == (x, Claim(cons[c]).1)
             || (x == Claim(cons[c]).1 && Claim(pc') == Untaken(pc') == (0, 0))
    ensures Claims(head, marked + Range(Claim(cons[c]).0, x), taken, enq, cons[c := pc'])
  {
    hide Claim, Untaken, ClaimAt;
    var lo := Claim(cons[c]).0;
    var cons', marked' := cons[c := pc'], marked + Range(lo, x);
    ClaimCut(head, marked, taken, cons[c], pc', x);
    forall d | 0 <= d < |cons'| ensures ClaimAt(cons'[d], head, marked', taken) {
      if d != c {
        ApartFrom(cons, c, d);
        ClaimKept(head, marked, taken, cons[d], cons[c], lo, x);
      }
    }
    forall d, e | 0 <= d < e < |cons'| ensures Apart(Claim(cons'[d]), Claim(cons'[e])) {
      assert Apart(Claim(cons[d]), Claim(cons[e]));
    }
    forall i: nat | i < head && i !in marked' ensures exists d :: 0 <= d < |cons'| && Within(i, Claim(cons'[d])) {
      var d :| 0 <= d < |cons| && Within(i, Claim(cons[d]));
      assert Within(i, Claim(cons'[d]));
    }
  }

  // -- The life of blocks is kept ---------------------------------------------------------------------------------

  predicate Finishing(pc: CPC) { pc.CClear? || pc.CReturn? }

  lemma LifeSame(n: nat, n': nat, marked: set<nat>, cleared: set<nat>, returned: set<nat>, cons: seq<CPC>, c: nat,
                 pc': CPC)
    requires Life(n, marked, cleared, returned, cons) && c < |cons| && !Finishing(cons[c]) && !Finishing(pc')
    requires n <= n' && forall r: nat | n <= r < n' :: !(Indices(r) <= marked)
    ensures Life(n', marked, cleared, returned, cons[c := pc'])
  {
    hide Indices;
    var cons' := cons[c := pc'];
    forall r: nat | r < n' && r !in cleared && Indices(r) <= marked
      ensures exists d :: 0 <= d < |cons'| && Clearing(cons'[d], r) {
      var d :| 0 <= d < |cons| && Clearing(cons[d], r);
      assert Clearing(cons'[d], r);
    }
    forall r | r in cleared && r !in returned ensures exists d :: 0 <= d < |cons'| && Returning(cons'[d], r) {
      var d :| 0 <= d < |cons| && Returning(cons[d], r);
      assert Returning(cons'[d], r);
    }
  }

  /** Blocks are only added; none that the enqueuer adds is already empty. */
  lemma LifeGrows(n: nat, n': nat, marked: set<nat>, cleared: set<nat>, returned: set<nat>, cons: seq<CPC>)
    requires Life(n, marked, cleared, returned, cons)
    requires n <= n' && forall r: nat | n <= r < n' :: !(Indices(r) <= marked)
    ensures Life(n', marked, cleared, returned, cons)
  {
    hide Indices;
  }

  lemma IndicesMember(r: nat, i: nat)
    ensures i in Indices(r) <==> i / BLOCK_SIZE == r
  {
  }

  lemma LifeMark(n: nat, marked: set<nat>, cleared: set<nat>, returned: set<nat>, cons: seq<CPC>, c: nat, pc': CPC,
                 lo: nat, x: nat, r: nat)
    requires Life(n, marked, cleared, returned, cons) && c < |cons| && !Finishing(cons[c])
    requires lo < x && BLOCK_SIZE * r <= lo && x <= BLOCK_SIZE * (r + 1) && r < n && lo !in marked
    requires if Indices(r) <= marked + Range(lo, x) then Clearing(pc', r) else !Finishing(pc')
    ensures Life(n, marked + Range(lo, x), cleared, returned, cons[c := pc'])
  {
    var cons', marked' := cons[c := pc'], marked + Range(lo, x);
    assert !(Indices(r) <= marked) by { IndicesMember(r, lo); }
    forall q: nat | q != r ensures Indices(q) <= marked' <==> Indices(q) <= marked {
      forall i | i in Range(lo, x) ensures i !in Indices(q) { IndicesMember(q, i); }
    }
    hide Indices, Range;
    forall q: nat | q < n && q !in cleared && Indices(q) <= marked'
      ensures exists d :: 0 <= d < |cons'| && Clearing(cons'[d], q) {
      if q == r {
        assert Clearing(cons'[c], r);
      } else {
        var d :| 0 <= d < |cons| && Clearing(cons[d], q);
        assert Clearing(cons'[d], q);
      }
    }
    forall q | q in cleared && q !in returned ensures exists d :: 0 <= d < |cons'| && Returning(cons'[d], q) {
      var d :| 0 <= d < |cons| && Returning(cons[d], q);
      assert Returning(cons'[d], q);
    }
  }

  lemma LifeClear(n: nat, marked: set<nat>, cleared: set<nat>, returned: set<nat>, cons: seq<CPC>, c: nat, pc': CPC,
                  r: nat)
    requires Life(n, marked, cleared, returned, cons) && c < |cons| && Clearing(cons[c], r) && Returning(pc', r)
    ensures Life(n, marked, cleared + {r}, returned, cons[c := pc'])
  {
    hide Indices;
    var cons', cleared' := cons[c := pc'], cleared + {r};
    assert r !in cleared;
    forall q: nat | q < n && q !in cleared' && Indices(q) <= marked
      ensures exists d :: 0 <= d < |cons'| && Clearing(cons'[d], q) {
      var d :| 0 <= d < |cons| && Clearing(cons[d], q);
      assert Clearing(cons'[d], q);
    }
    forall q | q in cleared' && q !in returned ensures exists d :: 0 <= d < |cons'| && Returning(cons'[d], q) {
      if q == r {
        assert Returning(cons'[c], r);
      } else {
        var d :| 0 <= d < |cons| && Returning(cons[d], q);
        assert Returning(cons'[d], q);
      }
    }
  }

  lemma LifeReturn(n: nat, marked: set<nat>, cleared: set<nat>, returned: set<nat>, cons: seq<CPC>, c: nat, pc': CPC,
                   r: nat)
    requires Life(n, marked, cleared, returned, cons) && c < |cons| && Returning(cons[c], r) && !Finishing(pc')
    ensures Life(n, marked, cleared, returned + {r}, cons[c := pc'])
  {
    hide Indices;
    var cons', returned' := cons[c := pc'], returned + {r};
    forall q: nat | q < n && q !in cleared && Indices(q) <= marked
      ensures exists d :: 0 <= d < |cons'| && Clearing(cons'[d], q) {
      var d :| 0 <= d < |cons| && Clearing(cons[d], q);
      assert Clearing(cons'[d], q);
    }
    forall q | q in cleared && q !in returned' ensures exists d :: 0 <= d < |cons'| && Returning(cons'[d], q) {
      var d :| 0 <= d < |cons| && Returning(cons[d], q);
      assert Returning(cons'[d], q);
    }
  }

  // -- Block contents are kept ------------------------------------------------------------------------------------

  // A change to one of the producer's blocks does not concern the others.
  lemma OtherStored(blocks: map<BlockId, Block>, block: Block, home: seq<Home>, returned: set<nat>, own: set<BlockId>,
                    prod: PPC, r: nat, q: nat,
                    marked: set<nat>, taken: map<nat, Value>, enq: seq<Value>)
    requires Owned(home, returned, own, prod) && r < |home| && r !in returned && q < |home| && q !in returned && q != r
    requires Stored(blocks, home[q].block, q, marked, taken, enq)
    ensures Stored(blocks[home[r].block := block], home[q].block, q, marked, taken, enq)
  {
    assert home[q].block != home[r].block by {
      assert home[if q < r then q else r].block != home[if q < r then r else q].block;
    }
  }

  lemma StoredTake(blocks: map<BlockId, Block>, b: BlockId, r: nat, x: nat, marked: set<nat>, taken: map<nat, Value>,
                   enq: seq<Value>)
    requires Stored(blocks, b, r, marked, taken, enq) && x in Indices(r) && x < |enq| && x !in taken
    ensures x % BLOCK_SIZE in BlockAt(blocks, b).cells && BlockAt(blocks, b).cells[x % BLOCK_SIZE] == enq[x]
    ensures Stored(blocks[b := BlockAt(blocks, b).(cells := BlockAt(blocks, b).cells - {x % BLOCK_SIZE})], b, r, marked,
                   taken[x := enq[x]], enq)
  {
    forall i: nat | i in Indices(r) && i != x ensures i % BLOCK_SIZE != x % BLOCK_SIZE {
      IndicesMember(r, i);
      IndicesMember(r, x);
    }
  }

  lemma StoredTaken(blocks: map<BlockId, Block>, b: BlockId, q: nat, x: nat, v: Value, marked: set<nat>,
                    taken: map<nat, Value>, enq: seq<Value>)
    requires Stored(blocks, b, q, marked, taken, enq)
    ensures Stored(blocks, b, q, marked, taken[x := v], enq)
  {
  }

  /** Moving element x of the r-th block out of its slot. */
  lemma BlocksTake(blocks: map<BlockId, Block>, home: seq<Home>, returned: set<nat>, own: set<BlockId>,
                   marked: set<nat>,
                   taken: map<nat, Value>, enq: seq<Value>, prod: PPC, tailBlock: BlockId, r: nat, x: nat)
    requires Blocks(blocks, home, returned, own, marked, taken, enq, prod, tailBlock) && Shape(|enq|, |home|, enq, prod)
    requires r < |home| && r !in returned && x in Indices(r) && x < |enq| && x !in taken
    ensures var b := home[r].block;
      && x % BLOCK_SIZE in BlockAt(blocks, b).cells && BlockAt(blocks, b).cells[x % BLOCK_SIZE] == enq[x]
      && Blocks(blocks[b := BlockAt(blocks, b).(cells := BlockAt(blocks, b).cells - {x % BLOCK_SIZE})], home, returned,
                own,
                marked, taken[x := enq[x]], enq, prod, tailBlock)
  {
    hide Stored;
    IndicesMember(r, x);
    hide Indices;
    var b := home[r].block;
    var block := BlockAt(blocks, b).(cells := BlockAt(blocks, b).cells - {x % BLOCK_SIZE});
    StoredTake(blocks, b, r, x, marked, taken, enq);
    forall q | 0 <= q < |home| && q !in returned
      ensures Stored(blocks[b := block], home[q].block, q, marked, taken[x := enq[x]], enq) {
      if q != r {
        OtherStored(blocks, block, home, returned, own, prod, r, q, marked, taken, enq);
        StoredTaken(blocks[b := block], home[q].block, q, x, enq[x], marked, taken, enq);
      }
    }
    assert Tail(blocks[b := block], home, returned, enq, prod, tailBlock);
  }

  /** The indices up to x of the r-th block, from lo on, none of them counted before. */
  lemma CountParts(marked: set<nat>, lo: nat, x: nat, r: nat)
    requires BLOCK_SIZE * r <= lo <= x <= BLOCK_SIZE * (r + 1)
    requires forall i: nat | lo <= i < x :: i !in marked
    ensures Range(lo, x) <= Indices(r) && Range(lo, x) !! marked
    ensures |Range(lo, x)| == x - lo && |Indices(r)| == BLOCK_SIZE
  {
    RangeSize(lo, x);
    RangeSize(BLOCK_SIZE * r, BLOCK_SIZE * r + BLOCK_SIZE);
  }

  lemma DisjointSize(a: set<nat>, b: set<nat>)
    requires a !! b
    ensures |a + b| == |a| + |b|
  {
  }

  lemma CountMarked(marked: set<nat>, lo: nat, x: nat, r: nat)
    requires BLOCK_SIZE * r <= lo <= x <= BLOCK_SIZE * (r + 1)
    requires forall i: nat | lo <= i < x :: i !in marked
    ensures |(marked + Range(lo, x)) * Indices(r)| == |marked * Indices(r)| + (x - lo)
    ensures |marked * Indices(r)| + (x - lo) == BLOCK_SIZE <==> Indices(r) <= marked + Range(lo, x)
  {
    hide Indices, Range;
    var before, added, all := marked * Indices(r), Range(lo, x), Indices(r);
    CountParts(marked, lo, x, r);
    assert (marked + added) * all == before + added;
    DisjointSize(before, added);
    if |before + added| == BLOCK_SIZE { EqualSize(before + added, all); }
    assert all <= marked + added ==> before + added == all;
  }

  lemma EqualSize(a: set<nat>, b: set<nat>)
    requires a <= b && |a| == |b|
    ensures a == b
  {
    assert b == a + (b - a);
  }

  lemma OtherMarked(marked: set<nat>, lo: nat, x: nat, r: nat, q: nat)
    requires BLOCK_SIZE * r <= lo <= x <= BLOCK_SIZE * (r + 1) && q != r
    ensures (marked + Range(lo, x)) * Indices(q) == marked * Indices(q)
  {
    forall i | i in Range(lo, x) ensures i !in Indices(q) { IndicesMember(q, i); }
    hide Indices, Range;
  }

  /** Counting [lo, x) of the r-th block as emptied. */
  lemma BlocksMark(blocks: map<BlockId, Block>, home: seq<Home>, returned: set<nat>, own: set<BlockId>,
                   marked: set<nat>,
                   taken: map<nat, Value>, enq: seq<Value>, prod: PPC, tailBlock: BlockId, r: nat, lo: nat, x: nat)
    requires Blocks(blocks, home, returned, own, marked, taken, enq, prod, tailBlock)
    requires r < |home| && r !in returned && BLOCK_SIZE * r <= lo < x <= BLOCK_SIZE * (r + 1)
    requires forall i: nat | lo <= i < x :: i !in marked
    ensures var b := home[r].block;
      Blocks(blocks[b := BlockAt(blocks, b).(done := BlockAt(blocks, b).done + (x - lo))], home, returned, own,
             marked + Range(lo, x), taken, enq, prod, tailBlock)
  {
    hide Indices, Range, Stored;
    var b, marked' := home[r].block, marked + Range(lo, x);
    var block := BlockAt(blocks, b).(done := BlockAt(blocks, b).done + (x - lo));
    StoredMark(blocks, b, r, lo, x, marked, taken, enq);
    forall q | 0 <= q < |home| && q !in returned
      ensures Stored(blocks[b := block], home[q].block, q, marked', taken, enq) {
      if q != r {
        OtherStored(blocks, block, home, returned, own, prod, r, q, marked, taken, enq);
        OtherMarked(marked, lo, x, r, q);
        StoredMarked(blocks[b := block], home[q].block, q, marked, marked', taken, enq);
      }
    }
    assert Tail(blocks[b := block], home, returned, enq, prod, tailBlock);
  }

  lemma StoredMark(blocks: map<BlockId, Block>, b: BlockId, r: nat, lo: nat, x: nat, marked: set<nat>,
                   taken: map<nat, Value>, enq: seq<Value>)
    requires Stored(blocks, b, r, marked, taken, enq) && BLOCK_SIZE * r <= lo < x <= BLOCK_SIZE * (r + 1)
    requires forall i: nat | lo <= i < x :: i !in marked
    ensures Stored(blocks[b := BlockAt(blocks, b).(done := BlockAt(blocks, b).done + (x - lo))], b, r,
                   marked + Range(lo, x), taken, enq)
  {
    hide Indices, Range;
    CountMarked(marked, lo, x, r);
  }

  lemma StoredMarked(blocks: map<BlockId, Block>, b: BlockId, q: nat, marked: set<nat>, marked': set<nat>,
                     taken: map<nat, Value>, enq: seq<Value>)
    requires Stored(blocks, b, q, marked, taken, enq) && marked' * Indices(q) == marked * Indices(q)
    ensures Stored(blocks, b, q, marked', taken, enq)
  {
  }

  /** add_block_to_free_list of the r-th block. */
  lemma BlocksReturn(blocks: map<BlockId, Block>, home: seq<Home>, returned: set<nat>, own: set<BlockId>,
                     marked: set<nat>,
                     taken: map<nat, Value>, enq: seq<Value>, prod: PPC, tailBlock: BlockId, r: nat)
    requires Blocks(blocks, home, returned, own, marked, taken, enq, prod, tailBlock) && Shape(|enq|, |home|, enq, prod)
    requires r < |home| && r !in returned && Indices(r) <= marked && forall i | i in marked :: i < |enq|
    ensures Blocks(blocks, home, returned + {r}, own - {home[r].block}, marked, taken, enq, prod, tailBlock)
  {
    hide Stored, Indices, Owned;
    OwnedReturn(home, returned, own, prod, r);
    TailReturn(blocks, home, returned, enq, prod, tailBlock, marked, r);
    assert forall q | q !in returned + {r} :: q !in returned;
  }

  lemma TailReturn(blocks: map<BlockId, Block>, home: seq<Home>, returned: set<nat>, enq: seq<Value>, prod: PPC,
                   tailBlock: BlockId,
                   marked: set<nat>, r: nat)
    requires Tail(blocks, home, returned, enq, prod, tailBlock) && Shape(|enq|, |home|, enq, prod)
    requires Indices(r) <= marked && forall i | i in marked :: i < |enq|
    ensures Tail(blocks, home, returned + {r}, enq, prod, tailBlock)
  {
    assert BLOCK_SIZE * r + BLOCK_SIZE <= |enq| by { assert BLOCK_SIZE * r + (BLOCK_SIZE - 1) in Indices(r); }
    hide Indices;
  }

  lemma OwnedReturn(home: seq<Home>, returned: set<nat>, own: set<BlockId>, prod: PPC, r: nat)
    requires Owned(home, returned, own, prod) && r < |home| && r !in returned
    ensures Owned(home, returned + {r}, own - {home[r].block}, prod)
  {
    var own', returned' := own - {home[r].block}, returned + {r};
    forall q | 0 <= q < |home| && q !in returned' ensures home[q].block in own' {
      assert home[if q < r then q else r].block != home[if q < r then r else q].block;
    }
    forall b | b in own' ensures Holding(prod, b) || exists q ::
      0 <= q < |home| && q !in returned' && home[q].block == b {
      if !Holding(prod, b) {
        var q :| 0 <= q < |home| && q !in returned && home[q].block == b;
        assert q !in returned';
      }
    }
  }

  lemma BlocksElsewhere(blocks: map<BlockId, Block>, home: seq<Home>, returned: set<nat>, own: set<BlockId>,
                        marked: set<nat>,
                        taken: map<nat, Value>, enq: seq<Value>, prod: PPC, tailBlock: BlockId, b: BlockId,
                          block: Block)
    requires Blocks(blocks, home, returned, own, marked, taken, enq, prod, tailBlock) && b !in own
    ensures Blocks(blocks[b := block], home, returned, own, marked, taken, enq, prod, tailBlock)
  {
    forall q | 0 <= q < |home| && q !in returned
      ensures Stored(blocks[b := block], home[q].block, q, marked, taken, enq) {
      assert Stored(blocks, home[q].block, q, marked, taken, enq);
    }
  }

  // -- Finding blocks in the index --------------------------------------------------------------------------------

  lemma PlacesUpdate(cons: seq<CPC>, headers: seq<Header>, entries: seq<Entry>, home: seq<Home>, c: nat, pc': CPC)
    requires Places(cons, headers, entries, home) && c < |cons| && Place(pc', headers, entries, home)
    ensures Places(cons[c := pc'], headers, entries, home)
  {
    hide Place;
  }

  /** The block of a claimed index has not left the index. */
  lemma ClaimedIsLive(s: State, c: nat, i: nat)
    requires Claims(s.head, s.marked, s.taken, s.enq, s.cons) && Life(|s.home|, s.marked, s.cleared, s.returned, s.cons)
    requires Shape(s.tail, |s.home|, s.enq, s.prod) && s.head <= s.tail && c < |s.cons| && Within(i, Claim(s.cons[c]))
    ensures i < s.head && i !in s.marked && i / BLOCK_SIZE < |s.home| && i / BLOCK_SIZE !in s.cleared
            && i / BLOCK_SIZE !in s.returned
  {
    assert ClaimAt(s.cons[c], s.head, s.marked, s.taken);
    IndicesMember(i / BLOCK_SIZE, i);
    hide Indices, Claim, Untaken;
  }

  lemma LiveCovers(s: State, c: nat, lo: nat, hi: nat)
    requires Claims(s.head, s.marked, s.taken, s.enq, s.cons) && Life(|s.home|, s.marked, s.cleared, s.returned, s.cons)
    requires Shape(s.tail, |s.home|, s.enq, s.prod) && s.head <= s.tail && c < |s.cons| && Claim(s.cons[c]) == (lo, hi)
    requires Live(s.headers, s.entries, s.home, s.cleared)
    ensures Covers(Last(s.headers), s.home, lo, hi)
  {
    forall r | 0 <= r < |s.home| && lo < BLOCK_SIZE * (r + 1) && BLOCK_SIZE * r < hi && lo < hi
      ensures s.home[r].entry in Last(s.headers).index
    {
      ClaimedIsLive(s, c, if lo < BLOCK_SIZE * r then BLOCK_SIZE * r else lo);
    }
  }

  /** In any index that has a live block's slot, position and rank differ by the index's constant. */
  lemma SlotOfRank(h: Header, entries: seq<Entry>, n: nat, z: int, p: nat, r: nat)
    requires HeaderOK(h, entries, n, z) && p < |h.index| && KeyAt(entries, h, p) == Some(BLOCK_SIZE * r)
    ensures Cong(r, p + z, |h.index|)
  {
  }

  lemma SameSlot(h: Header, at: nat, p: nat, r: int, z: int)
    requires at < |h.index| && p < |h.index| && Cong(r, at + z, |h.index|) && Cong(r, p + z, |h.index|)
    ensures at == p
  {
    CongSym(r, at + z, |h.index|);
    CongTrans(at + z, r, p + z, |h.index|);
    CongClose(at + z, p + z, |h.index|);
  }

  /** The lookup of get_block_index_index_for_index: from the tail slot and its key, whatever slot and key those were
      by the time they were read, to the slot of block r. */
  lemma FindSlot(h: Header, entries: seq<Entry>, home: seq<Home>, n: nat, z: int, pos: nat, key: nat, r: nat)
    requires HeaderOK(h, entries, n, z) && pos < |h.index| && KeyAt(entries, h, pos) == Some(key)
    requires r < |home| && home[r].entry in h.index && EntryAt(entries, home[r].entry).key == Some(BLOCK_SIZE * r)
    ensures AtSlot(h, home, Wrap(pos + (r - key / BLOCK_SIZE), h), r)
  {
    var m, k := |h.index|, key / BLOCK_SIZE;
    var p :| 0 <= p < m && h.index[p] == home[r].entry;
    SlotOfRank(h, entries, n, z, p, r);
    assert Cong(k, pos + z, m);
    hide HeaderOK;
    var at := (pos + (r - k)) % m;
    CongMod(pos + (r - k), m);
    CongSym(k, pos + z, m);
    CongShift(pos + z, k, r - k, m);
    CongShift(at, pos + (r - k), z, m);
    CongTrans(at + z, pos + (r - k) + z, r, m);
    CongSym(at + z, r, m);
    SameSlot(h, at, p, r, z);
  }

  /** The next block's slot is the next position. */
  lemma NextSlot(h: Header, entries: seq<Entry>, home: seq<Home>, n: nat, z: int, at: nat, r: nat)
    requires HeaderOK(h, entries, n, z) && AtSlot(h, home, at, r) && Cong(r, at + z, |h.index|)
    requires r + 1 < |home| && home[r + 1].entry in h.index
             && EntryAt(entries, home[r + 1].entry).key == Some(BLOCK_SIZE * (r + 1))
    ensures AtSlot(h, home, Wrap(at + 1, h), r + 1)
  {
    var m := |h.index|;
    var p :| 0 <= p < m && h.index[p] == home[r + 1].entry;
    SlotOfRank(h, entries, n, z, p, r + 1);
    hide HeaderOK;
    var next := (at + 1) % m;
    CongMod(at + 1, m);
    CongShift(next, at + 1, z, m);
    CongShift(r, at + z, 1, m);
    CongSym(r + 1, at + z + 1, m);
    CongTrans(next + z, at + 1 + z, r + 1, m);
    CongSym(next + z, r + 1, m);
    SameSlot(h, next, p, r + 1, z);
  }

  // -- Dequeuer steps keep the invariant --------------------------------------------------------------------------

  lemma PlaceAt(s: State, c: nat)
    requires BlockInv(s) && c < |s.cons|
    ensures Place(s.cons[c], s.headers, s.entries, s.home)
  {
    hide Claims, Life, Shape, Blocks, HasRing, Live, Producer, Place;
  }

  ghost predicate RingOf(s: State) { HasRing(s.headers, s.entries, |s.home|, s.prod) }

  /** A step that changes no memory and keeps the claim. */
  lemma Silent(s: State, c: nat, pc': CPC)
    requires BlockInv(s) && c < |s.cons| && SameClaim(s.cons[c], pc') && !Finishing(s.cons[c]) && !Finishing(pc')
    requires Place(pc', s.headers, s.entries, s.home)
    ensures BlockInv(s.(cons := s.cons[c := pc']))
  {
    hide Claims, Life, Shape, Blocks, RingWith, Live, Producer, Places, Place;
    ClaimsSame(s.head, s.marked, s.taken, s.enq, s.cons, c, pc');
    LifeSame(|s.home|, |s.home|, s.marked, s.cleared, s.returned, s.cons, c, pc');
    PlacesUpdate(s.cons, s.headers, s.entries, s.home, c, pc');
  }

  lemma LiveAt(s: State, r: nat)
    requires Live(s.headers, s.entries, s.home, s.cleared) && r < |s.home| && r !in s.cleared
    ensures s.headers != [] && s.home[r].entry in Last(s.headers).index
    ensures EntryAt(s.entries, s.home[r].entry) == Entry(Some(BLOCK_SIZE * r), Some(s.home[r].block))
  {
  }

  lemma HeaderAt(s: State, h: nat) returns (z: int)
    requires RingOf(s) && h < |s.headers|
    ensures HeaderOK(s.headers[h], s.entries, |s.home|, z)
  {
    hide HeaderOK, Current;
    var zs: seq<int> :| RingWith(s.headers, s.entries, |s.home|, s.prod, zs);
    z := zs[h];
  }

  lemma IndexStep(s: State, c: nat)
    requires BlockInv(s) && c < |s.cons| && s.cons[c].CIndex?
    ensures BlockInv(StepConsumer(s, c))
  {
    hide Claims, Life, Shape, Blocks, RingWith, Live, Producer, Indices;
    var lo, hi := s.cons[c].lo, s.cons[c].hi;
    PlaceAt(s, c);
    LiveCovers(s, c, lo, hi);
    ClaimedIsLive(s, c, lo);
    LiveAt(s, lo / BLOCK_SIZE);
    hide Covers, BlockInv, Places;
    Silent(s, c, CPos(lo, hi, |s.headers| - 1));
  }

  lemma PosStep(s: State, c: nat)
    requires BlockInv(s) && c < |s.cons| && s.cons[c].CPos?
    ensures BlockInv(StepConsumer(s, c))
  {
    hide Claims, Life, Shape, Blocks, RingWith, Live, Producer, Indices, Covers;
    var lo, hi, h := s.cons[c].lo, s.cons[c].hi, s.cons[c].h;
    PlaceAt(s, c);
    ClaimedIsLive(s, c, lo);
    var z := HeaderAt(s, h);
    hide BlockInv, Places;
    Silent(s, c, CKey(lo, hi, h, s.headers[h].tail));
  }

  lemma KeyStep(s: State, c: nat)
    requires BlockInv(s) && c < |s.cons| && s.cons[c].CKey?
    ensures BlockInv(StepConsumer(s, c))
  {
    hide Claims, Life, Shape, Blocks, RingWith, Live, Producer, Indices, HeaderOK;
    var lo, hi, h, pos := s.cons[c].lo, s.cons[c].hi, s.cons[c].h, s.cons[c].pos;
    var r := lo / BLOCK_SIZE;
    PlaceAt(s, c);
    ClaimedIsLive(s, c, lo);
    LiveAt(s, r);
    var z := HeaderAt(s, h);
    var key := KeyAt(s.entries, s.headers[h], pos).value;
    assert s.home[r].entry in s.headers[h].index;
    hide BlockInv, Places, Covers;
    FindSlot(s.headers[h], s.entries, s.home, |s.home|, z, pos, key, r);
    Silent(s, c, CBlock(lo, hi, h, Wrap(pos + (r - key / BLOCK_SIZE), s.headers[h])));
  }

  lemma BlockStep(s: State, c: nat)
    requires BlockInv(s) && c < |s.cons| && s.cons[c].CBlock?
    ensures BlockInv(StepConsumer(s, c))
  {
    hide Claims, Life, Shape, Blocks, RingWith, Live, Producer, Indices, Covers;
    var lo, hi, h, at := s.cons[c].lo, s.cons[c].hi, s.cons[c].h, s.cons[c].at;
    PlaceAt(s, c);
    ClaimedIsLive(s, c, lo);
    LiveAt(s, lo / BLOCK_SIZE);
    hide BlockInv, Places;
    Silent(s, c, CRead(lo, lo, hi, h, at, s.home[lo / BLOCK_SIZE].block));
  }

  lemma ReadStep(s: State, c: nat)
    requires BlockInv(s) && c < |s.cons| && s.cons[c].CRead?
    ensures BlockInv(StepConsumer(s, c))
    ensures s.cons[c].x < |s.enq| && s.cons[c].x !in s.taken
    ensures StepConsumer(s, c).taken == s.taken[s.cons[c].x := s.enq[s.cons[c].x]]
  {
    hide Life, Blocks, RingWith, Live, Producer, Indices, Covers;
    var lo, x, hi := s.cons[c].lo, s.cons[c].x, s.cons[c].hi;
    var r := lo / BLOCK_SIZE;
    assert Place(s.cons[c], s.headers, s.entries, s.home) && ClaimAt(s.cons[c], s.head, s.marked, s.taken);
    assert Within(x, Claim(s.cons[c]));
    ClaimedIsLive(s, c, x);
    IndicesMember(r, x);
    BlocksTake(s.blocks, s.home, s.returned, s.own, s.marked, s.taken, s.enq, s.prod, s.tailBlock, r, x);
    var s' := StepConsumer(s, c);
    hide Claims, Places;
    ClaimsTake(s.head, s.marked, s.taken, s.enq, s.cons, c, s'.cons[c], s.enq[x]);
    LifeSame(|s.home|, |s.home|, s.marked, s.cleared, s.returned, s.cons, c, s'.cons[c]);
    PlacesUpdate(s.cons, s.headers, s.entries, s.home, c, s'.cons[c]);
  }

  /** The piece of the claim after the block of `lo` starts at the next slot. */
  lemma NextPieceSlot(s: State, c: nat)
    requires BlockInv(s) && c < |s.cons| && s.cons[c].CMark? && s.cons[c].x < s.cons[c].hi
    ensures var pc := s.cons[c];
      && pc.x == BLOCK_SIZE * (pc.lo / BLOCK_SIZE + 1) && pc.h < |s.headers|
      && AtSlot(s.headers[pc.h], s.home, Wrap(pc.at + 1, s.headers[pc.h]), pc.lo / BLOCK_SIZE + 1)
  {
    hide Claims, Life, Shape, Blocks, RingWith, Live, Producer, Indices, HeaderOK;
    var lo, x, hi, h, at := s.cons[c].lo, s.cons[c].x, s.cons[c].hi, s.cons[c].h, s.cons[c].at;
    var r := lo / BLOCK_SIZE;
    PlaceAt(s, c);
    ClaimedIsLive(s, c, lo);
    ClaimedIsLive(s, c, x);
    LiveAt(s, r);
    LiveAt(s, r + 1);
    var z := HeaderAt(s, h);
    assert s.home[r + 1].entry in s.headers[h].index;
    hide BlockInv, Places, Covers;
    SlotOfRank(s.headers[h], s.entries, |s.home|, z, at, r);
    NextSlot(s.headers[h], s.entries, s.home, |s.home|, z, at, r);
  }

  /** Where the dequeuer goes when it has counted its elements. */
  function MarkedAt(s: State, pc: CPC): CPC
    requires pc.CMark?
  {
    if BlockAt(s.blocks, pc.block).done + (if pc.lo < pc.x then pc.x - pc.lo else 0) == BLOCK_SIZE
    then CClear(pc.lo / BLOCK_SIZE, pc.x, pc.hi, pc.h, pc.at, pc.block) else NextPiece(s, pc.x, pc.hi, pc.h, pc.at)
  }

  lemma MarkIs(s: State, c: nat)
    requires c < |s.cons| && s.cons[c].CMark?
    ensures var pc := s.cons[c]; var block := BlockAt(s.blocks, pc.block);
            StepConsumer(s, c)
            == s.(blocks := s.blocks[pc.block := block.(done := block.done + if pc.lo < pc.x then pc.x - pc.lo else 0)],
                  marked := s.marked + Range(pc.lo, pc.x), cons := s.cons[c := MarkedAt(s, pc)])
  {
    hide BlockAt, Range, NextPiece;
  }

  lemma MarkedPlace(s: State, pc: CPC)
    requires pc.CMark? && Place(pc, s.headers, s.entries, s.home)
    requires pc.x < pc.hi ==> pc.h < |s.headers| && pc.x == BLOCK_SIZE * (pc.lo / BLOCK_SIZE + 1)
                              && AtSlot(s.headers[pc.h], s.home, Wrap(pc.at + 1, s.headers[pc.h]),
                                        pc.lo / BLOCK_SIZE + 1)
    ensures Place(MarkedAt(s, pc), s.headers, s.entries, s.home)
  {
    hide BlockAt, AtSlot, Covers;
    CoversRest(s.headers[pc.h], s.home, pc.lo, pc.x, pc.hi);
  }

  lemma MarkedClaim(s: State, pc: CPC)
    requires pc.CMark? && pc.lo < pc.x <= pc.hi && (pc.x < pc.hi ==> pc.h < |s.headers|)
    ensures Claim(pc) == (pc.lo, pc.hi) && Untaken(pc) == (pc.x, pc.hi)
    ensures var pc' := MarkedAt(s, pc);
            Claim(pc') == Untaken(pc') == (pc.x, pc.hi) || (pc.x == pc.hi && Claim(pc') == Untaken(pc') == (0, 0))
    ensures var pc' := MarkedAt(s, pc);
            if BlockAt(s.blocks, pc.block).done + (pc.x - pc.lo) == BLOCK_SIZE then Clearing(pc', pc.lo / BLOCK_SIZE)
              else !Finishing(pc')
  {
    hide BlockAt;
  }

  lemma MarkRoom(s: State, c: nat)
    requires BlockInv(s) && c < |s.cons| && s.cons[c].CMark?
    ensures var pc := s.cons[c]; var r := pc.lo / BLOCK_SIZE;
            BLOCK_SIZE * r <= pc.lo < pc.x <= BLOCK_SIZE * (r + 1) && pc.x <= pc.hi && r < |s.home| && r !in s.returned
            && pc.block == s.home[r].block && pc.lo !in s.marked
  {
    hide Blocks, RingWith, Live, Producer, Indices, AtSlot, Life, Claims, Covers;
    MarkUnmarked(s, c);
    PlaceAt(s, c);
  }

  lemma MarkStep(s: State, c: nat)
    requires BlockInv(s) && c < |s.cons| && s.cons[c].CMark?
    ensures BlockInv(StepConsumer(s, c))
  {
    hide Shape, Blocks, RingWith, Live, Producer, Indices, Life, Range, Claims, Places, Place, BlockAt, StepConsumer,
         MarkedAt, Claim, Untaken;
    var lo, x, pc := s.cons[c].lo, s.cons[c].x, MarkedAt(s, s.cons[c]);
    var r, n := lo / BLOCK_SIZE, |s.home|;
    PlaceAt(s, c);
    MarkUnmarked(s, c);
    MarkRoom(s, c);
    MarkIs(s, c);
    if x < s.cons[c].hi { NextPieceSlot(s, c); }
    MarkedPlace(s, s.cons[c]);
    MarkedClaim(s, s.cons[c]);
    DoneIs(s, r);
    CountMarked(s.marked, lo, x, r);
    BlocksMark(s.blocks, s.home, s.returned, s.own, s.marked, s.taken, s.enq, s.prod, s.tailBlock, r, lo, x);
    ClaimsMark(s.head, s.marked, s.taken, s.enq, s.cons, c, pc, x);
    LifeMark(n, s.marked, s.cleared, s.returned, s.cons, c, pc, lo, x, r);
    PlacesUpdate(s.cons, s.headers, s.entries, s.home, c, pc);
  }

  lemma CoversRest(h: Header, home: seq<Home>, lo: nat, x: nat, hi: nat)
    requires Covers(h, home, lo, hi) && lo <= x
    ensures Covers(h, home, x, hi)
  {
  }

  lemma DoneIs(s: State, r: nat)
    requires Blocks(s.blocks, s.home, s.returned, s.own, s.marked, s.taken, s.enq, s.prod, s.tailBlock) && r < |s.home|
             && r !in s.returned
    ensures BlockAt(s.blocks, s.home[r].block).done == |s.marked * Indices(r)|
  {
    assert Stored(s.blocks, s.home[r].block, r, s.marked, s.taken, s.enq);
  }

  lemma MarkUnmarked(s: State, c: nat)
    requires BlockInv(s) && c < |s.cons| && s.cons[c].CMark?
    ensures var pc := s.cons[c];
      && pc.lo < pc.x <= pc.hi <= s.head && pc.lo / BLOCK_SIZE < |s.home| && pc.lo / BLOCK_SIZE !in s.returned
      && (forall i: nat | pc.lo <= i < pc.x :: i !in s.marked)
  {
    hide Shape, Blocks, RingWith, Live, Producer, Indices, AtSlot, Life, Covers;
    assert Place(s.cons[c], s.headers, s.entries, s.home) && ClaimAt(s.cons[c], s.head, s.marked, s.taken);
    ClaimedIsLive(s, c, s.cons[c].lo);
    forall i: nat | s.cons[c].lo <= i < s.cons[c].x ensures i !in s.marked { assert Within(i, Claim(s.cons[c])); }
  }

  lemma ClaimsBounded(s: State)
    requires s.head <= s.tail && Claims(s.head, s.marked, s.taken, s.enq, s.cons)
             && Shape(s.tail, |s.home|, s.enq, s.prod)
    ensures forall c | 0 <= c < |s.cons| :: Empty(Claim(s.cons[c])) || Claim(s.cons[c]).1 <= BLOCK_SIZE * |s.home|
  {
    hide Claim, Untaken;
    forall c | 0 <= c < |s.cons| ensures Empty(Claim(s.cons[c])) || Claim(s.cons[c]).1 <= BLOCK_SIZE * |s.home| {
      assert ClaimAt(s.cons[c], s.head, s.marked, s.taken);
    }
  }

  lemma ClearIs(s: State, c: nat)
    requires BlockInv(s) && c < |s.cons| && s.cons[c].CClear?
    ensures var pc := s.cons[c];
            pc.r < |s.home| && pc.r !in s.cleared && Clearing(pc, pc.r) && Claim(pc) == Untaken(pc) == (pc.x, pc.hi)
            && StepConsumer(s, c)
               == s.(entries := SetValue(s.entries, s.home[pc.r].entry, None), cleared := s.cleared + {pc.r},
                     cons := s.cons[c := CReturn(pc.r, pc.x, pc.hi, pc.h, pc.at, pc.block)])
  {
    hide Shape, Blocks, Indices, Claims, Covers, RingWith, Live, Producer, Places, SetValue;
    PlaceAt(s, c);
  }

  lemma ClearedPlace(pc: CPC, headers: seq<Header>, entries: seq<Entry>, home: seq<Home>)
    requires pc.CClear? && Place(pc, headers, entries, home)
    ensures var pc' := CReturn(pc.r, pc.x, pc.hi, pc.h, pc.at, pc.block);
            Place(pc', headers, entries, home) && SameClaim(pc, pc')
  {
    hide Covers, AtSlot, Wrap;
  }

  lemma SetNullGrows(headers: seq<Header>, entries: seq<Entry>, e: EntryId)
    ensures Grows(headers, headers, entries, SetValue(entries, e, None))
  {
  }

  lemma ClearStep(s: State, c: nat)
    requires BlockInv(s) && c < |s.cons| && s.cons[c].CClear?
    ensures BlockInv(StepConsumer(s, c))
  {
    hide Shape, Blocks, Claims, RingWith, Live, Producer, Places, Place, Life, Grows, StepConsumer, SetValue, Claim,
         Untaken;
    var pc, r := s.cons[c], s.cons[c].r;
    var pc', e := CReturn(r, pc.x, pc.hi, pc.h, pc.at, pc.block), s.home[r].entry by { ClearIs(s, c); }
    ClearIs(s, c);
    PlaceAt(s, c);
    ClearedPlace(pc, s.headers, s.entries, s.home);
    ClaimsSame(s.head, s.marked, s.taken, s.enq, s.cons, c, pc');
    LifeClear(|s.home|, s.marked, s.cleared, s.returned, s.cons, c, pc', r);
    LiveClear(s.headers, s.entries, s.home, s.cleared, r);
    var z: seq<int> :| RingWith(s.headers, s.entries, |s.home|, s.prod, z);
    RingSetNull(s.headers, s.entries, |s.home|, s.prod, z, e);
    ProducerSetNull(s.prod, s.headers, s.entries, s.home, s.cleared, s.cleared + {r}, e);
    ClaimsBounded(s);
    PlacesUpdate(s.cons, s.headers, s.entries, s.home, c, pc');
    SetNullGrows(s.headers, s.entries, e);
    PlacesFrame(s.cons[c := pc'], s.headers, s.headers, s.entries, SetValue(s.entries, e, None), s.home, s.home);
  }

  lemma LiveClear(headers: seq<Header>, entries: seq<Entry>, home: seq<Home>, cleared: set<nat>, r: nat)
    requires Live(headers, entries, home, cleared) && r < |home| && r !in cleared
    ensures Live(headers, SetValue(entries, home[r].entry, None), home, cleared + {r})
  {
    assert entries[home[r].entry].key == Some(BLOCK_SIZE * r);
    forall q | 0 <= q < |home| && q !in cleared + {r} ensures home[q].entry != home[r].entry {
      assert entries[home[q].entry].key == Some(BLOCK_SIZE * q);
    }
  }

  ghost predicate SameKeys(entries: seq<Entry>, entries': seq<Entry>) {
    |entries'| == |entries| && forall e | 0 <= e < |entries| :: entries'[e].key == entries[e].key
  }

  lemma SameKeyAt(entries: seq<Entry>, entries': seq<Entry>, h: Header)
    requires SameKeys(entries, entries')
    ensures forall p :: KeyAt(entries', h, p) == KeyAt(entries, h, p)
  {
  }

  // HeaderOK and Current read the entries only through the keys of the header's slots.
  lemma HeaderSame(h: Header, entries: seq<Entry>, entries': seq<Entry>, n: nat, z: int)
    requires HeaderOK(h, entries, n, z) && |entries| <= |entries'|
    requires forall p | 0 <= p < |h.index| :: KeyAt(entries', h, p) == KeyAt(entries, h, p)
    ensures HeaderOK(h, entries', n, z)
  {
    hide KeyAt, Cong;
  }

  lemma CurrentSame(h: Header, entries: seq<Entry>, entries': seq<Entry>, rank: int, z: int)
    requires Current(h, entries, rank, z)
    requires forall p | 0 <= p < |h.index| :: KeyAt(entries', h, p) == KeyAt(entries, h, p)
    ensures Current(h, entries', rank, z)
  {
    hide KeyAt, Cong;
  }

  lemma NextFreeSetNull(last: Header, entries: seq<Entry>, n: nat, prod: PPC, e: EntryId)
    requires NextFree(last, entries, n, prod)
    ensures NextFree(last, SetValue(entries, e, None), n, prod)
  {
    SameKeyAt(entries, SetValue(entries, e, None), last);
    forall p | 0 <= p < |last.index| ensures
      EntryAt(SetValue(entries, e, None), last.index[p]).value == None
        || EntryAt(SetValue(entries, e, None), last.index[p]).value == EntryAt(entries, last.index[p]).value
    {
    }
    hide KeyAt, Working, SetValue;
  }

  lemma RingSetNull(headers: seq<Header>, entries: seq<Entry>, n: nat, prod: PPC, z: seq<int>, e: EntryId)
    requires RingWith(headers, entries, n, prod, z)
    ensures RingWith(headers, SetValue(entries, e, None), n, prod, z)
  {
    hide HeaderOK, Current, Nested, NextFree, KeyAt;
    var entries' := SetValue(entries, e, None);
    forall h | 0 <= h < |headers| ensures HeaderOK(headers[h], entries', n, z[h]) {
      SameKeyAt(entries, entries', headers[h]);
      HeaderSame(headers[h], entries, entries', n, z[h]);
    }
    SameKeyAt(entries, entries', Last(headers));
    if headers != [] { CurrentSame(Last(headers), entries, entries', TailRank(prod, n), z[|z| - 1]); }
    NextFreeSetNull(Last(headers), entries, n, prod, e);
  }

  lemma ProducerSetNull(prod: PPC, headers: seq<Header>, entries: seq<Entry>, home: seq<Home>, cleared: set<nat>,
                        cleared': set<nat>, e: EntryId)
    requires Producer(prod, headers, entries, home, cleared) && cleared <= cleared'
    ensures Producer(prod, headers, SetValue(entries, e, None), home, cleared')
  {
    assert SameKeys(entries, SetValue(entries, e, None));
  }

  /** What other threads may do to the index does not disturb a dequeuer that is looking something up in it: old
      indices keep their slots, keys stay set, blocks keep their homes. */
  ghost predicate Grows(headers: seq<Header>, headers': seq<Header>, entries: seq<Entry>, entries': seq<Entry>) {
    && |headers| <= |headers'| && |entries| <= |entries'|
    && (forall h | 0 <= h < |headers| :: headers'[h].index == headers[h].index)
    && (forall e | 0 <= e < |entries| && entries[e].key.Some? :: entries'[e].key.Some?)
  }

  lemma PlaceFrame(pc: CPC, headers: seq<Header>, headers': seq<Header>, entries: seq<Entry>, entries': seq<Entry>,
                   home: seq<Home>, home': seq<Home>)
    requires Place(pc, headers, entries, home) && Grows(headers, headers', entries, entries') && home <= home'
    requires Empty(Claim(pc)) || Claim(pc).1 <= BLOCK_SIZE * |home|
    ensures Place(pc, headers', entries', home')
  {
  }

  lemma PlacesFrame(cons: seq<CPC>, headers: seq<Header>, headers': seq<Header>, entries: seq<Entry>,
                    entries': seq<Entry>, home: seq<Home>, home': seq<Home>)
    requires Places(cons, headers, entries, home) && Grows(headers, headers', entries, entries') && home <= home'
    requires forall c | 0 <= c < |cons| :: Empty(Claim(cons[c])) || Claim(cons[c]).1 <= BLOCK_SIZE * |home|
    ensures Places(cons, headers', entries', home')
  {
    hide Place, Grows, Claim;
    forall c | 0 <= c < |cons| ensures Place(cons[c], headers', entries', home') {
      PlaceFrame(cons[c], headers, headers', entries, entries', home, home');
    }
  }

  lemma ReturnIs(s: State, c: nat)
    requires BlockInv(s) && c < |s.cons| && s.cons[c].CReturn?
    ensures var pc := s.cons[c]; var pc' := NextPiece(s, pc.x, pc.hi, pc.h, pc.at);
            pc.r < |s.home| && pc.r in s.cleared && pc.r !in s.returned && Indices(pc.r) <= s.marked
            && SameClaim(pc, pc') && !Finishing(pc') && Place(pc', s.headers, s.entries, s.home)
            && StepConsumer(s, c) == s.(own := s.own - {s.home[pc.r].block}, returned := s.returned + {pc.r},
                                        cons := s.cons[c := pc'])
  {
    hide Shape, Blocks, Indices, Claims, Covers, RingWith, Live, Producer, AtSlot, Places, Wrap;
    PlaceAt(s, c);
    assert Returning(s.cons[c], s.cons[c].r);
  }

  lemma ReturnStep(s: State, c: nat)
    requires BlockInv(s) && c < |s.cons| && s.cons[c].CReturn?
    ensures BlockInv(StepConsumer(s, c))
  {
    hide Blocks, Indices, Claims, RingWith, Live, Producer, Life, Places, Place, StepConsumer, Claim, Untaken,
         NextPiece, Finishing;
    var pc, r := s.cons[c], s.cons[c].r;
    var pc' := NextPiece(s, pc.x, pc.hi, pc.h, pc.at);
    ReturnIs(s, c);
    MarkedEnqueued(s);
    BlocksReturn(s.blocks, s.home, s.returned, s.own, s.marked, s.taken, s.enq, s.prod, s.tailBlock, r);
    ClaimsSame(s.head, s.marked, s.taken, s.enq, s.cons, c, pc');
    LifeReturn(|s.home|, s.marked, s.cleared, s.returned, s.cons, c, pc', r);
    PlacesUpdate(s.cons, s.headers, s.entries, s.home, c, pc');
  }

  lemma MarkedEnqueued(s: State)
    requires Claims(s.head, s.marked, s.taken, s.enq, s.cons)
    ensures forall i | i in s.marked :: i < s.head && i < |s.enq|
  {
    forall i | i in s.marked ensures i < s.head && i < |s.enq| { assert i in s.taken; }
  }

  /** The counter steps move no claim except the grant, which starts one. */
  lemma CounterStep(s: State, c: nat)
    requires BlockInv(s) && c < |s.cons| && OnTickets(s.cons[c]) && StepConsumer(s, c).head <= StepConsumer(s, c).tail
    ensures BlockInv(StepConsumer(s, c))
  {
    hide Shape, Blocks, Indices, Claims, Covers, RingWith, Live, Producer, AtSlot, Life;
    var s', pc := StepConsumer(s, c), s.cons[c];
    assert Place(pc, s.headers, s.entries, s.home);
    if pc.CGrant? {
      ClaimsGrant(s.head, s.marked, s.taken, s.enq, s.cons, c, s'.cons[c], pc.got);
    } else {
      ClaimsSame(s.head, s.marked, s.taken, s.enq, s.cons, c, s'.cons[c]);
    }
    LifeSame(|s.home|, |s.home|, s.marked, s.cleared, s.returned, s.cons, c, s'.cons[c]);
    hide Places;
    PlacesUpdate(s.cons, s.headers, s.entries, s.home, c, s'.cons[c]);
  }

  /** Every step of a dequeuer keeps the invariant, provided the counters let it: the head stays within the tail. */
  lemma ConsumeKeepsBlocks(s: State, c: nat)
    requires BlockInv(s) && c < |s.cons| && s.cons[c] != CIdle && StepConsumer(s, c).head <= StepConsumer(s, c).tail
    ensures BlockInv(StepConsumer(s, c))
  {
    PlaceAt(s, c);
    hide BlockInv, StepTickets, StepBlocks;
    match s.cons[c] {
      case CIndex(_, _) => IndexStep(s, c);
      case CPos(_, _, _) => PosStep(s, c);
      case CKey(_, _, _, _) => KeyStep(s, c);
      case CBlock(_, _, _, _) => BlockStep(s, c);
      case CRead(_, _, _, _, _, _) => ReadStep(s, c);
      case CMark(_, _, _, _, _, _) => MarkStep(s, c);
      case CClear(_, _, _, _, _, _) => ClearStep(s, c);
      case CReturn(_, _, _, _, _, _) => ReturnStep(s, c);
      case _ => CounterStep(s, c);
    }
  }

  // -- Enqueuer steps keep the invariant --------------------------------------------------------------------------

  /** A step of the enqueuer that leaves the elements, blocks and claims alone. */
  lemma IndexOnly(s: State, s': State)
    requires BlockInv(s) && Shape(s.tail, |s.home|, s.enq, s'.prod)
    requires s' == s.(headers := s'.headers, entries := s'.entries, prod := s'.prod)
    requires forall b :: Holding(s'.prod, b) <==> Holding(s.prod, b)
    requires s'.prod.PReset? == s.prod.PReset? && s'.prod.PValue? == s.prod.PValue? && !s'.prod.PPublish?
    requires !Installing(s'.prod) || Installing(s.prod) || |s.enq| % BLOCK_SIZE != 0
    requires RingOf(s') && Live(s'.headers, s'.entries, s.home, s.cleared)
             && Producer(s'.prod, s'.headers, s'.entries, s.home, s.cleared)
    requires Grows(s.headers, s'.headers, s.entries, s'.entries)
    ensures BlockInv(s')
  {
    hide Claims, Life, RingWith, Live, Producer, AllStored, Grows, Places;
    ClaimsBounded(s);
    PlacesFrame(s.cons, s.headers, s'.headers, s.entries, s'.entries, s.home, s.home);
    hide Shape;
    assert Owned(s.home, s.returned, s.own, s'.prod);
    assert Tail(s.blocks, s.home, s.returned, s.enq, s'.prod, s.tailBlock);
  }

  lemma RingSameProd(headers: seq<Header>, entries: seq<Entry>, n: nat, prod: PPC, prod': PPC, z: seq<int>)
    requires RingWith(headers, entries, n, prod, z) && Working(prod') == Working(prod)
             && TailAhead(prod') == TailAhead(prod)
    ensures RingWith(headers, entries, n, prod', z)
  {
    hide HeaderOK, Current, Nested;
  }

  /** Steps that only move the enqueuer on. */
  lemma ProdOnly(s: State, prod': PPC)
    requires BlockInv(s) && Shape(s.tail, |s.home|, s.enq, prod')
    requires Working(prod') == Working(s.prod) && TailAhead(prod') == TailAhead(s.prod)
    requires forall b :: Holding(prod', b) <==> Holding(s.prod, b)
    requires prod'.PReset? == s.prod.PReset? && prod'.PValue? == s.prod.PValue? && !prod'.PPublish?
    requires !Installing(prod') || Installing(s.prod) || |s.enq| % BLOCK_SIZE != 0
    requires Producer(prod', s.headers, s.entries, s.home, s.cleared)
    ensures BlockInv(s.(prod := prod'))
  {
    hide Claims, Life, RingWith, Live, Producer, AllStored, Blocks, Places, Shape;
    var z: seq<int> :| RingWith(s.headers, s.entries, |s.home|, s.prod, z);
    RingSameProd(s.headers, s.entries, |s.home|, s.prod, prod', z);
    IndexOnly(s, s.(prod := prod'));
  }

  lemma EnqueueStep(s: State, v: Value)
    requires BlockInv(s) && s.prod == PIdle
    ensures BlockInv(Apply(s, Enqueue(v)))
  {
    hide Claims, Life, RingWith, Live, AllStored, Blocks, Places;
    ProdOnly(s, if s.tail % BLOCK_SIZE == 0 then PHead(v) else PWrite(v));
  }

  lemma HeadStep(s: State, ch: Choice)
    requires BlockInv(s) && s.prod.PHead?
    ensures BlockInv(StepProducer(s, ch))
  {
    hide Claims, Life, RingWith, Live, AllStored, Blocks, Places;
    ProdOnly(s, StepProducer(s, ch).prod);
  }

  /** A slot with a key of a block still in use: the index has to grow. */
  lemma SlotFull(s: State)
    requires RingOf(s) && s.prod.PSlot? && s.headers != []
    ensures var h := Last(s.headers); var p := Wrap(h.tail + 1, h); var e := EntryAt(s.entries, Slot(h, p));
            0 <= p < |h.index| && Slot(h, p) == h.index[p]
            && (e.key.Some? && e.value.Some? ==> e.key.value < BLOCK_SIZE * |s.home|)
  {
    hide Current, Nested, Cong;
    var h := Last(s.headers);
    var zs: seq<int> :| RingWith(s.headers, s.entries, |s.home|, s.prod, zs);
    assert HeaderOK(h, s.entries, |s.home|, zs[|zs| - 1]);
  }

  lemma SlotUnused(s: State, e: EntryId)
    requires Live(s.headers, s.entries, s.home, s.cleared)
             && (EntryAt(s.entries, e).key.None? || EntryAt(s.entries, e).value.None?)
    ensures Unused(e, s.home, s.cleared)
  {
  }

  lemma SlotStep(s: State, ch: Choice)
    requires BlockInv(s) && s.prod.PSlot?
    ensures BlockInv(StepProducer(s, ch))
  {
    hide Claims, Life, AllStored, Blocks, Places, RingWith, HeaderOK, Live, EntryAt, Slot, Wrap, Unused;
    var h, prod' := Last(s.headers), StepProducer(s, ch).prod;
    SlotFull(s);
    var e := Slot(h, Wrap(h.tail + 1, h));
    if !prod'.PGrow? { SlotUnused(s, e); }
    ProdOnly(s, prod');
  }

  lemma SetKeyAt(entries: seq<Entry>, e: EntryId, key: nat, h: Header, p: nat)
    requires p < |h.index| && e < |entries| && h.index[p] < |entries|
    ensures KeyAt(SetKey(entries, e, key), h, p) == if h.index[p] == e then Some(key) else KeyAt(entries, h, p)
  {
  }

  /** In every index that has the slot being filled, that slot stands for the next block. */
  lemma NextRank(headers: seq<Header>, entries: seq<Entry>, n: nat, prod: PPC, z: seq<int>, h: nat, q: nat)
    requires RingWith(headers, entries, n, prod, z) && h < |headers| && q < |headers[h].index| && !TailAhead(prod)
    requires headers[h].index[q] == Slot(Last(headers), Wrap(Last(headers).tail + 1, Last(headers)))
    ensures Cong(n, q + z[h], |headers[h].index|)
  {
    var last, zl := Last(headers), z[|z| - 1];
    assert HeaderOK(last, entries, n, zl);
    var m := |last.index|;
    var p := (last.tail + 1) % m;
    NextCong(last, n, zl);
    assert NestedIn(headers[h], z[h], last, zl);
    hide HeaderOK, Current, RingWith;
    CongSym(p + zl, n, m);
    CongDivides(n, p + zl, |headers[h].index|, m);
    assert Cong(p + zl, q + z[h], |headers[h].index|);
    CongTrans(n, p + zl, q + z[h], |headers[h].index|);
  }

  lemma NextCong(last: Header, n: nat, z: int)
    requires last.index != [] && Cong(n - 1, last.tail + z, |last.index|)
    ensures var p := (last.tail + 1) % |last.index|; Cong(p + z, n, |last.index|)
  {
    var m := |last.index|;
    var p := (last.tail + 1) % m;
    CongMod(last.tail + 1, m);
    CongShift(p, last.tail + 1, z, m);
    CongShift(n - 1, last.tail + z, 1, m);
    CongSym(n, last.tail + z + 1, m);
    CongTrans(p + z, last.tail + 1 + z, n, m);
  }

  lemma HeaderSetKey(h: Header, entries: seq<Entry>, e: EntryId, n: nat, z: int)
    requires HeaderOK(h, entries, n, z) && e < |entries|
    requires forall p | 0 <= p < |h.index| && h.index[p] == e :: Cong(n, p + z, |h.index|)
    ensures HeaderOK(h, SetKey(entries, e, BLOCK_SIZE * n), n, z)
  {
    hide KeyAt, Cong, SetKey;
    var entries' := SetKey(entries, e, BLOCK_SIZE * n);
    SetKeySize(entries, e, BLOCK_SIZE * n);
    MultipleMod(BLOCK_SIZE, n);
    forall p | 0 <= p < |h.index|
      ensures KeyAt(entries', h, p) == if h.index[p] == e then Some(BLOCK_SIZE * n) else KeyAt(entries, h, p)
    {
      SetKeyAt(entries, e, BLOCK_SIZE * n, h, p);
    }
  }

  lemma SetKeySize(entries: seq<Entry>, e: EntryId, key: nat)
    requires e < |entries|
    ensures |SetKey(entries, e, key)| == |entries|
  {
  }

  lemma CurrentSetKey(h: Header, entries: seq<Entry>, e: EntryId, n: nat, rank: int, z: int)
    requires Current(h, entries, rank, z) && e < |entries| && rank <= n && h.index != []
    requires forall p | 0 <= p < |h.index| :: h.index[p] < |entries|
    ensures Current(h, SetKey(entries, e, BLOCK_SIZE * n), rank, z)
  {
    var entries' := SetKey(entries, e, BLOCK_SIZE * n);
    forall p | 0 <= p < |h.index| ensures KeyAt(entries', h, p) == if h.index[p] == e then Some(BLOCK_SIZE * n)
      else KeyAt(entries, h, p) {
      SetKeyAt(entries, e, BLOCK_SIZE * n, h, p);
    }
    hide KeyAt, Cong;
  }

  lemma NextFreeSetKey(h: Header, entries: seq<Entry>, e: EntryId, n: nat, prod: PPC, prod': PPC)
    requires NextFree(h, entries, n, prod) && Working(prod).None? && Working(prod') == Some(e) && e < |entries|
    ensures NextFree(h, SetKey(entries, e, BLOCK_SIZE * n), n, prod')
  {
    hide Working;
  }

  lemma RingSetKey(headers: seq<Header>, entries: seq<Entry>, n: nat, prod: PPC, prod': PPC, z: seq<int>, e: EntryId)
    requires RingWith(headers, entries, n, prod, z) && headers != [] && !TailAhead(prod) && !TailAhead(prod')
    requires Working(prod).None? && Working(prod') == Some(e)
    requires e == Slot(Last(headers), Wrap(Last(headers).tail + 1, Last(headers)))
    ensures e < |entries| && RingWith(headers, SetKey(entries, e, BLOCK_SIZE * n), n, prod', z)
  {
    hide Nested, Current, NextFree, Cong;
    var last := Last(headers);
    assert HeaderOK(last, entries, n, z[|z| - 1]);
    assert 0 <= (last.tail + 1) % |last.index| < |last.index|;
    assert e < |entries|;
    forall h | 0 <= h < |headers| ensures HeaderOK(headers[h], SetKey(entries, e, BLOCK_SIZE * n), n, z[h]) {
      forall p | 0 <= p < |headers[h].index| && headers[h].index[p] == e ensures Cong(n, p + z[h], |headers[h].index|) {
        NextRank(headers, entries, n, prod, z, h, p);
      }
      HeaderSetKey(headers[h], entries, e, n, z[h]);
    }
    CurrentSetKey(last, entries, e, n, TailRank(prod, n), z[|z| - 1]);
    NextFreeSetKey(last, entries, e, n, prod, prod');
  }

  lemma KeyIndex(s: State)
    requires BlockInv(s) && s.prod.PKey?
    ensures s.tail == BLOCK_SIZE * |s.home| && s.prod.entry < |s.entries|
    ensures var prod', entries' := PTail(s.prod.v, s.prod.entry, s.prod.pos), SetKey(s.entries, s.prod.entry, s.tail);
      && HasRing(s.headers, entries', |s.home|, prod') && Live(s.headers, entries', s.home, s.cleared)
  {
    hide Claims, Life, Blocks, Places, RingWith, Live;
    var n := |s.home|;
    var z: seq<int> :| RingWith(s.headers, s.entries, n, s.prod, z);
    RingSetKey(s.headers, s.entries, n, s.prod, PTail(s.prod.v, s.prod.entry, s.prod.pos), z, s.prod.entry);
    LiveSetKey(s.headers, s.entries, s.home, s.cleared, s.prod.entry, BLOCK_SIZE * n);
  }

  lemma KeyProducer(prod: PPC, headers: seq<Header>, entries: seq<Entry>, home: seq<Home>, cleared: set<nat>)
    requires prod.PKey? && Producer(prod, headers, entries, home, cleared) && prod.entry < |entries|
    ensures var entries' := SetKey(entries, prod.entry, BLOCK_SIZE * |home|);
      Producer(PTail(prod.v, prod.entry, prod.pos), headers, entries', home, cleared)
        && Grows(headers, headers, entries, entries')
  {
    hide Unused, Slot, Wrap;
  }

  lemma KeyStepP(s: State, ch: Choice)
    requires BlockInv(s) && s.prod.PKey?
    ensures BlockInv(StepProducer(s, ch))
  {
    hide Claims, Life, Blocks, Places, RingWith, Live, Producer, SetKey, Grows;
    KeyIndex(s);
    KeyProducer(s.prod, s.headers, s.entries, s.home, s.cleared);
    IndexOnly(s, StepProducer(s, ch));
  }

  lemma LiveSetKey(headers: seq<Header>, entries: seq<Entry>, home: seq<Home>, cleared: set<nat>, e: EntryId, key: nat)
    requires Live(headers, entries, home, cleared) && Unused(e, home, cleared)
    ensures Live(headers, SetKey(entries, e, key), home, cleared)
  {
  }

  // -- The index tail moves on, and back after a failed requisition

  lemma HeaderSetTail(h: Header, tail: nat, entries: seq<Entry>, n: nat, z: int)
    requires HeaderOK(h, entries, n, z) && tail < |h.index| && (n > 0 ==> KeyAt(entries, h, tail).Some?)
    ensures HeaderOK(h.(tail := tail), entries, n, z)
  {
    KeySameIndex(entries, h, h.(tail := tail));
    hide KeyAt, Cong;
  }

  lemma KeySameIndex(entries: seq<Entry>, h: Header, h': Header)
    requires h'.index == h.index
    ensures forall p :: KeyAt(entries, h', p) == KeyAt(entries, h, p)
  {
  }

  lemma SetTailAt(headers: seq<Header>, tail: nat)
    requires headers != []
    ensures var headers' := SetTail(headers, tail);
      |headers'| == |headers| && Last(headers') == headers'[|headers| - 1] == Last(headers).(tail := tail)
      && forall h | 0 <= h < |headers| ::
         headers'[h].index == headers[h].index && (h < |headers| - 1 ==> headers'[h] == headers[h])
  {
  }

  lemma HeadersSetTail(headers: seq<Header>, entries: seq<Entry>, n: nat, z: seq<int>, tail: nat)
    requires headers != [] && |z| == |headers| && forall h | 0 <= h < |headers| ::
             HeaderOK(headers[h], entries, n, z[h])
    requires tail < |Last(headers).index| && (n > 0 ==> KeyAt(entries, Last(headers), tail).Some?)
    ensures |SetTail(headers, tail)| == |headers|
    ensures forall h | 0 <= h < |headers| :: HeaderOK(SetTail(headers, tail)[h], entries, n, z[h])
  {
    hide HeaderOK, KeyAt, SetTail;
    SetTailAt(headers, tail);
    HeaderSetTail(Last(headers), tail, entries, n, z[|z| - 1]);
  }

  lemma NestedSetTail(headers: seq<Header>, z: seq<int>, tail: nat)
    requires headers != [] && |z| == |headers| && Nested(headers, z)
    ensures |SetTail(headers, tail)| == |headers| && Nested(SetTail(headers, tail), z)
  {
    hide NestedIn, SetTail;
    SetTailAt(headers, tail);
    var headers' := SetTail(headers, tail);
    forall h | 0 <= h < |headers'| ensures headers'[h].index != []
      && NestedIn(headers'[h], z[h], Last(headers'), z[|z| - 1]) {
      NestedSameIndex(headers[h], headers'[h], z[h], Last(headers), Last(headers'), z[|z| - 1]);
    }
  }

  lemma RingSetTail(headers: seq<Header>, entries: seq<Entry>, n: nat, prod: PPC, prod': PPC, z: seq<int>, tail: nat)
    requires RingWith(headers, entries, n, prod, z) && headers != [] && Working(prod') == Working(prod)
    requires tail < |Last(headers).index| && (n > 0 ==> KeyAt(entries, Last(headers), tail).Some?)
    requires Current(Last(headers).(tail := tail), entries, TailRank(prod', n), z[|z| - 1])
    ensures RingWith(SetTail(headers, tail), entries, n, prod', z)
  {
    hide Current, Nested, HeaderOK, NextFree, KeyAt, SetTail, Working;
    SetTailAt(headers, tail);
    HeadersSetTail(headers, entries, n, z, tail);
    NestedSetTail(headers, z, tail);
    NextFreeSameIndex(Last(headers), Last(SetTail(headers, tail)), entries, n, prod, prod');
  }

  lemma NestedSameIndex(h: Header, h': Header, z: int, last: Header, last': Header, zl: int)
    requires h.index != [] && NestedIn(h, z, last, zl) && h'.index == h.index && last'.index == last.index
    ensures NestedIn(h', z, last', zl)
  {
  }

  lemma NextFreeSameIndex(h: Header, h': Header, entries: seq<Entry>, n: nat, prod: PPC, prod': PPC)
    requires NextFree(h, entries, n, prod) && h'.index == h.index && Working(prod') == Working(prod)
    ensures NextFree(h', entries, n, prod')
  {
  }

  lemma LiveSetTail(headers: seq<Header>, entries: seq<Entry>, home: seq<Home>, cleared: set<nat>, tail: nat)
    requires Live(headers, entries, home, cleared)
    ensures Live(SetTail(headers, tail), entries, home, cleared)
  {
  }

  /** Advancing the tail: the slot that now stands for the next block is the only one of its residue. */
  lemma CurrentAdvance(h: Header, entries: seq<Entry>, n: nat, z: int)
    requires HeaderOK(h, entries, n, z) && Current(h, entries, n - 1, z)
    requires KeyAt(entries, h, Wrap(h.tail + 1, h)) == Some(BLOCK_SIZE * n)
    ensures Current(h.(tail := Wrap(h.tail + 1, h)), entries, n, z)
  {
    var m, p := |h.index|, Wrap(h.tail + 1, h);
    NextCong(h, n, z);
    CongSym(p + z, n, m);
    CongMod(h.tail + 1, m);
    forall q | 0 <= q < m && KeyAt(entries, h, q).Some? ensures KeyAt(entries, h, q).value / BLOCK_SIZE > n - m {
      OnlyNext(h, entries, n, z, p, q);
    }
    KeySameIndex(entries, h, h.(tail := p));
    hide KeyAt, Cong, HeaderOK;
  }

  lemma OnlyNext(h: Header, entries: seq<Entry>, n: nat, z: int, p: nat, q: nat)
    requires HeaderOK(h, entries, n, z) && Current(h, entries, n - 1, z)
    requires p < |h.index| && Cong(n, p + z, |h.index|) && KeyAt(entries, h, p) == Some(BLOCK_SIZE * n)
    requires q < |h.index| && KeyAt(entries, h, q).Some?
    ensures KeyAt(entries, h, q).value / BLOCK_SIZE > n - |h.index|
  {
    var m, k := |h.index|, KeyAt(entries, h, q).value / BLOCK_SIZE;
    assert k > n - 1 - m && Cong(k, q + z, m);
    hide HeaderOK, Current, KeyAt;
    if k == n - m {
      CongMultiple(n, m);
      CongTrans(n, n - m, q + z, m);
      SameSlot(h, q, p, n, z);
      assert false;
    }
  }

  lemma CongMultiple(n: int, m: nat)
    requires m > 0
    ensures Cong(n, n - m, m)
  {
    ModUnique(m, m, 1, 0);
  }

  lemma TailIndex(s: State, prod': PPC)
    requires BlockInv(s) && s.prod.PTail? && prod' == PTake(s.prod.v, s.prod.entry)
    ensures var headers' := SetTail(s.headers, s.prod.pos);
      && HasRing(headers', s.entries, |s.home|, prod')
      && Live(headers', s.entries, s.home, s.cleared) && Producer(prod', headers', s.entries, s.home, s.cleared)
  {
    hide Claims, Life, Blocks, Places, Shape;
    hide RingWith, Live, Producer, HeaderOK, Current, Nested, KeyAt, SetTail;
    var z: seq<int> :| RingWith(s.headers, s.entries, |s.home|, s.prod, z);
    TailFacts(s.headers, s.entries, |s.home|, s.prod, z, s.home, s.cleared);
    RingSetTail(s.headers, s.entries, |s.home|, s.prod, prod', z, s.prod.pos);
    LiveSetTail(s.headers, s.entries, s.home, s.cleared, s.prod.pos);
    ProducerTail(s.prod, prod', s.headers, s.entries, s.home, s.cleared);
  }

  lemma TailStep(s: State, ch: Choice)
    requires BlockInv(s) && s.prod.PTail?
    ensures BlockInv(StepProducer(s, ch))
  {
    hide Claims, Life, Blocks, Places, RingWith, Live, Producer, SetTail, Grows;
    SetTailGrows(s.headers, s.entries, s.prod.pos);
    TailIndex(s, PTake(s.prod.v, s.prod.entry));
    IndexOnly(s, StepProducer(s, ch));
  }

  lemma SetTailGrows(headers: seq<Header>, entries: seq<Entry>, tail: nat)
    ensures Grows(headers, SetTail(headers, tail), entries, entries)
  {
  }

  lemma TailFacts(headers: seq<Header>, entries: seq<Entry>, n: nat, prod: PPC, z: seq<int>, home: seq<Home>,
                  cleared: set<nat>)
    requires RingWith(headers, entries, n, prod, z) && prod.PTail? && n == |home|
             && Producer(prod, headers, entries, home, cleared)
    ensures headers != [] && prod.pos < |Last(headers).index| && KeyAt(entries, Last(headers), prod.pos).Some?
    ensures Last(headers).tail < |Last(headers).index|
            && (n > 0 ==> KeyAt(entries, Last(headers), Last(headers).tail).Some?)
    ensures Current(Last(headers).(tail := prod.pos), entries, n, z[|z| - 1])
  {
    hide Nested, NextFree, Current;
    var h := Last(headers);
    assert HeaderOK(h, entries, n, z[|z| - 1]);
    CongMod(h.tail + 1, |h.index|);
    CurrentAdvance(h, entries, n, z[|z| - 1]);
  }

  lemma ProducerTail(prod: PPC, prod': PPC, headers: seq<Header>, entries: seq<Entry>, home: seq<Home>,
                     cleared: set<nat>)
    requires prod.PTail? && prod' == PTake(prod.v, prod.entry) && Producer(prod, headers, entries, home, cleared)
    requires headers != [] && Last(headers).tail < |Last(headers).index|
    requires |home| > 0 ==> KeyAt(entries, Last(headers), Last(headers).tail).Some?
    ensures Producer(prod', SetTail(headers, prod.pos), entries, home, cleared)
  {
    var h, h' := Last(headers), Last(SetTail(headers, prod.pos));
    PreviousSlot(h);
    KeySameIndex(entries, h, h');
    assert h' == h.(tail := prod.pos) && Wrap(h'.tail - 1, h') == h.tail;
    hide KeyAt, Unused;
  }

  lemma PreviousSlot(h: Header)
    requires h.tail < |h.index|
    ensures Wrap(Wrap(h.tail + 1, h) - 1, h) == h.tail
  {
    var m := |h.index|;
    if h.tail + 1 < m { ModUnique(h.tail + 1, m, 0, h.tail + 1); ModUnique(h.tail, m, 0, h.tail); }
    else { ModUnique(m, m, 1, 0); ModUnique(-1, m, -1, m - 1); }
  }

  lemma PreviousCong(n: int, tail: nat, z: int, m: nat)
    requires m > 0 && tail < m && Cong(n, tail + z, m)
    ensures var p := (tail - 1) % m; 0 <= p < m && Cong(n - 1, p + z, m)
  {
    var p := (tail - 1) % m;
    CongMod(tail - 1, m);
    hide Cong;
    CongShift(p, tail - 1, z, m);
    CongShift(n, tail + z, -1, m);
    CongSym(p + z, tail - 1 + z, m);
    CongTrans(n - 1, tail + z - 1, p + z, m);
  }

  lemma CurrentRewind(h: Header, entries: seq<Entry>, n: nat, z: int)
    requires HeaderOK(h, entries, n, z) && Current(h, entries, n, z)
    ensures var tail := Wrap(h.tail - 1, h); tail < |h.index| && Current(h.(tail := tail), entries, n - 1, z)
  {
    PreviousCong(n, h.tail, z, |h.index|);
    KeySameIndex(entries, h, h.(tail := (h.tail - 1) % |h.index|));
    hide KeyAt, HeaderOK, Cong;
  }

  lemma RewindFacts(headers: seq<Header>, entries: seq<Entry>, n: nat, prod: PPC, z: seq<int>, home: seq<Home>,
                    cleared: set<nat>)
    requires RingWith(headers, entries, n, prod, z) && prod.PRewind? && n == |home|
             && Producer(prod, headers, entries, home, cleared)
    ensures headers != [] && var h := Last(headers); var tail := Wrap(h.tail - 1, h);
      && tail < |h.index| && (n > 0 ==> KeyAt(entries, h, tail).Some?)
      && Current(h.(tail := tail), entries, n - 1, z[|z| - 1])
  {
    hide Nested, NextFree, HeaderOK, Current, KeyAt, Wrap, Unused;
    CurrentRewind(Last(headers), entries, n, z[|z| - 1]);
  }

  lemma RewindIndex(s: State, tail: nat)
    requires BlockInv(s) && s.prod.PRewind? && tail == Wrap(Last(s.headers).tail - 1, Last(s.headers))
    ensures var headers', prod' := SetTail(s.headers, tail), PClear(s.prod.entry);
      && HasRing(headers', s.entries, |s.home|, prod')
      && Live(headers', s.entries, s.home, s.cleared) && Producer(prod', headers', s.entries, s.home, s.cleared)
  {
    hide Claims, Life, Blocks, Places, Shape;
    hide RingWith, Live, HeaderOK, Current, Nested, KeyAt, SetTail, Wrap;
    var z: seq<int> :| RingWith(s.headers, s.entries, |s.home|, s.prod, z);
    RewindFacts(s.headers, s.entries, |s.home|, s.prod, z, s.home, s.cleared);
    RingSetTail(s.headers, s.entries, |s.home|, s.prod, PClear(s.prod.entry), z, tail);
    LiveSetTail(s.headers, s.entries, s.home, s.cleared, tail);
    assert SetTail(s.headers, tail) != [] by { SetTailGrows(s.headers, s.entries, tail); }
  }

  lemma RewindStep(s: State, ch: Choice)
    requires BlockInv(s) && s.prod.PRewind?
    ensures BlockInv(StepProducer(s, ch))
  {
    hide Claims, Life, Blocks, Places, RingWith, Live, Producer, SetTail, Grows;
    var tail := Wrap(Last(s.headers).tail - 1, Last(s.headers));
    SetTailGrows(s.headers, s.entries, tail);
    RewindIndex(s, tail);
    IndexOnly(s, StepProducer(s, ch));
  }

  // -- Clearing the slot of a failed attempt

  lemma NextFreeIdle(last: Header, entries: seq<Entry>, n: nat, prod: PPC, e: EntryId)
    requires NextFree(last, SetValue(entries, e, None), n, prod) && Working(prod) == Some(e) && e < |entries|
    ensures NextFree(last, SetValue(entries, e, None), n, PIdle)
  {
  }

  lemma ClearIndex(s: State)
    requires BlockInv(s) && s.prod.PClear?
    ensures var entries' := SetValue(s.entries, s.prod.entry, None);
      && HasRing(s.headers, entries', |s.home|, PIdle)
      && Live(s.headers, entries', s.home, s.cleared) && Grows(s.headers, s.headers, s.entries, entries')
  {
    hide Claims, Life, Blocks, Places, Shape, HeaderOK, Current, Nested, NextFree;
    var e := s.prod.entry;
    var z: seq<int> :| RingWith(s.headers, s.entries, |s.home|, s.prod, z);
    RingSetNull(s.headers, s.entries, |s.home|, s.prod, z, e);
    NextFreeIdle(Last(s.headers), s.entries, |s.home|, s.prod, e);
    assert RingWith(s.headers, SetValue(s.entries, e, None), |s.home|, PIdle, z);
  }

  lemma ClearStepP(s: State, ch: Choice)
    requires BlockInv(s) && s.prod.PClear?
    ensures BlockInv(StepProducer(s, ch))
  {
    hide Claims, Life, Blocks, Places, RingWith, Live, SetValue, Grows;
    ClearIndex(s);
    IndexOnly(s, StepProducer(s, ch));
  }

  // -- Requisition and reset of a block

  /** A step of the enqueuer that leaves the index and the claims alone. */
  lemma BlocksOnly(s: State, s': State)
    requires BlockInv(s) && Shape(s.tail, |s.home|, s.enq, s'.prod)
    requires s' == s.(blocks := s'.blocks, own := s'.own, prod := s'.prod)
    requires Working(s'.prod) == Working(s.prod) && TailAhead(s'.prod) == TailAhead(s.prod)
    requires Blocks(s'.blocks, s.home, s.returned, s'.own, s.marked, s.taken, s.enq, s'.prod, s.tailBlock)
    requires Producer(s'.prod, s.headers, s.entries, s.home, s.cleared)
    ensures BlockInv(s')
  {
    hide Claims, Life, RingWith, Live, Producer, Places, Shape, Blocks;
    var z: seq<int> :| RingWith(s.headers, s.entries, |s.home|, s.prod, z);
    RingSameProd(s.headers, s.entries, |s.home|, s.prod, s'.prod, z);
  }

  lemma TakeStepP(s: State, ch: Choice)
    requires BlockInv(s) && s.prod.PTake? && (ch.ok ==> ch.block !in s.own)
    ensures BlockInv(StepProducer(s, ch))
  {
    hide Claims, Life, RingWith, Live, Places, AllStored;
    var s' := StepProducer(s, ch);
    if ch.ok {
      forall b | b in s'.own ensures Holding(s'.prod, b) || exists r ::
        0 <= r < |s.home| && r !in s.returned && s.home[r].block == b {
        assert b in s.own ==> Holding(s.prod, b) || exists r ::
               0 <= r < |s.home| && r !in s.returned && s.home[r].block == b;
      }
    }
    BlocksOnly(s, s');
  }

  lemma StoredElsewhere(blocks: map<BlockId, Block>, home: seq<Home>, returned: set<nat>, own: set<BlockId>,
                        marked: set<nat>,
                        taken: map<nat, Value>, enq: seq<Value>, prod: PPC, b: BlockId, block: Block)
    requires AllStored(blocks, home, returned, marked, taken, enq) && Owned(home, returned, own, prod)
             && Holding(prod, b)
    ensures AllStored(blocks[b := block], home, returned, marked, taken, enq)
  {
    hide Indices;
    forall r | 0 <= r < |home| && r !in returned
      ensures Stored(blocks[b := block], home[r].block, r, marked, taken, enq) {
      assert Stored(blocks, home[r].block, r, marked, taken, enq) && home[r].block != b;
    }
  }

  lemma OwnedReset(home: seq<Home>, returned: set<nat>, own: set<BlockId>, prod: PPC)
    requires prod.PReset? && Owned(home, returned, own, prod)
    ensures Owned(home, returned, own, PValue(prod.v, prod.entry, prod.block))
  {
    assert forall b :: Holding(PValue(prod.v, prod.entry, prod.block), b) <==> Holding(prod, b);
    hide Holding;
  }

  lemma TailReset(blocks: map<BlockId, Block>, home: seq<Home>, returned: set<nat>, enq: seq<Value>, prod: PPC,
                  tailBlock: BlockId)
    requires prod.PReset? && Tail(blocks, home, returned, enq, prod, tailBlock)
    ensures Tail(blocks[prod.block := BlockAt(blocks, prod.block).(done := 0)], home, returned, enq,
                 PValue(prod.v, prod.entry, prod.block), tailBlock)
  {
  }

  lemma BlocksReset(blocks: map<BlockId, Block>, home: seq<Home>, returned: set<nat>, own: set<BlockId>,
                    marked: set<nat>,
                    taken: map<nat, Value>, enq: seq<Value>, prod: PPC, tailBlock: BlockId)
    requires Blocks(blocks, home, returned, own, marked, taken, enq, prod, tailBlock) && prod.PReset?
    ensures Blocks(blocks[prod.block := BlockAt(blocks, prod.block).(done := 0)], home, returned, own, marked, taken,
                   enq,
                   PValue(prod.v, prod.entry, prod.block), tailBlock)
  {
    hide AllStored, Owned, Tail, BlockAt;
    StoredElsewhere(blocks, home, returned, own, marked, taken, enq, prod, prod.block,
                    BlockAt(blocks, prod.block).(done := 0));
    OwnedReset(home, returned, own, prod);
    TailReset(blocks, home, returned, enq, prod, tailBlock);
  }

  lemma ResetStep(s: State, ch: Choice)
    requires BlockInv(s) && s.prod.PReset?
    ensures BlockInv(StepProducer(s, ch))
  {
    hide Claims, Life, RingWith, Live, Places, Blocks;
    BlocksReset(s.blocks, s.home, s.returned, s.own, s.marked, s.taken, s.enq, s.prod, s.tailBlock);
    BlocksOnly(s, StepProducer(s, ch));
  }

  // -- Installing a block

  lemma HeaderInstall(h: Header, entries: seq<Entry>, n: nat, z: int)
    requires HeaderOK(h, entries, n, z) && KeyAt(entries, h, h.tail).Some?
    ensures HeaderOK(h, entries, n + 1, z)
  {
  }

  lemma NextFreeInstall(last: Header, entries: seq<Entry>, n: nat, z: int, prod: PPC)
    requires HeaderOK(last, entries, n, z)
    ensures NextFree(last, entries, n + 1, prod)
  {
  }

  lemma SetValueKeys(entries: seq<Entry>, e: EntryId, b: Option<BlockId>)
    ensures SameKeys(entries, SetValue(entries, e, b))
  {
  }

  lemma RingInstall(headers: seq<Header>, entries: seq<Entry>, n: nat, prod: PPC, prod': PPC, z: seq<int>, e: EntryId,
                    b: Option<BlockId>)
    requires RingWith(headers, entries, n, prod, z) && TailAhead(prod) && !TailAhead(prod') && headers != []
    requires KeyAt(entries, Last(headers), Last(headers).tail).Some?
    ensures RingWith(headers, SetValue(entries, e, b), n + 1, prod', z)
  {
    hide HeaderOK, Current, Nested, NextFree, KeyAt;
    var entries' := SetValue(entries, e, b);
    SetValueKeys(entries, e, b);
    hide SetValue;
    forall h | 0 <= h < |headers| ensures HeaderOK(headers[h], entries', n + 1, z[h]) {
      SameKeyAt(entries, entries', headers[h]);
      HeaderSame(headers[h], entries, entries', n, z[h]);
      if n > 0 { TailKey(headers[h], entries', n, z[h]); }
      HeaderInstall(headers[h], entries', n, z[h]);
    }
    SameKeyAt(entries, entries', Last(headers));
    CurrentSame(Last(headers), entries, entries', n, z[|z| - 1]);
    HeaderSame(Last(headers), entries, entries', n, z[|z| - 1]);
    NextFreeInstall(Last(headers), entries', n, z[|z| - 1], prod');
  }

  lemma TailKey(h: Header, entries: seq<Entry>, n: nat, z: int)
    requires HeaderOK(h, entries, n, z) && n > 0
    ensures KeyAt(entries, h, h.tail).Some?
  {
  }

  lemma LiveInstall(headers: seq<Header>, entries: seq<Entry>, home: seq<Home>, cleared: set<nat>, e: EntryId,
                    b: BlockId)
    requires Live(headers, entries, home, cleared) && Unused(e, home, cleared) && headers != []
    requires e in Last(headers).index && e < |entries| && entries[e].key == Some(BLOCK_SIZE * |home|)
    ensures Live(headers, SetValue(entries, e, Some(b)), home + [Home(b, e)], cleared)
  {
  }

  lemma ValueIndex(s: State)
    requires BlockInv(s) && s.prod.PValue?
    ensures var e, b := s.prod.entry, s.prod.block; var entries' := SetValue(s.entries, e, Some(b));
      && HasRing(s.headers, entries', |s.home| + 1, PWrite(s.prod.v))
      && Live(s.headers, entries', s.home + [Home(b, e)], s.cleared) && Grows(s.headers, s.headers, s.entries, entries')
  {
    hide Claims, Life, Blocks, Places, Shape, HeaderOK, Current, Nested, NextFree;
    var e, b, h := s.prod.entry, s.prod.block, Last(s.headers);
    var z: seq<int> :| RingWith(s.headers, s.entries, |s.home|, s.prod, z);
    TailInRange(h, s.entries, |s.home|, z[|z| - 1]);
    assert e in h.index && KeyAt(s.entries, h, h.tail) == Some(BLOCK_SIZE * |s.home|);
    RingInstall(s.headers, s.entries, |s.home|, s.prod, PWrite(s.prod.v), z, e, Some(b));
    hide RingWith;
    LiveInstall(s.headers, s.entries, s.home, s.cleared, e, b);
  }

  lemma TailInRange(h: Header, entries: seq<Entry>, n: nat, z: int)
    requires HeaderOK(h, entries, n, z)
    ensures h.tail < |h.index|
  {
  }

  /** The new block is empty: none of its indices has been enqueued, let alone emptied. */
  lemma NewBlockStored(blocks: map<BlockId, Block>, b: BlockId, n: nat, marked: set<nat>, taken: map<nat, Value>,
                       enq: seq<Value>)
    requires BlockAt(blocks, b).done == 0 && |enq| == BLOCK_SIZE * n && forall i | i in marked :: i < |enq|
    ensures Stored(blocks, b, n, marked, taken, enq) && !(Indices(n) <= marked)
  {
    assert marked * Indices(n) == {} by { forall i | i in marked ensures i !in Indices(n) { IndicesMember(n, i); } }
    assert BLOCK_SIZE * n in Indices(n);
    forall i: nat | i in Indices(n) ensures i >= |enq| { IndicesMember(n, i); }
  }

  lemma BlocksInstall(blocks: map<BlockId, Block>, home: seq<Home>, returned: set<nat>, own: set<BlockId>,
                      marked: set<nat>,
                      taken: map<nat, Value>, enq: seq<Value>, prod: PPC, tailBlock: BlockId)
    requires Blocks(blocks, home, returned, own, marked, taken, enq, prod, tailBlock) && prod.PValue?
    requires |enq| == BLOCK_SIZE * |home| && |home| !in returned && forall i | i in marked :: i < |enq|
    ensures Blocks(blocks, home + [Home(prod.block, prod.entry)], returned, own, marked, taken, enq, PWrite(prod.v),
                   prod.block)
  {
    hide Stored, Indices, Owned, Tail, AllStored;
    NewBlockDone(blocks, home, returned, enq, prod, tailBlock);
    NewBlockStored(blocks, prod.block, |home|, marked, taken, enq);
    AllStoredInstall(blocks, home, returned, marked, taken, enq, Home(prod.block, prod.entry));
    OwnedInstall(home, returned, own, prod);
    TailInstall(blocks, home, returned, enq, prod);
  }

  lemma NewBlockDone(blocks: map<BlockId, Block>, home: seq<Home>, returned: set<nat>, enq: seq<Value>, prod: PPC,
                     tailBlock: BlockId)
    requires Tail(blocks, home, returned, enq, prod, tailBlock) && prod.PValue?
    ensures BlockAt(blocks, prod.block).done == 0
  {
  }

  lemma AllStoredInstall(blocks: map<BlockId, Block>, home: seq<Home>, returned: set<nat>, marked: set<nat>,
                         taken: map<nat, Value>,
                         enq: seq<Value>, h: Home)
    requires AllStored(blocks, home, returned, marked, taken, enq)
             && Stored(blocks, h.block, |home|, marked, taken, enq)
    ensures AllStored(blocks, home + [h], returned, marked, taken, enq)
  {
    hide Stored;
  }

  lemma TailInstall(blocks: map<BlockId, Block>, home: seq<Home>, returned: set<nat>, enq: seq<Value>, prod: PPC)
    requires prod.PValue? && |home| !in returned
    ensures Tail(blocks, home + [Home(prod.block, prod.entry)], returned, enq, PWrite(prod.v), prod.block)
  {
  }

  lemma OwnedInstall(home: seq<Home>, returned: set<nat>, own: set<BlockId>, prod: PPC)
    requires Owned(home, returned, own, prod) && prod.PValue? && |home| !in returned
    ensures Owned(home + [Home(prod.block, prod.entry)], returned, own, PWrite(prod.v))
  {
    var home' := home + [Home(prod.block, prod.entry)];
    forall b | b in own ensures exists r :: 0 <= r < |home'| && r !in returned && home'[r].block == b {
      if Holding(prod, b) {
        assert home'[|home|].block == b;
      } else {
        var r :| 0 <= r < |home| && r !in returned && home[r].block == b;
        assert home'[r].block == b;
      }
    }
  }

  lemma ValueStep(s: State, ch: Choice)
    requires BlockInv(s) && s.prod.PValue?
    ensures BlockInv(StepProducer(s, ch))
  {
    hide Claims, RingWith, Live, Producer, Places, Blocks, Grows, SetValue, Indices;
    var s', n := StepProducer(s, ch), |s.home|;
    MarkedEnqueued(s);
    assert n !in s.returned;
    ValueIndex(s);
    BlocksInstall(s.blocks, s.home, s.returned, s.own, s.marked, s.taken, s.enq, s.prod, s.tailBlock);
    NewBlockUnmarked(n, s.marked, |s.enq|);
    LifeGrows(n, n + 1, s.marked, s.cleared, s.returned, s.cons);
    hide Life;
    ClaimsBounded(s);
    PlacesFrame(s.cons, s.headers, s'.headers, s.entries, s'.entries, s.home, s'.home);
    assert Producer(s'.prod, s'.headers, s'.entries, s'.home, s'.cleared) by { InstallingProducer(s'); }
  }

  lemma InstallingProducer(s: State)
    requires s.prod.PWrite?
    ensures Producer(s.prod, s.headers, s.entries, s.home, s.cleared)
  {
  }

  lemma NewBlockUnmarked(n: nat, marked: set<nat>, size: nat)
    requires size == BLOCK_SIZE * n && forall i | i in marked :: i < size
    ensures !(Indices(n) <= marked)
  {
    assert BLOCK_SIZE * n in Indices(n);
  }

  // -- Writing and publishing the element

  lemma StoredWrite(blocks: map<BlockId, Block>, b: BlockId, r: nat, v: Value, marked: set<nat>, taken: map<nat, Value>,
                    enq: seq<Value>)
    requires Stored(blocks, b, r, marked, taken, enq) && |enq| in Indices(r)
    ensures Stored(blocks[b := BlockAt(blocks, b).(cells := BlockAt(blocks, b).cells[|enq| % BLOCK_SIZE := v])], b, r,
                   marked, taken, enq)
  {
    forall i: nat | i in Indices(r) && i < |enq| ensures i % BLOCK_SIZE != |enq| % BLOCK_SIZE {
      IndicesMember(r, i);
      IndicesMember(r, |enq|);
    }
  }

  lemma WriteStep(s: State, ch: Choice)
    requires BlockInv(s) && s.prod.PWrite?
    ensures BlockInv(StepProducer(s, ch))
  {
    hide Claims, Life, RingWith, Live, Places, Stored, Indices;
    var s', r, b := StepProducer(s, ch), |s.home| - 1, s.tailBlock;
    assert b == s.home[r].block && r !in s.returned;
    IndicesMember(r, |s.enq|);
    var block := BlockAt(s.blocks, b).(cells := BlockAt(s.blocks, b).cells[|s.enq| % BLOCK_SIZE := s.prod.v]);
    StoredWrite(s.blocks, b, r, s.prod.v, s.marked, s.taken, s.enq);
    forall q | 0 <= q < |s.home| && q !in s.returned
      ensures Stored(s.blocks[b := block], s.home[q].block, q, s.marked, s.taken, s.enq) {
      if q != r { OtherStored(s.blocks, block, s.home, s.returned, s.own, s.prod, r, q, s.marked, s.taken, s.enq); }
    }
    BlocksOnly(s, s');
  }

  lemma StoredPublish(blocks: map<BlockId, Block>, b: BlockId, r: nat, v: Value, marked: set<nat>,
                      taken: map<nat, Value>, enq: seq<Value>)
    requires Stored(blocks, b, r, marked, taken, enq)
    requires |enq| in Indices(r)
             ==> |enq| % BLOCK_SIZE in BlockAt(blocks, b).cells
                 && BlockAt(blocks, b).cells[|enq| % BLOCK_SIZE] == v
    ensures Stored(blocks, b, r, marked, taken, enq + [v])
  {
  }

  lemma BlocksPublish(blocks: map<BlockId, Block>, home: seq<Home>, returned: set<nat>, own: set<BlockId>,
                      marked: set<nat>,
                      taken: map<nat, Value>, enq: seq<Value>, prod: PPC, tailBlock: BlockId)
    requires Blocks(blocks, home, returned, own, marked, taken, enq, prod, tailBlock) && prod.PPublish?
             && Shape(|enq|, |home|, enq, prod)
    ensures Blocks(blocks, home, returned, own, marked, taken, enq + [prod.v], PIdle, tailBlock)
  {
    hide Stored, Indices;
    forall q | 0 <= q < |home| && q !in returned
      ensures Stored(blocks, home[q].block, q, marked, taken, enq + [prod.v]) {
      IndicesMember(q, |enq|);
      StoredPublish(blocks, home[q].block, q, prod.v, marked, taken, enq);
    }
  }

  lemma PublishStep(s: State, ch: Choice)
    requires BlockInv(s) && s.prod.PPublish?
    ensures BlockInv(StepProducer(s, ch))
  {
    hide Life, RingWith, Live, Places, Blocks, ClaimAt;
    BlocksPublish(s.blocks, s.home, s.returned, s.own, s.marked, s.taken, s.enq, s.prod, s.tailBlock);
    var z: seq<int> :| RingWith(s.headers, s.entries, |s.home|, s.prod, z);
    RingSameProd(s.headers, s.entries, |s.home|, s.prod, PIdle, z);
  }

  // -- A larger index

  /** The index grows only when the slot after the tail is taken; then its slots, read from that one on, stand for the
      last |index| blocks in order, so they keep their ranks modulo the doubled capacity. */
  lemma RankInOrder(h: Header, entries: seq<Entry>, n: nat, z: int, i: nat)
    requires HeaderOK(h, entries, n, z) && Current(h, entries, n - 1, z) && i < |h.index|
    requires KeyAt(entries, h, Wrap(h.tail + 1, h)).Some?
             && KeyAt(entries, h, Wrap(h.tail + 1, h)).value < BLOCK_SIZE * n
    ensures Wrap(h.tail + 1 + i, h) < |h.index|
    ensures var k := KeyAt(entries, h, Wrap(h.tail + 1 + i, h)); k.Some? ==> k.value == BLOCK_SIZE * (n - |h.index| + i)
    ensures Cong(n - |h.index| + i, Wrap(h.tail + 1 + i, h) + z, |h.index|)
  {
    var m, q := |h.index|, (h.tail + 1 + i) % |h.index|;
    CongMod(h.tail + 1 + i, m);
    CongShift(q, h.tail + 1 + i, z, m);
    CongShift(n - 1, h.tail + z, 1 + i, m);
    CongSym(n + i, h.tail + z + 1 + i, m);
    CongTrans(q + z, h.tail + 1 + i + z, n + i, m);
    CongMultiple(n + i, m);
    CongTrans(q + z, n + i, n + i - m, m);
    CongSym(q + z, n + i - m, m);
    var key := KeyAt(entries, h, q);
    if key.Some? {
      var k := key.value / BLOCK_SIZE;
      assert key.value == BLOCK_SIZE * k && k <= n && k > n - 1 - m && Cong(k, q + z, m);
      NotNext(h, entries, n, z, q);
      hide HeaderOK, Current;
      CongTrans(k, q + z, n + i - m, m);
      CongClose(k, n + i - m, m);
    }
  }

  lemma NotNext(h: Header, entries: seq<Entry>, n: nat, z: int, q: nat)
    requires HeaderOK(h, entries, n, z) && Cong(n - 1, h.tail + z, |h.index|) && q < |h.index|
    requires KeyAt(entries, h, Wrap(h.tail + 1, h)).Some?
             && KeyAt(entries, h, Wrap(h.tail + 1, h)).value < BLOCK_SIZE * n
    ensures KeyAt(entries, h, q) != Some(BLOCK_SIZE * n)
  {
    var m, p := |h.index|, Wrap(h.tail + 1, h);
    if KeyAt(entries, h, q) == Some(BLOCK_SIZE * n) {
      CongMod(h.tail + 1, m);
      NextCong(h, n, z);
      CongSym(p + z, n, m);
      SlotOfRank(h, entries, n, z, q, n);
      SameSlot(h, q, p, n, z);
      assert false;
    }
  }

  lemma WrapOnto(h: Header, w: nat) returns (i: nat)
    requires h.tail < |h.index| && w < |h.index|
    ensures i < |h.index| && Wrap(h.tail + 1 + i, h) == w
  {
    var m := |h.index|;
    i := (w - h.tail - 1) % m;
    CongMod(w - h.tail - 1, m);
    CongShift(i, w - h.tail - 1, h.tail + 1, m);
    CongMod(h.tail + 1 + i, m);
    CongTrans((h.tail + 1 + i) % m, h.tail + 1 + i, w, m);
    CongClose((h.tail + 1 + i) % m, w, m);
  }

  lemma WrapInjective(h: Header, i: nat, j: nat)
    requires h.tail < |h.index| && i < j < |h.index|
    ensures Wrap(h.tail + 1 + i, h) != Wrap(h.tail + 1 + j, h)
  {
    var m := |h.index|;
    CongMod(h.tail + 1 + i, m);
    CongMod(h.tail + 1 + j, m);
    if (h.tail + 1 + i) % m == (h.tail + 1 + j) % m {
      CongSym((h.tail + 1 + i) % m, h.tail + 1 + i, m);
      CongTrans(h.tail + 1 + i, (h.tail + 1 + i) % m, h.tail + 1 + j, m);
      CongClose(h.tail + 1 + i, h.tail + 1 + j, m);
    }
  }

  /** The position of the i-th oldest slot. */
  function Oldest(h: Header, i: nat): nat { Wrap(h.tail + 1 + i, h) }

  ghost predicate Doubled(h: Header, g: Header, unused: EntryId) {
    && h.tail < |h.index| && g.tail == |h.index| - 1 && |g.index| == 2 * |h.index|
    && (forall i | 0 <= i < |h.index| :: Oldest(h, i) < |h.index| && g.index[i] == h.index[Oldest(h, i)])
    && (forall i | |h.index| <= i < |g.index| :: g.index[i] == unused + (i - |h.index|))
  }

  lemma GrownDoubles(headers: seq<Header>, unused: EntryId)
    requires headers != [] && Last(headers).tail < |Last(headers).index|
    ensures Doubled(Last(headers), Grown(headers, unused), unused)
  {
    var h, g := Last(headers), Grown(headers, unused);
    forall i | 0 <= i < |h.index| ensures Oldest(h, i) < |h.index| && g.index[i] == h.index[Oldest(h, i)] {
      CongMod(h.tail + 1 + i, |h.index|);
      assert g.index[i] == Slot(h, Oldest(h, i));
    }
    forall i | |h.index| <= i < |g.index| ensures g.index[i] == unused + (i - |h.index|) { }
  }

  ghost predicate Extends(entries: seq<Entry>, entries': seq<Entry>) {
    && entries <= entries'
    && (forall e | |entries| <= e < |entries'| :: entries'[e].key == None)
  }

  ghost predicate Full(h: Header, entries: seq<Entry>, n: nat, z: int) {
    && HeaderOK(h, entries, n, z) && Current(h, entries, n - 1, z) && n > 0
    && KeyAt(entries, h, Wrap(h.tail + 1, h)).Some? && KeyAt(entries, h, Wrap(h.tail + 1, h)).value < BLOCK_SIZE * n
  }

  /** The keys of the doubled index: the i-th slot is that of the i-th oldest block. */
  lemma DoubledKeys(h: Header, g: Header, entries: seq<Entry>, entries': seq<Entry>, n: nat, z: int, i: nat)
    requires Full(h, entries, n, z) && Doubled(h, g, |entries|) && Extends(entries, entries') && i < |g.index|
             && |entries'| == |entries| + |h.index|
    ensures g.index[i] < |entries'|
    ensures KeyAt(entries', g, i).Some?
            ==> i < |h.index| && KeyAt(entries', g, i).value == BLOCK_SIZE * (n - |h.index| + i)
    ensures i == |h.index| - 1 ==> KeyAt(entries', g, i).Some?
    ensures i < |h.index|
            ==> 0 <= Wrap(h.tail + 1 + i, h) < |h.index|
                && Cong(n - |h.index| + i, Wrap(h.tail + 1 + i, h) + z, |h.index|)
  {
    if i < |h.index| {
      RankInOrder(h, entries, n, z, i);
      if i == |h.index| - 1 { ModUnique(h.tail + |h.index|, |h.index|, 1, h.tail); }
    }
  }

  lemma DoubledDistinct(h: Header, g: Header, entries: seq<Entry>, n: nat, z: int, p: nat, q: nat)
    requires HeaderOK(h, entries, n, z) && Doubled(h, g, |entries|) && p < q < |g.index|
    ensures g.index[p] != g.index[q]
  {
    if q < |h.index| {
      WrapInjective(h, p, q);
      var a, b := Wrap(h.tail + 1 + p, h), Wrap(h.tail + 1 + q, h);
      assert h.index[if a < b then a else b] != h.index[if a < b then b else a];
    }
  }

  /** The i-th slot holds the key of the i-th oldest block, if any; the slots behind the tail have none. */
  ghost predicate InOrder(g: Header, entries: seq<Entry>, n: nat, m: nat) {
    && m > 0 && g.tail == m - 1 && |g.index| == 2 * m && KeyAt(entries, g, m - 1).Some?
    && (forall p | 0 <= p < |g.index| && KeyAt(entries, g, p).Some? ::
        KeyAt(entries, g, p).value == BLOCK_SIZE * (n - m + p) && p < m)
  }

  lemma DoubledInOrder(h: Header, g: Header, entries: seq<Entry>, entries': seq<Entry>, n: nat, z: int)
    requires Full(h, entries, n, z) && Doubled(h, g, |entries|) && Extends(entries, entries')
             && |entries'| == |entries| + |h.index|
    ensures InOrder(g, entries', n, |h.index|)
  {
    DoubledSize(h, g, |entries|);
    hide KeyAt, Full, Doubled, Extends;
    forall p | 0 <= p < |g.index| && KeyAt(entries', g, p).Some?
      ensures KeyAt(entries', g, p).value == BLOCK_SIZE * (n - |h.index| + p) && p < |h.index|
    {
      DoubledKeys(h, g, entries, entries', n, z, p);
    }
    DoubledKeys(h, g, entries, entries', n, z, |h.index| - 1);
  }

  lemma InOrderOK(g: Header, entries: seq<Entry>, n: nat, m: nat)
    requires InOrder(g, entries, n, m)
    requires forall p | 0 <= p < |g.index| :: g.index[p] < |entries|
    requires forall p, q | 0 <= p < q < |g.index| :: g.index[p] != g.index[q]
    ensures HeaderOK(g, entries, n, n - m) && Current(g, entries, n - 1, n - m)
  {
    CongSame(n, 2 * m);
    hide KeyAt;
    forall p | 0 <= p < |g.index| && KeyAt(entries, g, p).Some?
      ensures var k := KeyAt(entries, g, p).value; k / BLOCK_SIZE == p + (n - m) && k <= BLOCK_SIZE * n
    {
    }
  }

  lemma DoubledOK(h: Header, g: Header, entries: seq<Entry>, entries': seq<Entry>, n: nat, z: int)
    requires Full(h, entries, n, z) && Doubled(h, g, |entries|) && Extends(entries, entries')
             && |entries'| == |entries| + |h.index|
    ensures HeaderOK(g, entries', n, n - |h.index|) && Current(g, entries', n - 1, n - |h.index|)
  {
    assert HeaderOK(h, entries, n, z);
    hide KeyAt, Full, Doubled, Extends, HeaderOK, Current, InOrder;
    DoubledInOrder(h, g, entries, entries', n, z);
    forall p | 0 <= p < |g.index| ensures g.index[p] < |entries'| { DoubledKeys(h, g, entries, entries', n, z, p); }
    forall p, q | 0 <= p < q < |g.index| ensures g.index[p] != g.index[q] {
      DoubledDistinct(h, g, entries, n, z, p, q);
    }
    InOrderOK(g, entries', n, |h.index|);
  }

  lemma DoubledSize(h: Header, g: Header, unused: EntryId)
    requires Doubled(h, g, unused)
    ensures g.tail == |h.index| - 1 && |g.index| == 2 * |h.index| && h.index != []
  {
  }

  lemma CongSame(a: int, m: nat)
    requires m > 0
    ensures forall x: int :: Cong(x, x, m)
  {
  }

  lemma DoubledNested(old0: Header, zo: int, h: Header, g: Header, entries: seq<Entry>, entries': seq<Entry>, n: nat,
                      z: int)
    requires Full(h, entries, n, z) && Doubled(h, g, |entries|) && Extends(entries, entries')
             && |entries'| == |entries| + |h.index|
    requires HeaderOK(old0, entries, n, zo) && NestedIn(old0, zo, h, z)
    ensures NestedIn(old0, zo, g, n - |h.index|)
  {
    var m, k := |h.index|, |old0.index|;
    SumMod(m, m, k);
    forall p, q | 0 <= p < k && 0 <= q < |g.index| && old0.index[p] == g.index[q] ensures Cong(q + (n - m), p + zo, k) {
      DoubledKeys(h, g, entries, entries', n, z, q);
      var w := Wrap(h.tail + 1 + q, h);
      assert q < m && old0.index[p] == h.index[w];
      assert Cong(w + z, p + zo, k);
      CongDivides(n - m + q, w + z, k, m);
      CongTrans(n - m + q, w + z, p + zo, k);
    }
  }

  lemma DoubledNestedSelf(h: Header, g: Header, entries: seq<Entry>, n: nat, z: int, zg: int)
    requires HeaderOK(h, entries, n, z) && Doubled(h, g, |entries|)
    ensures g.index != [] && NestedIn(g, zg, g, zg)
  {
    DoubledSize(h, g, |entries|);
    ModUnique(|g.index|, |g.index|, 1, 0);
    forall p, q | 0 <= p < |g.index| && 0 <= q < |g.index| && g.index[p] == g.index[q] ensures p == q {
      if p < q { DoubledDistinct(h, g, entries, n, z, p, q); } else if q < p {
        DoubledDistinct(h, g, entries, n, z, q, p);
      }
    }
  }

  lemma ExtendsKeys(h: Header, entries: seq<Entry>, entries': seq<Entry>, n: nat, z: int)
    requires HeaderOK(h, entries, n, z) && Extends(entries, entries')
    ensures HeaderOK(h, entries', n, z)
  {
    forall p | 0 <= p < |h.index| ensures KeyAt(entries', h, p) == KeyAt(entries, h, p) { }
    HeaderSame(h, entries, entries', n, z);
  }

  lemma DoubledNextFree(h: Header, g: Header, entries: seq<Entry>, entries': seq<Entry>, n: nat, z: int, prod: PPC)
    requires Full(h, entries, n, z) && Doubled(h, g, |entries|) && Extends(entries, entries')
             && |entries'| == |entries| + |h.index|
    ensures NextFree(g, entries', n, prod)
  {
    forall p | 0 <= p < |g.index| ensures KeyAt(entries', g, p) != Some(BLOCK_SIZE * n) {
      DoubledKeys(h, g, entries, entries', n, z, p);
    }
  }

  lemma FullLast(headers: seq<Header>, entries: seq<Entry>, n: nat, prod: PPC, z: seq<int>, home: seq<Home>,
                 cleared: set<nat>)
    requires RingWith(headers, entries, n, prod, z) && n == |home| && prod.PGrow?
             && Producer(prod, headers, entries, home, cleared)
    ensures headers != [] && Full(Last(headers), entries, n, z[|z| - 1]) && Last(headers).tail < |Last(headers).index|
  {
  }

  lemma RingGrow(headers: seq<Header>, entries: seq<Entry>, entries': seq<Entry>, n: nat, prod: PPC, prod': PPC,
                 z: seq<int>)
    requires RingWith(headers, entries, n, prod, z) && headers != [] && Full(Last(headers), entries, n, z[|z| - 1])
    requires Extends(entries, entries') && |entries'| == |entries| + |Last(headers).index| && !TailAhead(prod')
    ensures RingWith(headers + [Grown(headers, |entries|)], entries', n, prod', z + [n - |Last(headers).index|])
  {
    hide HeaderOK, Current, NestedIn, NextFree, Doubled, Full, Grown, Extends;
    var h, g, zl := Last(headers), Grown(headers, |entries|), z[|z| - 1];
    var headers', zg := headers + [g], n - |h.index|;
    var z' := z + [zg];
    assert HeaderOK(headers[|headers| - 1], entries, n, zl);
    TailInRange(h, entries, n, zl);
    GrownDoubles(headers, |entries|);
    assert n > 0 by { FullPositive(h, entries, n, zl); }
    DoubledOK(h, g, entries, entries', n, zl);
    forall i | 0 <= i < |headers'| ensures HeaderOK(headers'[i], entries', n, z'[i]) {
      if i < |headers| { ExtendsKeys(headers[i], entries, entries', n, z[i]); }
    }
    DoubledNestedSelf(h, g, entries, n, zl, zg);
    forall i | 0 <= i < |headers'| ensures headers'[i].index != [] && NestedIn(headers'[i], z'[i], g, zg) {
      if i < |headers| { DoubledNested(headers[i], z[i], h, g, entries, entries', n, zl); }
    }
    DoubledNextFree(h, g, entries, entries', n, zl, prod');
  }

  lemma FullPositive(h: Header, entries: seq<Entry>, n: nat, z: int)
    requires Full(h, entries, n, z)
    ensures n > 0
  {
  }

  lemma LiveGrow(headers: seq<Header>, entries: seq<Entry>, entries': seq<Entry>, home: seq<Home>, cleared: set<nat>)
    requires Live(headers, entries, home, cleared) && entries <= entries'
    requires headers != [] && Last(headers).tail < |Last(headers).index|
    ensures Live(headers + [Grown(headers, |entries|)], entries', home, cleared)
    ensures Unused(|entries|, home, cleared)
  {
    var h, g := Last(headers), Grown(headers, |entries|);
    GrownDoubles(headers, |entries|);
    forall r | 0 <= r < |home| && r !in cleared ensures home[r].entry in g.index {
      var w :| 0 <= w < |h.index| && h.index[w] == home[r].entry;
      var i := WrapOnto(h, w);
      assert g.index[i] == home[r].entry;
    }
  }

  lemma ProducerGrow(headers: seq<Header>, entries: seq<Entry>, entries': seq<Entry>, home: seq<Home>,
                     cleared: set<nat>, v: Value)
    requires headers != [] && Last(headers).tail < |Last(headers).index| && Unused(|entries|, home, cleared)
    ensures var headers' := headers + [Grown(headers, |entries|)]; var h' := Last(headers');
            var p := Wrap(h'.tail + 1, h');
      Producer(PKey(v, Slot(h', p), p), headers', entries', home, cleared)
  {
    hide Unused;
    var h, g := Last(headers), Grown(headers, |entries|);
    GrownDoubles(headers, |entries|);
    hide Grown;
    ModUnique(|h.index|, 2 * |h.index|, 0, |h.index|);
    assert g.tail + 1 == |h.index| && Wrap(g.tail + 1, g) == |h.index|;
    assert Slot(g, |h.index|) == |entries|;
  }

  lemma GrowStep(s: State, ch: Choice)
    requires BlockInv(s) && s.prod.PGrow?
    ensures BlockInv(StepProducer(s, ch))
  {
    hide Claims, Life, Blocks, Places, RingWith, Live;
    var s', v := StepProducer(s, ch), s.prod.v;
    if ch.ok {
      var z: seq<int> :| RingWith(s.headers, s.entries, |s.home|, s.prod, z);
      FullLast(s.headers, s.entries, |s.home|, s.prod, z, s.home, s.cleared);
      hide Producer, Full, Grown;
      assert s'.headers == s.headers + [Grown(s.headers, |s.entries|)];
      RingGrow(s.headers, s.entries, s'.entries, |s.home|, s.prod, s'.prod, z);
      LiveGrow(s.headers, s.entries, s'.entries, s.home, s.cleared);
      ProducerGrow(s.headers, s.entries, s'.entries, s.home, s.cleared, v);
      IndexOnly(s, s');
    } else {
      ProdOnly(s, PIdle);
    }
  }

  /** Every step of the enqueuer keeps the invariant. */
  lemma ProduceKeepsBlocks(s: State, ch: Choice)
    requires BlockInv(s) && Enabled(s, Produce(ch))
    ensures BlockInv(StepProducer(s, ch))
  {
    hide BlockInv;
    match s.prod {
      case PHead(_) => HeadStep(s, ch);
      case PSlot(_) => SlotStep(s, ch);
      case PGrow(_) => GrowStep(s, ch);
      case PKey(_, _, _) => KeyStepP(s, ch);
      case PTail(_, _, _) => TailStep(s, ch);
      case PTake(_, _) => TakeStepP(s, ch);
      case PRewind(_) => RewindStep(s, ch);
      case PClear(_) => ClearStepP(s, ch);
      case PReset(_, _, _) => ResetStep(s, ch);
      case PValue(_, _, _) => ValueStep(s, ch);
      case PWrite(_) => WriteStep(s, ch);
      case PPublish(_) => PublishStep(s, ch);
    }
  }
}
