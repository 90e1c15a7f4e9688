/** The implicit producer of ConcurrentQueue.h as a machine whose steps are its single atomic accesses: one enqueuing
    thread, any number of dequeuing threads, in any interleaving, over sequentially consistent memory.  The single
    `dequeue` takes the same steps as `dequeue_bulk` with `max` = 1, so only the bulk form is written out.

    Indices are unbounded; the source's `circular_less_than` agrees with `<` while the counters stay within half the
    range of `index_t` of each other. */
module ImplicitQueue {
  import opened Wrappers

  type Value = int
  type BlockId = nat
  type EntryId = nat

  const BLOCK_SIZE: nat := 32
  const IMPLICIT_INITIAL_INDEX_SIZE: nat := 32

  /** A slot of the block index.  A key of `None` is INVALID_BLOCK_BASE, a value of `None` the null pointer. */
  datatype Entry = Entry(key: Option<nat>, value: Option<BlockId>)

  /** A block index: its capacity is the length of `index`, which never changes once the header is published. */
  datatype Header = Header(tail: nat, index: seq<EntryId>)

  /** Slots that hold no element are absent from `cells`. */
  datatype Block = Block(cells: map<nat, Value>, done: nat)

  /** Where the block of a range of BLOCK_SIZE indices was installed. */
  datatype Home = Home(block: BlockId, entry: EntryId)

  /** The enqueuer's next access. */
  datatype PPC =
    | PIdle
    | PHead(v: Value)                                  // headIndex.load()
    | PSlot(v: Value)                                  // load the next index slot's key and value
    | PGrow(v: Value)                                  // new_block_index, published by blockIndex.store()
    | PKey(v: Value, entry: EntryId, pos: nat)         // idxEntry->key.store(currentTailIndex)
    | PTail(v: Value, entry: EntryId, pos: nat)        // localBlockIndex->tail.store(newTail)
    | PTake(v: Value, entry: EntryId)                  // requisition_block
    | PRewind(entry: EntryId)                          // rewind_block_index_tail, after a failed requisition
    | PClear(entry: EntryId)                           // idxEntry->value.store(nullptr)
    | PReset(v: Value, entry: EntryId, block: BlockId) // reset_empty
    | PValue(v: Value, entry: EntryId, block: BlockId) // idxEntry->value.store(newBlock)
    | PWrite(v: Value)                                 // construct the element in the tail block
    | PPublish(v: Value)                               // tailIndex.store(newTailIndex)

  /** A dequeuer's next access.  [lo, hi) are the claimed indices it has not yet counted as emptied. */
  datatype CPC =
    | CIdle
    | CTail(max: nat)                                  // tailIndex.load()
    | COver(max: nat, tail: nat)                       // dequeueOvercommit.load()
    | COpt(max: nat, tail: nat, over: nat)             // dequeueOptimisticCount.load()
    | CClaim(want: nat, over: nat)                     // dequeueOptimisticCount.fetch_add(want)
    | CCheck(want: nat, over: nat, my: nat)            // tailIndex.load() again
    | CSpill(want: nat, got: nat, my: nat)             // dequeueOvercommit.fetch_add(want - got)
    | CGrant(got: nat)                                 // headIndex.fetch_add(got)
    | CFail(want: nat, my: nat)                        // dequeueOvercommit.fetch_add(want)
    | CIndex(lo: nat, hi: nat)                         // blockIndex.load()
    | CPos(lo: nat, hi: nat, h: nat)                   // localBlockIndex->tail.load()
    | CKey(lo: nat, hi: nat, h: nat, pos: nat)         // index[tail]->key.load()
    | CBlock(lo: nat, hi: nat, h: nat, at: nat)        // entry->value.load()
    | CRead(lo: nat, x: nat, hi: nat, h: nat, at: nat, block: BlockId)  // move element x out and destroy it
    | CMark(lo: nat, x: nat, hi: nat, h: nat, at: nat, block: BlockId)  // set_many_empty(lo, x - lo)
    | CClear(r: nat, x: nat, hi: nat, h: nat, at: nat, block: BlockId)  // entry->value.store(nullptr)
    | CReturn(r: nat, x: nat, hi: nat, h: nat, at: nat, block: BlockId) // add_block_to_free_list
    | CFault                                           // used an invalid key, a null block or a destroyed element

  /** The fields from `enq` on are history: what was enqueued, which indices have been taken (and as what) and counted
      as emptied, where each block was installed, which blocks have left the index and the producer.  No step reads
      them, except that another producer's blocks are those outside `own`. */
  datatype State = State(
    tail: nat, head: nat, opt: nat, over: nat,
    headers: seq<Header>, entries: seq<Entry>, blocks: map<BlockId, Block>, tailBlock: BlockId,
    prod: PPC, cons: seq<CPC>,
    enq: seq<Value>, taken: map<nat, Value>, marked: set<nat>,
    home: seq<Home>, cleared: set<nat>, returned: set<nat>, own: set<BlockId>)

  /** What the environment decides for one access of the enqueuer: whether an allocation succeeds, which block the
      pool hands out, and what uninitialised memory holds. */
  datatype Choice = Choice(ok: bool, block: BlockId, garbage: Option<BlockId>)

  datatype Event =
    | Enqueue(v: Value) | Produce(choice: Choice)
    | Dequeue(c: nat, max: nat) | Consume(c: nat)
    | Others(b: BlockId, block: Block)                 // another producer uses a block of its own

  function EntryAt(entries: seq<Entry>, e: EntryId): Entry { if e < |entries| then entries[e] else Entry(None, None) }

  function BlockAt(blocks: map<BlockId, Block>, b: BlockId): Block {
    if b in blocks then blocks[b] else Block(map[], 0)
  }

  function SetKey(entries: seq<Entry>, e: EntryId, key: nat): seq<Entry> {
    if e < |entries| then entries[e := entries[e].(key := Some(key))] else entries
  }

  function SetValue(entries: seq<Entry>, e: EntryId, value: Option<BlockId>): seq<Entry> {
    if e < |entries| then entries[e := entries[e].(value := value)] else entries
  }

  function SetTail(headers: seq<Header>, tail: nat): seq<Header> {
    if headers == [] then headers else headers[|headers| - 1 := headers[|headers| - 1].(tail := tail)]
  }

  function Slot(h: Header, p: nat): EntryId { if p < |h.index| then h.index[p] else 0 }

  // The source masks with capacity - 1; capacities are powers of two.
  function Wrap(p: int, h: Header): nat { if h.index == [] then 0 else p % |h.index| }

  function Last(headers: seq<Header>): Header { if headers == [] then Header(0, []) else headers[|headers| - 1] }

  /** new_block_index: twice the capacity, the old slots in order from the oldest to the tail, then unused ones. */
  function Grown(headers: seq<Header>, unused: EntryId): Header {
    if headers == [] then
      Header(IMPLICIT_INITIAL_INDEX_SIZE - 1, seq<EntryId>(IMPLICIT_INITIAL_INDEX_SIZE, (i: nat) => unused + i))
    else
      var h := Last(headers);
      var n := |h.index|;
      Header(if n == 0 then 0 else n - 1,
             seq<EntryId>(n, (i: nat) => Slot(h, Wrap(h.tail + 1 + i, h))) + seq<EntryId>(n, (i: nat) => unused + i))
  }

  function GrownBy(headers: seq<Header>): nat {
    if headers == [] then IMPLICIT_INITIAL_INDEX_SIZE else |Last(headers).index|
  }

  function WithNewIndex(s: State, garbage: Option<BlockId>): State {
    s.(headers := s.headers + [Grown(s.headers, |s.entries|)],
       entries := s.entries + seq(GrownBy(s.headers), _ => Entry(None, garbage)))
  }

  /** insert_block_index_entry goes on with the slot after the tail. */
  function Inserting(s: State, v: Value): PPC {
    var h := Last(s.headers);
    var p := Wrap(h.tail + 1, h);
    PKey(v, Slot(h, p), p)
  }

  function StepProducer(s: State, ch: Choice): State {
    match s.prod
    case PIdle => s
    case PHead(v) => s.(prod := if s.head < s.tail + BLOCK_SIZE && s.headers != [] then PSlot(v) else PIdle)
    case PSlot(v) =>
      var next := Inserting(s, v);
      var e := EntryAt(s.entries, next.entry);
      s.(prod := if e.key.None? || e.value.None? then next else PGrow(v))
    case PGrow(v) =>
      if ch.ok then var s' := WithNewIndex(s, ch.garbage); s'.(prod := Inserting(s', v))
      else s.(prod := PIdle)
    case PKey(v, e, p) => s.(entries := SetKey(s.entries, e, s.tail), prod := PTail(v, e, p))
    case PTail(v, e, p) => s.(headers := SetTail(s.headers, p), prod := PTake(v, e))
    case PTake(v, e) =>
      if ch.ok then s.(own := s.own + {ch.block}, prod := PReset(v, e, ch.block)) else s.(prod := PRewind(e))
    case PRewind(e) =>
      s.(headers := SetTail(s.headers, Wrap(Last(s.headers).tail - 1, Last(s.headers))), prod := PClear(e))
    case PClear(e) => s.(entries := SetValue(s.entries, e, None), prod := PIdle)
    case PReset(v, e, b) => s.(blocks := s.blocks[b := BlockAt(s.blocks, b).(done := 0)], prod := PValue(v, e, b))
    case PValue(v, e, b) =>
      s.(entries := SetValue(s.entries, e, Some(b)), tailBlock := b, home := s.home + [Home(b, e)], prod := PWrite(v))
    case PWrite(v) =>
      var block := BlockAt(s.blocks, s.tailBlock);
      s.(blocks := s.blocks[s.tailBlock := block.(cells := block.cells[s.tail % BLOCK_SIZE := v])], prod := PPublish(v))
    case PPublish(v) => s.(tail := s.tail + 1, enq := s.enq + [v], prod := PIdle)
  }

  function Min(a: nat, b: nat): nat { if a < b then a else b }

  /** The end of the piece of [lo, hi) that lies in the block of `lo`. */
  function End(lo: nat, hi: nat): nat { Min(hi, (lo / BLOCK_SIZE + 1) * BLOCK_SIZE) }

  function NextPiece(s: State, x: nat, hi: nat, h: nat, at: nat): CPC {
    if x == hi || h >= |s.headers| then CIdle else CBlock(x, hi, h, Wrap(at + 1, s.headers[h]))
  }

  function Range(lo: nat, hi: nat): (r: set<nat>)
    ensures forall i: nat :: i in r <==> lo <= i < hi
    decreases hi - lo
  {
    if lo < hi then {lo} + Range(lo + 1, hi) else {}
  }

  lemma SubsetSize(a: set<nat>, b: set<nat>)
    requires a <= b
    ensures |a| <= |b|
  {
    assert b == a + (b - a);
  }

  lemma {:induction false} RangeSize(lo: nat, hi: nat)
    requires lo <= hi
    ensures |Range(lo, hi)| == hi - lo
    decreases hi - lo
  {
    if lo < hi {
      assert Range(lo, hi) == {lo} + Range(lo + 1, hi);
      RangeSize(lo + 1, hi);
    } else {
      assert Range(lo, hi) == {};
    }
  }

  /** The steps that only touch the four counters. */
  function StepTickets(s: State, pc: CPC): (State, CPC) {
    match pc
    case CTail(max) => (s, COver(max, s.tail))
    case COver(max, tail) => (s, COpt(max, tail, s.over))
    case COpt(max, tail, over) =>
      var want: int := tail - (s.opt - over);
      (s, if want > 0 then CClaim(Min(want, max), over) else CIdle)
    case CClaim(want, over) => (s.(opt := s.opt + want), CCheck(want, over, s.opt))
    case CCheck(want, over, my) =>
      var got: int := s.tail - (my - over);
      (s, if got <= 0 then CFail(want, my) else if got < want then CSpill(want, got, my) else CGrant(want))
    case CSpill(want, got, my) => (s.(over := s.over + if got < want then want - got else 0), CGrant(got))
    case CFail(want, my) => (s.(over := s.over + want), CIdle)
    case CGrant(got) => (s.(head := s.head + got), CIndex(s.head, s.head + got))
    case _ => (s, pc)
  }

  /** The steps that find and empty blocks. */
  function StepBlocks(s: State, pc: CPC): (State, CPC) {
    match pc
    case CIndex(lo, hi) => (s, if s.headers == [] then CFault else CPos(lo, hi, |s.headers| - 1))
    case CPos(lo, hi, h) => (s, if h >= |s.headers| then CFault else CKey(lo, hi, h, s.headers[h].tail))
    case CKey(lo, hi, h, pos) =>
      if h >= |s.headers| then (s, CFault)
      else
        var key := EntryAt(s.entries, Slot(s.headers[h], pos)).key;
        (s, if key.None? then CFault
            else CBlock(lo, hi, h, Wrap(pos + (lo / BLOCK_SIZE - key.value / BLOCK_SIZE), s.headers[h])))
    case CBlock(lo, hi, h, at) =>
      if h >= |s.headers| then (s, CFault)
      else
        var block := EntryAt(s.entries, Slot(s.headers[h], at)).value;
        (s, if block.None? then CFault else CRead(lo, lo, hi, h, at, block.value))
    case CRead(lo, x, hi, h, at, b) =>
      var block := BlockAt(s.blocks, b);
      var i := x % BLOCK_SIZE;
      if i !in block.cells then (s, CFault)
      else
        (s.(blocks := s.blocks[b := block.(cells := block.cells - {i})], taken := s.taken[x := block.cells[i]]),
         if x + 1 == End(lo, hi) then CMark(lo, x + 1, hi, h, at, b) else CRead(lo, x + 1, hi, h, at, b))
    case CMark(lo, x, hi, h, at, b) =>
      var block := BlockAt(s.blocks, b);
      var done := block.done + if lo < x then x - lo else 0;
      (s.(blocks := s.blocks[b := block.(done := done)], marked := s.marked + Range(lo, x)),
       if done == BLOCK_SIZE then CClear(lo / BLOCK_SIZE, x, hi, h, at, b) else NextPiece(s, x, hi, h, at))
    case CClear(r, x, hi, h, at, b) =>
      (s.(entries := if h < |s.headers| then SetValue(s.entries, Slot(s.headers[h], at), None) else s.entries,
          cleared := s.cleared + {r}),
       CReturn(r, x, hi, h, at, b))
    case CReturn(r, x, hi, h, at, b) =>
      (s.(own := s.own - {b}, returned := s.returned + {r}), NextPiece(s, x, hi, h, at))
    case _ => (s, pc)
  }

  predicate OnTickets(pc: CPC) {
    pc.CTail? || pc.COver? || pc.COpt? || pc.CClaim? || pc.CCheck? || pc.CSpill? || pc.CFail? || pc.CGrant?
  }

  function StepConsumer(s: State, c: nat): State
    requires c < |s.cons|
  {
    var (s', pc) := if OnTickets(s.cons[c]) then StepTickets(s, s.cons[c]) else StepBlocks(s, s.cons[c]);
    s'.(cons := s.cons[c := pc])
  }

  predicate Enabled(s: State, e: Event) {
    match e
    case Enqueue(v) => s.prod == PIdle
    case Produce(ch) => s.prod != PIdle && (s.prod.PTake? && ch.ok ==> ch.block !in s.own)
    case Dequeue(c, max) => c < |s.cons| && s.cons[c] == CIdle && max > 0
    case Consume(c) => c < |s.cons| && s.cons[c] != CIdle
    case Others(b, _) => b !in s.own
  }

  function Apply(s: State, e: Event): State
    requires Enabled(s, e)
  {
    match e
    case Enqueue(v) => s.(prod := if s.tail % BLOCK_SIZE == 0 then PHead(v) else PWrite(v))
    case Produce(ch) => StepProducer(s, ch)
    case Dequeue(c, max) => s.(cons := s.cons[c := CTail(max)])
    case Consume(c) => StepConsumer(s, c)
    case Others(b, block) => s.(blocks := s.blocks[b := block])
  }

  /** A new producer: its first block index may or may not have been allocated. */
  function Init(consumers: nat, indexed: bool, garbage: Option<BlockId>): State {
    var s := State(0, 0, 0, 0, [], [], map[], 0, PIdle, seq(consumers, _ => CIdle), [], map[], {}, [], {}, {}, {});
    if indexed then WithNewIndex(s, garbage) else s
  }

  ghost predicate Leads(s: State, events: seq<Event>, s': State)
    decreases |events|
  {
    if events == [] then s' == s
    else Enabled(s, events[0]) && Leads(Apply(s, events[0]), events[1..], s')
  }

  ghost predicate Reachable(s: State) {
    exists consumers: nat, indexed: bool, garbage: Option<BlockId>, events: seq<Event> ::
      Leads(Init(consumers, indexed, garbage), events, s)
  }
}
