/** What holds in every reachable state of the implicit producer, and what its steps do to the queue it implements. */
module QueueTheorems {
  import opened Wrappers
  import opened ImplicitQueue
  import T = QueueTickets
  import B = QueueBlocks

  ghost predicate Inv(s: State) { T.Tickets(s) && B.BlockInv(s) }

  // -- The invariant holds throughout ---------------------------------------------------------------------------

  lemma FirstIndex(garbage: Option<BlockId>)
    ensures var g := Grown([], 0); var entries := seq(IMPLICIT_INITIAL_INDEX_SIZE, _ => Entry(None, garbage));
      B.RingWith([g], entries, 0, PIdle, [0])
  {
    var g := Grown([], 0);
    var entries := seq(IMPLICIT_INITIAL_INDEX_SIZE, _ => Entry(None, garbage));
    assert forall p :: B.KeyAt(entries, g, p).None?;
    assert Last([g]) == g;
    assert |g.index| == IMPLICIT_INITIAL_INDEX_SIZE && g.tail == IMPLICIT_INITIAL_INDEX_SIZE - 1;
    assert B.HeaderOK(g, entries, 0, 0);
    assert (-1 - g.tail - 0) % IMPLICIT_INITIAL_INDEX_SIZE == 0;
    assert B.Current(g, entries, -1, 0);
    assert B.NestedIn(g, 0, g, 0);
    assert B.NextFree(g, entries, 0, PIdle);
  }

  lemma {:induction false} IdleCounts(cons: seq<CPC>, f: CPC -> nat)
    requires f(CIdle) == 0 && forall c | 0 <= c < |cons| :: cons[c] == CIdle
    ensures T.Sum(cons, f) == 0
  {
    if cons != [] { IdleCounts(cons[..|cons| - 1], f); }
  }

  lemma InitInv(consumers: nat, indexed: bool, garbage: Option<BlockId>)
    ensures Inv(Init(consumers, indexed, garbage))
  {
    var s := Init(consumers, indexed, garbage);
    assert s.cons == seq(consumers, _ => CIdle);
    IdleCounts(s.cons, T.Inflight);
    IdleCounts(s.cons, T.Pending);
    assert T.TicketsWith(s.tail, s.head, s.opt, s.over, s.cons, {}, {});
    InitBlocks(s, garbage);
  }

  lemma InitBlocks(s: State, garbage: Option<BlockId>)
    requires exists consumers: nat, indexed: bool :: s == Init(consumers, indexed, garbage)
    ensures B.BlockInv(s)
  {
    assert s.home == [] && s.enq == [] && s.taken == map[] && s.marked == s.returned == s.cleared == s.own == {};
    assert s.tail == s.head == 0 && s.prod == PIdle && forall c | 0 <= c < |s.cons| :: s.cons[c] == CIdle;
    assert s.headers == [] ==> s.entries == [];
    assert s.headers != []
           ==> s.headers == [Grown([], 0)]
               && s.entries == seq(IMPLICIT_INITIAL_INDEX_SIZE, _ => Entry(None, garbage));
    hide B.RingWith, B.HeaderOK, B.Current, B.NestedIn, B.NextFree, Init, Grown, B.HasRing, B.BlockInv;
    InitRing(s, garbage);
    EmptyBlocks(s);
  }

  lemma InitRing(s: State, garbage: Option<BlockId>)
    requires s.headers == [] ==> s.entries == []
    requires s.headers != []
             ==> s.headers == [Grown([], 0)]
                 && s.entries == seq(IMPLICIT_INITIAL_INDEX_SIZE, _ => Entry(None, garbage))
    ensures B.HasRing(s.headers, s.entries, 0, PIdle)
  {
    if s.headers == [] {
      assert B.RingWith(s.headers, s.entries, 0, PIdle, []);
    } else {
      FirstIndex(garbage);
    }
  }

  lemma EmptyBlocks(s: State)
    requires s.home == [] && s.enq == [] && s.taken == map[] && s.marked == s.returned == s.cleared == s.own == {}
    requires s.tail == s.head == 0 && s.prod == PIdle && forall c | 0 <= c < |s.cons| :: s.cons[c] == CIdle
    requires B.HasRing(s.headers, s.entries, 0, PIdle)
    ensures B.BlockInv(s)
  {
    hide B.HasRing, B.Claims, B.Life, B.Indices;
    NoClaims(s.cons);
    NoLife(s.cons);
  }

  lemma NoClaims(cons: seq<CPC>)
    requires forall c | 0 <= c < |cons| :: cons[c] == CIdle
    ensures B.Claims(0, {}, map[], [], cons)
  {
  }

  lemma NoLife(cons: seq<CPC>)
    requires forall c | 0 <= c < |cons| :: cons[c] == CIdle
    ensures B.Life(0, {}, {}, {}, cons)
  {
    hide B.Indices;
  }

  lemma TicketsStep(s: State, e: Event)
    requires T.Tickets(s) && Enabled(s, e)
    ensures T.Tickets(Apply(s, e))
  {
    hide T.Tickets, StepTickets, StepBlocks;
    match e {
      case Enqueue(v) => T.EnqueuerKeepsTickets(s, Apply(s, e));
      case Produce(ch) =>
        ProducerCounters(s, ch);
        T.EnqueuerKeepsTickets(s, Apply(s, e));
      case Dequeue(c, max) => T.QuietStep(s, Apply(s, e), c, CTail(max));
      case Consume(c) => T.ConsumeKeepsTickets(s, c);
      case Others(_, _) => T.EnqueuerKeepsTickets(s, Apply(s, e));
    }
  }

  lemma ProducerCounters(s: State, ch: Choice)
    ensures var s' := StepProducer(s, ch);
      s.tail <= s'.tail && s'.head == s.head && s'.opt == s.opt && s'.over == s.over && s'.cons == s.cons
  {
  }

  lemma BlocksStep(s: State, e: Event)
    requires Inv(s) && Enabled(s, e)
    ensures B.BlockInv(Apply(s, e))
  {
    match e {
      case Enqueue(v) => B.EnqueueStep(s, v);
      case Produce(ch) => B.ProduceKeepsBlocks(s, ch);
      case Dequeue(c, max) =>
        hide B.Claims, B.Life, B.Blocks, B.HasRing, B.Live, B.Producer, B.Places;
        B.ClaimsSame(s.head, s.marked, s.taken, s.enq, s.cons, c, CTail(max));
        B.LifeSame(|s.home|, |s.home|, s.marked, s.cleared, s.returned, s.cons, c, CTail(max));
        B.PlacesUpdate(s.cons, s.headers, s.entries, s.home, c, CTail(max));
      case Consume(c) =>
        TicketsStep(s, e);
        T.HeadWithinTail(Apply(s, e));
        B.ConsumeKeepsBlocks(s, c);
      case Others(b, block) =>
        hide B.Claims, B.Life, B.HasRing, B.Live, B.Producer, B.Places;
        B.BlocksElsewhere(s.blocks, s.home, s.returned, s.own, s.marked, s.taken, s.enq, s.prod, s.tailBlock, b, block);
    }
  }

  lemma StepKeepsInv(s: State, e: Event)
    requires Inv(s) && Enabled(s, e)
    ensures Inv(Apply(s, e))
  {
    BlocksStep(s, e);
    TicketsStep(s, e);
  }

  lemma {:induction false} RunKeepsInv(s: State, events: seq<Event>, s': State)
    requires Inv(s) && Leads(s, events, s')
    ensures Inv(s')
    decreases |events|
  {
    if events != [] {
      StepKeepsInv(s, events[0]);
      RunKeepsInv(Apply(s, events[0]), events[1..], s');
    }
  }

  lemma ReachableInv(s: State)
    requires Reachable(s)
    ensures Inv(s)
  {
    var consumers: nat, indexed: bool, garbage: Option<BlockId>, events: seq<Event> :|
      Leads(Init(consumers, indexed, garbage), events, s);
    InitInv(consumers, indexed, garbage);
    RunKeepsInv(Init(consumers, indexed, garbage), events, s);
  }

  // -- The counters -----------------------------------------------------------------------------------------------

  /** However stale the overcommit counts dequeuers read, they never claim past the tail, and the optimistic count is
      the head plus the overcommit plus the claims in flight. */
  lemma NeverOvertakes(s: State)
    requires Reachable(s)
    ensures s.head <= s.tail && s.over <= s.opt
    ensures s.opt == s.head + s.over + T.Sum(s.cons, T.Inflight)
  {
    ReachableInv(s);
    T.HeadWithinTail(s);
  }

  // -- First in, first out ------------------------------------------------------------------------------------------

  /** The queue that the producer implements: what is enqueued and not yet granted to a dequeuer. */
  ghost function Pending(s: State): seq<Value>
    requires s.head <= |s.enq|
  {
    s.enq[s.head..]
  }

  lemma ReachableBounds(s: State)
    requires Reachable(s)
    ensures s.head <= s.tail == |s.enq|
  {
    ReachableInv(s);
    NeverOvertakes(s);
    hide B.Claims, B.Life, B.Blocks, B.HasRing, B.Live, B.Producer, B.Places;
  }

  lemma {:induction false} LeadsOn(s: State, events: seq<Event>, s': State, e: Event)
    requires Leads(s, events, s') && Enabled(s', e)
    ensures Leads(s, events + [e], Apply(s', e))
    decreases |events|
  {
    hide Enabled, Apply;
    if events == [] {
      assert events + [e] == [e] && [e][1..] == [];
      assert Leads(Apply(s', e), [], Apply(s', e));
    } else {
      LeadsOn(Apply(s, events[0]), events[1..], s', e);
      assert (events + [e])[1..] == events[1..] + [e];
    }
  }

  lemma ReachableNext(s: State, e: Event)
    requires Reachable(s) && Enabled(s, e)
    ensures Reachable(Apply(s, e))
  {
    hide Enabled, Apply, Leads, Init;
    var consumers: nat, indexed: bool, garbage: Option<BlockId>, events: seq<Event> :|
      Leads(Init(consumers, indexed, garbage), events, s);
    LeadsOn(Init(consumers, indexed, garbage), events, s, e);
  }

  /** Publishing the tail appends one element; granting removes a non-empty prefix, which becomes the claim of the
      dequeuer; no other access changes the queue. */
  lemma RefinesFifo(s: State, e: Event)
    requires Reachable(s) && Enabled(s, e)
    ensures s.head <= |s.enq| && Apply(s, e).head <= |Apply(s, e).enq|
    ensures var s' := Apply(s, e);
      if e.Produce? && s.prod.PPublish? then Pending(s') == Pending(s) + [s.prod.v]
      else if e.Consume? && s.cons[e.c].CGrant? then
        var got := s.cons[e.c].got;
        0 < got <= |Pending(s)| && Pending(s') == Pending(s)[got..] && s'.cons[e.c] == CIndex(s.head, s.head + got)
      else Pending(s') == Pending(s)
  {
    ReachableBounds(s);
    ReachableNext(s, e);
    ReachableBounds(Apply(s, e));
    QueueFrame(s, e);
    if e.Consume? && s.cons[e.c].CGrant? { GrantFits(s, e.c); }
    hide Reachable, Apply;
  }

  lemma GrantFits(s: State, c: nat)
    requires Reachable(s) && c < |s.cons| && s.cons[c].CGrant?
    ensures 0 < s.cons[c].got && s.head + s.cons[c].got <= s.tail
  {
    ReachableInv(s);
    hide B.Claims, B.Life, B.Blocks, B.HasRing, B.Live, B.Producer, T.Tickets;
    T.HeadWithinTail(s);
    assert B.Place(s.cons[c], s.headers, s.entries, s.home);
  }

  lemma QueueFrame(s: State, e: Event)
    requires Enabled(s, e)
    ensures var s' := Apply(s, e);
      && (if e.Produce? && s.prod.PPublish? then s'.enq == s.enq + [s.prod.v] else s'.enq == s.enq)
      && (if e.Consume? && s.cons[e.c].CGrant? then
            s'.head == s.head + s.cons[e.c].got && s'.cons[e.c] == CIndex(s.head, s.head + s.cons[e.c].got)
          else s'.head == s.head)
  {
  }

  lemma BlockFrame(s: State, e: Event)
    requires Enabled(s, e)
    ensures var s' := Apply(s, e);
      && (!(e.Consume? && s.cons[e.c].CRead?) ==> s'.taken == s.taken)
      && (if e.Consume? && s.cons[e.c].CReturn? then
            s'.returned == s.returned + {s.cons[e.c].r} && s'.own == s.own - {s.cons[e.c].block}
          else s'.returned == s.returned)
  {
    hide NextPiece, EntryAt, SetValue, Wrap, Slot, Range, BlockAt, End, StepProducer;
    if e.Produce? { ProducerMoves(s, e.choice); }
  }

  lemma ProducerMoves(s: State, ch: Choice)
    ensures StepProducer(s, ch).taken == s.taken && StepProducer(s, ch).returned == s.returned
  {
    hide Wrap, Slot, Grown, GrownBy, Last, EntryAt, BlockAt, SetKey, SetValue, SetTail;
  }

  /** What has been taken at index i is the i-th enqueued value; no dequeuer ever meets an invalid key, a null block or
      a destroyed element; and no two dequeuers hold claims to the same index. */
  lemma TakesWhatWasEnqueued(s: State)
    requires Reachable(s)
    ensures forall i | i in s.taken :: i < s.head <= |s.enq| && s.taken[i] == s.enq[i]
    ensures forall c | 0 <= c < |s.cons| :: s.cons[c] != CFault
    ensures forall c, d | 0 <= c < d < |s.cons| :: B.Apart(B.Claim(s.cons[c]), B.Claim(s.cons[d]))
  {
    ReachableInv(s);
    ReachableBounds(s);
    hide B.Life, B.Blocks, B.HasRing, B.Live, B.Producer;
    forall c | 0 <= c < |s.cons| ensures s.cons[c] != CFault {
      assert B.Place(s.cons[c], s.headers, s.entries, s.home);
    }
  }

  lemma ReadTakes(s: State, c: nat)
    requires Inv(s) && c < |s.cons| && s.cons[c].CRead?
    ensures var x := s.cons[c].x; x < |s.enq| && x !in s.taken && StepConsumer(s, c).taken == s.taken[x := s.enq[x]]
  {
    hide B.BlockInv, T.Tickets, StepConsumer;
    B.ReadStep(s, c);
  }

  /** Reading takes one element that nobody has taken, at the index it was enqueued; nothing else takes any. */
  lemma TakesOnce(s: State, e: Event)
    requires Reachable(s) && Enabled(s, e)
    ensures var s' := Apply(s, e);
      if e.Consume? && s.cons[e.c].CRead? then
        var x := s.cons[e.c].x; x < |s.enq| && x !in s.taken && s'.taken == s.taken[x := s.enq[x]]
      else s'.taken == s.taken
  {
    ReachableInv(s);
    BlockFrame(s, e);
    hide Inv, B.BlockInv, Reachable, T.Tickets, StepConsumer;
    if e.Consume? && s.cons[e.c].CRead? { ReadTakes(s, e.c); }
  }

  // -- Blocks -------------------------------------------------------------------------------------------------------

  /** A block goes back to the free list at most once, only after each of its elements was taken, and only while it
      belongs to the producer, whose other blocks are different. */
  lemma ReturnedOnce(s: State, e: Event)
    requires Reachable(s) && Enabled(s, e)
    ensures var s' := Apply(s, e);
      if e.Consume? && s.cons[e.c].CReturn? then
        var r := s.cons[e.c].r;
        && r < |s.home| && r !in s.returned && s'.returned == s.returned + {r}
        && s.cons[e.c].block == s.home[r].block && s.home[r].block in s.own && s'.own == s.own - {s.home[r].block}
        && (forall i: nat | BLOCK_SIZE * r <= i < BLOCK_SIZE * (r + 1) :: i in s.taken)
        && (forall q | 0 <= q < |s.home| && q !in s.returned && q != r :: s.home[q].block != s.home[r].block)
      else s'.returned == s.returned
  {
    BlockFrame(s, e);
    hide Reachable, Apply;
    if e.Consume? && s.cons[e.c].CReturn? { Returns(s, e.c); }
  }

  lemma Returns(s: State, c: nat)
    requires Reachable(s) && c < |s.cons| && s.cons[c].CReturn?
    ensures var r := s.cons[c].r;
      && r < |s.home| && r !in s.returned && s.cons[c].block == s.home[r].block && s.home[r].block in s.own
      && (forall i: nat | BLOCK_SIZE * r <= i < BLOCK_SIZE * (r + 1) :: i in s.taken)
      && (forall q | 0 <= q < |s.home| && q !in s.returned && q != r :: s.home[q].block != s.home[r].block)
  {
    hide B.Blocks, B.HasRing, B.Live, B.Producer, T.Tickets, B.Life, B.Claims, B.Covers, Reachable;
    ReachableInv(s);
    B.PlaceAt(s, c);
    ReturnsEmpty(s, c);
    OnlyBlock(s, s.cons[c].r);
  }

  lemma ReturnsEmpty(s: State, c: nat)
    requires B.Life(|s.home|, s.marked, s.cleared, s.returned, s.cons) && c < |s.cons| && s.cons[c].CReturn?
    requires B.Claims(s.head, s.marked, s.taken, s.enq, s.cons)
    ensures var r := s.cons[c].r;
      && r < |s.home| && r !in s.returned
      && (forall i: nat | BLOCK_SIZE * r <= i < BLOCK_SIZE * (r + 1) :: i in s.taken)
  {
    hide B.ClaimAt, B.Claim;
    var r := s.cons[c].r;
    assert r in s.cleared && B.Indices(r) <= s.marked;
    forall i: nat | BLOCK_SIZE * r <= i < BLOCK_SIZE * (r + 1) ensures i in s.taken { assert i in B.Indices(r); }
  }

  lemma OnlyBlock(s: State, r: nat)
    requires B.Blocks(s.blocks, s.home, s.returned, s.own, s.marked, s.taken, s.enq, s.prod, s.tailBlock)
             && r < |s.home| && r !in s.returned
    ensures s.home[r].block in s.own
    ensures forall q | 0 <= q < |s.home| && q !in s.returned && q != r :: s.home[q].block != s.home[r].block
  {
    hide B.AllStored, B.Tail;
    forall q | 0 <= q < |s.home| && q !in s.returned && q != r ensures s.home[q].block != s.home[r].block {
      assert s.home[if q < r then q else r].block != s.home[if q < r then r else q].block;
    }
  }

  ghost predicate Quiet(s: State) { s.prod == PIdle && forall c | 0 <= c < |s.cons| :: s.cons[c] == CIdle }

  /** When no call is under way, nothing is lost: exactly the indices below the head have been taken, every full block
      of them is back in the free list, and the producer owns just the blocks it still needs. */
  lemma QuiescentConserves(s: State)
    requires Reachable(s) && Quiet(s)
    ensures s.opt == s.head + s.over
    ensures forall i: nat :: i in s.taken <==> i < s.head
    ensures forall r: nat :: r in s.returned <==> BLOCK_SIZE * (r + 1) <= s.head
    ensures forall b :: b in s.own <==> exists r ::
            0 <= r < |s.home| && BLOCK_SIZE * (r + 1) > s.head && s.home[r].block == b
  {
    ReachableInv(s);
    NeverOvertakes(s);
    IdleCounts(s.cons, T.Inflight);
    QuietTaken(s);
    QuietBlocks(s);
    QuietOwn(s);
  }

  lemma QuietTaken(s: State)
    requires B.Claims(s.head, s.marked, s.taken, s.enq, s.cons) && Quiet(s)
    ensures forall i: nat :: i in s.taken <==> i < s.head
    ensures forall i: nat :: i in s.marked <==> i < s.head
  {
    forall i: nat | i < s.head ensures i in s.marked {
      if i !in s.marked {
        assert false;
      }
    }
  }

  lemma QuietBlocks(s: State)
    requires B.Life(|s.home|, s.marked, s.cleared, s.returned, s.cons) && Quiet(s) && s.head <= BLOCK_SIZE * |s.home|
    requires forall i: nat :: i in s.marked <==> i < s.head
    ensures forall r: nat :: r in s.returned <==> BLOCK_SIZE * (r + 1) <= s.head
  {
    forall r: nat ensures B.Indices(r) <= s.marked <==> BLOCK_SIZE * (r + 1) <= s.head {
      assert BLOCK_SIZE * r + (BLOCK_SIZE - 1) in B.Indices(r);
    }
    hide B.Indices;
    forall r: nat | BLOCK_SIZE * (r + 1) <= s.head ensures r in s.returned {
      if r !in s.cleared {
        assert false;
      } else if r !in s.returned {
        assert false;
      }
    }
  }

  lemma QuietOwn(s: State)
    requires B.Owned(s.home, s.returned, s.own, s.prod) && Quiet(s)
    requires forall r: nat :: r in s.returned <==> BLOCK_SIZE * (r + 1) <= s.head
    ensures forall b :: b in s.own <==> exists r ::
            0 <= r < |s.home| && BLOCK_SIZE * (r + 1) > s.head && s.home[r].block == b
  {
    forall b | b in s.own ensures exists r ::
      0 <= r < |s.home| && BLOCK_SIZE * (r + 1) > s.head && s.home[r].block == b {
      var r :| 0 <= r < |s.home| && r !in s.returned && s.home[r].block == b;
      assert BLOCK_SIZE * (r + 1) > s.head;
    }
  }
}
