/** Any number of implicit producers that share one free list of blocks: every access of ImplicitQueue and of FreeList
    is a step, requisition_block takes blocks from the free list or new ones, and add_block_to_free_list gives them to
    it. */
module QueueSystem {
  import opened Wrappers
  import F = FreeList
  import Q = ImplicitQueue
  import T = QueueTheorems
  import B = QueueBlocks

  type BlockId = Q.BlockId

  /** Each producer has one enqueuer, and `width` dequeuers that may be at work on it. */
  datatype State = State(f: F.State, prods: seq<Q.State>, width: nat)

  datatype Event =
    | Enqueue(p: nat, v: Q.Value) | Dequeue(p: nat, c: nat, max: nat)
    | Produce(p: nat, choice: Q.Choice) | Consume(p: nat, c: nat)     // an access outside the free list
    | Get(p: nat)                                                     // requisition_block turns to the free list
    | Fresh(p: nat, b: BlockId)                                       // it takes a block from the pool or allocates
    | Fail(p: nat)                                                    // it gives up
    | Return(p: nat, c: nat)                                          // add_block_to_free_list is called
    | Run(p: nat, role: nat)                                          // an access of the free list

  // -- Threads --------------------------------------------------------------------------------------------------

  /** The enqueuer of a producer has role 0, its c-th dequeuer role c + 1. */
  function Thread(p: nat, role: nat, width: nat): F.Thread { p * (width + 1) + role }

  function Threads(n: nat, width: nat): set<F.Thread> { Q.Range(0, n * (width + 1)) }

  lemma ThreadIn(p: nat, role: nat, n: nat, width: nat)
    requires p < n && role <= width
    ensures Thread(p, role, width) in Threads(n, width)
  {
    assert n * (width + 1) == p * (width + 1) + (n - p) * (width + 1);
    assert (n - p - 1) * (width + 1) >= 0;
    assert (n - p) * (width + 1) == (n - p - 1) * (width + 1) + (width + 1);
  }

  lemma ThreadsDiffer(p: nat, r: nat, q: nat, u: nat, width: nat)
    requires r <= width && u <= width && (p != q || r != u)
    ensures Thread(p, r, width) != Thread(q, u, width)
  {
    if p < q { ThreadsOrdered(p, r, q, u, width); }
    if q < p { ThreadsOrdered(q, u, p, r, width); }
  }

  lemma ThreadsOrdered(p: nat, r: nat, q: nat, u: nat, width: nat)
    requires r <= width && p < q
    ensures Thread(p, r, width) < Thread(q, u, width)
  {
    assert q * (width + 1) == (p + 1) * (width + 1) + (q - p - 1) * (width + 1);
    assert (q - p - 1) * (width + 1) >= 0;
  }

  /** Within try_get, and within add. */
  predicate Getting(pc: F.PC) {
    match pc
    case Idle => false
    case AddFlag(_) => false
    case LinkLoad(_, k) => k.Resume?
    case LinkNext(_, _, k) => k.Resume?
    case LinkRefs(_, _, k) => k.Resume?
    case LinkSwap(_, _, k) => k.Resume?
    case LinkUndo(_, _, k) => k.Resume?
    case _ => true
  }

  predicate Adding(pc: F.PC) { pc != F.Idle && !Getting(pc) }

  /** An access within try_get stays there until it returns, and so does one within add. */
  lemma StaysIn(pc: F.PC, refs: nat, next: Option<F.Node>, head: Option<F.Node>)
    requires pc != F.Idle && pc != F.GetLoad
    ensures var e := F.Access(pc, refs, next, head);
      && (e.pc == F.Idle || (Getting(e.pc) <==> Getting(pc))) && e.returned == pc.GetTake?
  {
  }

  lemma StepKind(f: F.State, t: F.Thread)
    requires F.WellFormed(f) && t in f.pcs && f.pcs[t] != F.Idle
    ensures var f' := F.Step(f, t);
      && f'.pcs.Keys == f.pcs.Keys && (forall u | u in f.pcs && u != t :: f'.pcs[u] == f.pcs[u])
      && (f'.pcs[t] == F.Idle || (Getting(f'.pcs[t]) <==> Getting(f.pcs[t])))
      && f'.out == if f.pcs[t].GetTake? then f.out + {f.pcs[t].node} else f.out
  {
    hide F.WellFormed, F.Access, Getting;
    if f.pcs[t] == F.GetLoad {
      LoopGets(f.head);
    } else {
      KnowsNames(f, t);
      StaysIn(f.pcs[t], f.refs[f.pcs[t].node], f.next[f.pcs[t].node], f.head);
    }
  }

  lemma LoopGets(head: Option<F.Node>)
    ensures F.Loop(head) == F.Idle || Getting(F.Loop(head))
    ensures Getting(F.GetLoad)
  {
  }

  lemma KnowsNames(f: F.State, t: F.Thread)
    requires F.WellFormed(f) && t in f.pcs
    ensures F.Names(f.pcs[t], f.refs.Keys) && f.next.Keys == f.refs.Keys && f.out <= f.refs.Keys
  {
  }

  // -- Steps ----------------------------------------------------------------------------------------------------

  predicate Ready(s: State, p: nat, role: nat) {
    var t := Thread(p, role, s.width);
    t in s.f.pcs && s.f.pcs[t] == F.Idle
  }

  /** No guard asks that a block is in use, or not in use: that is what is proved. */
  ghost predicate Enabled(s: State, e: Event) {
    F.WellFormed(s.f) &&
    match e
    case Enqueue(p, v) => p < |s.prods| && s.prods[p].prod == Q.PIdle
    case Dequeue(p, c, max) => p < |s.prods| && c < |s.prods[p].cons| && s.prods[p].cons[c] == Q.CIdle && max > 0
      && Ready(s, p, c + 1)
    case Produce(p, ch) => p < |s.prods| && s.prods[p].prod != Q.PIdle && !s.prods[p].prod.PTake?
    case Consume(p, c) =>
      && p < |s.prods| && c < |s.prods[p].cons| && s.prods[p].cons[c] != Q.CIdle && !s.prods[p].cons[c].CReturn?
      && Ready(s, p, c + 1)
    case Get(p) => p < |s.prods| && s.prods[p].prod.PTake? && Ready(s, p, 0)
    case Fresh(p, b) => p < |s.prods| && s.prods[p].prod.PTake? && Ready(s, p, 0) && b !in s.f.refs
    case Fail(p) => p < |s.prods| && s.prods[p].prod.PTake? && Ready(s, p, 0)
    case Return(p, c) => p < |s.prods| && c < |s.prods[p].cons| && s.prods[p].cons[c].CReturn? && Ready(s, p, c + 1)
    case Run(p, role) =>
      p < |s.prods| && role <= s.width && var t := Thread(p, role, s.width); t in s.f.pcs && s.f.pcs[t] != F.Idle
  }

  /** What one producer writes to blocks all others see. */
  function Put(prods: seq<Q.State>, p: nat, q: Q.State): (r: seq<Q.State>)
    ensures |r| == |prods| && forall i: nat | i < |prods| :: r[i] == if i == p then q else prods[i].(blocks := q.blocks)
  {
    seq(|prods|, (i: nat) requires i < |prods| => if i == p then q else prods[i].(blocks := q.blocks))
  }

  function Taken(b: BlockId): Q.Choice { Q.Choice(true, b, None) }

  /** The event of the producer that goes with an event of the system. */
  function Local(e: Event): Q.Event
    requires !e.Get? && !e.Run?
  {
    match e
    case Enqueue(_, v) => Q.Enqueue(v)
    case Dequeue(_, c, max) => Q.Dequeue(c, max)
    case Produce(_, ch) => Q.Produce(ch)
    case Consume(_, c) => Q.Consume(c)
    case Fresh(_, b) => Q.Produce(Taken(b))
    case Fail(_) => Q.Produce(Q.Choice(false, 0, None))
    case Return(_, c) => Q.Consume(c)
  }

  /** The producer's side of a step, whether its guard holds or not. */
  function Move(q: Q.State, e: Q.Event): Q.State {
    match e
    case Produce(ch) => Q.StepProducer(q, ch)
    case Consume(c) => if c < |q.cons| then Q.StepConsumer(q, c) else q
    case _ => if Q.Enabled(q, e) then Q.Apply(q, e) else q
  }

  ghost function Apply(s: State, e: Event): State
    requires Enabled(s, e)
  {
    match e
    case Get(p) => s.(f := s.f.(pcs := s.f.pcs[Thread(p, 0, s.width) := F.GetLoad]))
    case Run(p, role) =>
      var t := Thread(p, role, s.width);
      var f' := F.Step(s.f, t);
      if s.f.pcs[t].GetTake? then
        State(f', Put(s.prods, p, Move(s.prods[p], Q.Produce(Taken(s.f.pcs[t].node)))), s.width)
      else s.(f := f')
    case Fresh(p, b) => State(F.Apply(s.f, F.Create(b)), Put(s.prods, p, Move(s.prods[p], Local(e))), s.width)
    case Return(p, c) =>
      var b := s.prods[p].cons[c].block;
      State(s.f.(pcs := s.f.pcs[Thread(p, c + 1, s.width) := F.AddFlag(b)], out := s.f.out - {b}),
            Put(s.prods, p, Move(s.prods[p], Local(e))), s.width)
    case _ => s.(prods := Put(s.prods, e.p, Move(s.prods[e.p], Local(e))))
  }

  /** New producers, whose first block indices may or may not have been allocated, and no blocks. */
  ghost predicate Starts(s: State) {
    && s.f == F.Init(Threads(|s.prods|, s.width)) && |Threads(|s.prods|, s.width)| + 2 < F.SHOULD_BE_ON_FREELIST
    && forall p | 0 <= p < |s.prods| :: Begins(s.prods[p], s.width)
  }

  ghost predicate Begins(q: Q.State, width: nat) {
    exists indexed: bool, garbage: Option<BlockId> :: q == Q.Init(width, indexed, garbage)
  }

  ghost predicate Leads(s: State, events: seq<Event>, s': State)
    decreases |events|
  {
    if events == [] then s' == s
    else Enabled(s, events[0]) && Leads(Apply(s, events[0]), events[1..], s')
  }

  ghost predicate Reachable(s: State) { exists s0: State, events: seq<Event> :: Starts(s0) && Leads(s0, events, s) }

  // -- One access of a producer -----------------------------------------------------------------------------------

  /** `after` differs from `before` at most in one block of `own`. */
  ghost predicate OneBlock(before: map<BlockId, Q.Block>, after: map<BlockId, Q.Block>, own: set<BlockId>) {
    after == before || exists b :: b in own && b in after && after == before[b := after[b]]
  }

  lemma InstallsOwn(q: Q.State)
    requires T.Inv(q)
    ensures q.prod.PReset? ==> q.prod.block in q.own
    ensures q.prod.PWrite? ==> q.tailBlock in q.own
  {
    hide T.T.Tickets, B.Claims, B.Life, B.HasRing, B.Live, B.Producer, B.Places, B.AllStored;
    if q.prod.PWrite? { assert q.home[|q.home| - 1].block in q.own; }
  }

  lemma ProducerWrites(q: Q.State, ch: Q.Choice)
    requires T.Inv(q)
    ensures OneBlock(q.blocks, Q.StepProducer(q, ch).blocks, q.own)
  {
    hide T.Inv, Q.WithNewIndex, Q.Inserting, Q.SetKey, Q.SetValue, Q.SetTail, Q.Last, Q.Wrap, Q.EntryAt, Q.BlockAt;
    InstallsOwn(q);
    GrowFrame(q, ch.garbage);
    var after := Q.StepProducer(q, ch).blocks;
    if q.prod.PReset? { assert after == q.blocks[q.prod.block := after[q.prod.block]]; }
    if q.prod.PWrite? { assert after == q.blocks[q.tailBlock := after[q.tailBlock]]; }
  }

  lemma WorksOnOwn(q: Q.State, c: nat)
    requires T.Inv(q) && c < |q.cons| && (q.cons[c].CRead? || q.cons[c].CMark?)
    ensures q.cons[c].block in q.own
  {
    hide B.Blocks, B.HasRing, B.Live, B.Producer, T.T.Tickets, B.Claims, B.Life, B.Covers;
    B.PlaceAt(q, c);
    var lo := q.cons[c].lo;
    assert B.ClaimAt(q.cons[c], q.head, q.marked, q.taken) by { ClaimHolds(q, c); }
    B.ClaimedIsLive(q, c, lo);
    T.OnlyBlock(q, lo / Q.BLOCK_SIZE);
  }

  lemma ClaimHolds(q: Q.State, c: nat)
    requires B.Claims(q.head, q.marked, q.taken, q.enq, q.cons) && c < |q.cons|
    ensures B.ClaimAt(q.cons[c], q.head, q.marked, q.taken)
  {
    hide B.ClaimAt;
  }

  lemma DequeuerWrites(q: Q.State, c: nat)
    requires T.Inv(q) && c < |q.cons|
    ensures OneBlock(q.blocks, Q.StepConsumer(q, c).blocks, q.own)
  {
    hide T.Inv;
    if q.cons[c].CRead? || q.cons[c].CMark? {
      WorksOnOwn(q, c);
      WritesAt(q, c);
    } else {
      WritesNone(q, c);
    }
  }

  lemma WritesAt(q: Q.State, c: nat)
    requires c < |q.cons| && (q.cons[c].CRead? || q.cons[c].CMark?)
    ensures var after := Q.StepConsumer(q, c).blocks;
      after == q.blocks || (q.cons[c].block in after && after == q.blocks[q.cons[c].block := after[q.cons[c].block]])
  {
    hide Q.BlockAt, Q.NextPiece, Q.Range, Q.End;
  }

  lemma WritesNone(q: Q.State, c: nat)
    requires c < |q.cons| && !q.cons[c].CRead? && !q.cons[c].CMark?
    ensures Q.StepConsumer(q, c).blocks == q.blocks
  {
    hide Q.NextPiece, Q.EntryAt, Q.SetValue, Q.Wrap, Q.Slot;
  }

  /** An access of a producer writes no block of another one. */
  lemma WritesOwn(q: Q.State, e: Q.Event)
    requires Q.Reachable(q) && Q.Enabled(q, e) && !e.Others?
    ensures OneBlock(q.blocks, Q.Apply(q, e).blocks, q.own)
  {
    hide Q.Reachable, T.Inv, Q.StepProducer, Q.StepConsumer;
    T.ReachableInv(q);
    match e {
      case Enqueue(_) =>
      case Dequeue(_, _) =>
      case Produce(ch) => ProducerWrites(q, ch);
      case Consume(c) => DequeuerWrites(q, c);
    }
  }

  /** The blocks that an access brings to the producer, and those it gives away. */
  function Takes(q: Q.State, e: Q.Event): set<BlockId> {
    if e.Produce? && q.prod.PTake? && e.choice.ok then {e.choice.block} else {}
  }

  function Gives(q: Q.State, e: Q.Event): set<BlockId> {
    if e.Consume? && e.c < |q.cons| && q.cons[e.c].CReturn? then {q.cons[e.c].block} else {}
  }

  lemma ProducerFrame(q: Q.State, ch: Q.Choice)
    ensures var q' := Q.StepProducer(q, ch);
      q'.own == q.own + Takes(q, Q.Produce(ch)) && |q'.cons| == |q.cons|
  {
    hide Q.WithNewIndex, Q.Inserting, Q.SetKey, Q.SetValue, Q.SetTail, Q.Last, Q.Wrap, Q.EntryAt, Q.BlockAt;
    GrowFrame(q, ch.garbage);
  }

  lemma GrowFrame(q: Q.State, garbage: Option<BlockId>)
    ensures var q' := Q.WithNewIndex(q, garbage); q'.own == q.own && q'.cons == q.cons && q'.blocks == q.blocks
  {
  }

  lemma ConsumerFrame(q: Q.State, c: nat)
    requires c < |q.cons|
    ensures var q' := Q.StepConsumer(q, c);
      q'.own == q.own - Gives(q, Q.Consume(c)) && |q'.cons| == |q.cons| && q'.prod == q.prod
  {
    hide Q.NextPiece, Q.EntryAt, Q.SetValue, Q.Wrap, Q.Slot, Q.Range, Q.BlockAt, Q.End;
  }

  lemma OwnFrame(q: Q.State, e: Q.Event)
    requires Q.Enabled(q, e) && !e.Others?
    ensures var q' := Q.Apply(q, e);
      && q'.own == q.own + Takes(q, e) - Gives(q, e) && |q'.cons| == |q.cons|
      && (!e.Produce? && !e.Enqueue? ==> q'.prod == q.prod)
  {
    hide Q.StepProducer, Q.StepConsumer;
    match e {
      case Enqueue(_) =>
      case Dequeue(_, _) =>
      case Produce(ch) => ProducerFrame(q, ch);
      case Consume(c) => ConsumerFrame(q, c);
    }
  }

  // -- What holds throughout --------------------------------------------------------------------------------------

  /** Each producer is in a state it reaches by itself, and all see the same blocks. */
  ghost predicate Share(prods: seq<Q.State>, width: nat) {
    && (forall p: nat | p < |prods| :: Q.Reachable(prods[p]) && |prods[p].cons| == width)
    && (forall p: nat, q: nat | p < |prods| && q < |prods| :: prods[p].blocks == prods[q].blocks)
  }

  /** The blocks in use belong to one producer each. */
  ghost predicate Owners(prods: seq<Q.State>, out: set<BlockId>) {
    && (forall p: nat | p < |prods| :: prods[p].own <= out)
    && (forall p: nat, q: nat | p < q < |prods| :: prods[p].own !! prods[q].own)
    && (forall b | b in out :: exists p: nat :: p < |prods| && b in prods[p].own)
  }

  /** An enqueuer is within try_get only when it needs a block, a dequeuer only within add. */
  ghost predicate Task(pc: F.PC, role: nat, prod: Q.PPC) {
    pc == F.Idle || if role == 0 then Getting(pc) && prod.PTake? else Adding(pc)
  }

  ghost predicate Tasks(pcs: map<F.Thread, F.PC>, prods: seq<Q.State>, width: nat) {
    forall p: nat, role: nat | p < |prods| && role <= width ::
      Thread(p, role, width) in pcs && Task(pcs[Thread(p, role, width)], role, prods[p].prod)
  }

  ghost predicate Inv(s: State) {
    && F.Reachable(Threads(|s.prods|, s.width), s.f) && F.WellFormed(s.f)
    && Share(s.prods, s.width) && Owners(s.prods, s.f.out) && Tasks(s.f.pcs, s.prods, s.width)
  }

  lemma Apart(prods: seq<Q.State>, out: set<BlockId>, p: nat, q: nat)
    requires Owners(prods, out) && p < |prods| && q < |prods| && p != q
    ensures prods[p].own !! prods[q].own
  {
    assert prods[if p < q then p else q].own !! prods[if p < q then q else p].own;
  }

  /** To another producer, the access is one of those it does not mind. */
  lemma Sees(q: Q.State, after: map<BlockId, Q.Block>, own: set<BlockId>)
    requires Q.Reachable(q) && OneBlock(q.blocks, after, own) && own !! q.own
    ensures Q.Reachable(q.(blocks := after))
  {
    hide Q.Reachable;
    if after == q.blocks {
      assert q.(blocks := after) == q;
    } else {
      var b :| b in own && b in after && after == q.blocks[b := after[b]];
      T.ReachableNext(q, Q.Others(b, after[b]));
    }
  }

  lemma ShareStep(prods: seq<Q.State>, out: set<BlockId>, width: nat, p: nat, e: Q.Event)
    requires Share(prods, width) && Owners(prods, out) && p < |prods| && Q.Enabled(prods[p], e) && !e.Others?
    ensures Share(Put(prods, p, Q.Apply(prods[p], e)), width)
  {
    hide Q.Reachable, Q.Enabled, Q.Apply, Owners, OneBlock;
    var q' := Q.Apply(prods[p], e);
    WritesOwn(prods[p], e);
    OwnFrame(prods[p], e);
    T.ReachableNext(prods[p], e);
    forall i: nat | i < |prods| && i != p ensures Q.Reachable(prods[i].(blocks := q'.blocks)) {
      Apart(prods, out, p, i);
      Sees(prods[i], q'.blocks, prods[p].own);
    }
  }

  lemma OwnersStep(prods: seq<Q.State>, out: set<BlockId>, p: nat, q: Q.State, takes: set<BlockId>, gives: set<BlockId>)
    requires Owners(prods, out) && p < |prods|
    requires q.own == prods[p].own + takes - gives && takes !! out && gives <= prods[p].own
    ensures Owners(Put(prods, p, q), out + takes - gives)
  {
    var prods', out' := Put(prods, p, q), out + takes - gives;
    forall i: nat | i < |prods| ensures prods'[i].own <= out' {
      if i != p { Apart(prods, out, p, i); }
    }
    forall i: nat, j: nat | i < j < |prods| ensures prods'[i].own !! prods'[j].own {
      Apart(prods, out, i, j);
    }
    forall b | b in out' ensures exists i: nat :: i < |prods'| && b in prods'[i].own {
      if b in takes {
        assert b in prods'[p].own;
      } else {
        var i: nat :| i < |prods| && b in prods[i].own;
        assert b in prods'[i].own;
      }
    }
  }

  /** What an access does to all producers. */
  lemma ProducersStep(prods: seq<Q.State>, out: set<BlockId>, width: nat, p: nat, e: Q.Event)
    requires Share(prods, width) && Owners(prods, out) && p < |prods| && Q.Enabled(prods[p], e) && !e.Others?
    requires Takes(prods[p], e) !! out && Gives(prods[p], e) <= prods[p].own
    ensures var q := Q.Apply(prods[p], e);
      && Share(Put(prods, p, q), width) && Owners(Put(prods, p, q), out + Takes(prods[p], e) - Gives(prods[p], e))
      && Move(prods[p], e) == q
  {
    hide Owners, Share, Q.Enabled, Q.Apply, Takes, Gives, Put;
    ShareStep(prods, out, width, p, e);
    OwnFrame(prods[p], e);
    OwnersStep(prods, out, p, Q.Apply(prods[p], e), Takes(prods[p], e), Gives(prods[p], e));
    Moves(prods[p], e);
  }

  lemma Moves(q: Q.State, e: Q.Event)
    requires Q.Enabled(q, e) && !e.Others?
    ensures Move(q, e) == Q.Apply(q, e)
  {
    hide Q.StepProducer, Q.StepConsumer;
  }

  lemma TasksPut(pcs: map<F.Thread, F.PC>, prods: seq<Q.State>, width: nat, p: nat, q: Q.State)
    requires Tasks(pcs, prods, width) && p < |prods|
    requires prods[p].prod.PTake? ==> q.prod.PTake? || pcs[Thread(p, 0, width)] == F.Idle
    ensures Tasks(pcs, Put(prods, p, q), width)
  {
    hide Thread, Getting, Adding;
  }

  lemma TasksSet(pcs: map<F.Thread, F.PC>, pcs': map<F.Thread, F.PC>, prods: seq<Q.State>, width: nat, p: nat,
                 role: nat)
    requires Tasks(pcs, prods, width) && p < |prods| && role <= width && pcs'.Keys == pcs.Keys
    requires forall t | t in pcs && t != Thread(p, role, width) :: pcs'[t] == pcs[t]
    requires var t := Thread(p, role, width); t in pcs' && Task(pcs'[t], role, prods[p].prod)
    ensures Tasks(pcs', prods, width)
  {
    hide Thread, Task;
    forall i: nat, r: nat | i < |prods| && r <= width
      ensures Thread(i, r, width) in pcs' && Task(pcs'[Thread(i, r, width)], r, prods[i].prod)
    {
      assert Thread(i, r, width) in pcs && Task(pcs[Thread(i, r, width)], r, prods[i].prod);
      if i != p || r != role { ThreadsDiffer(i, r, p, role, width); }
    }
  }

  /** An access that is no business of the free list. */
  lemma LocalKeeps(s: State, p: nat, e: Q.Event)
    requires Inv(s) && p < |s.prods| && Q.Enabled(s.prods[p], e) && !e.Others?
    requires Takes(s.prods[p], e) == Gives(s.prods[p], e) == {}
    requires s.prods[p].prod.PTake? ==> s.f.pcs[Thread(p, 0, s.width)] == F.Idle || (!e.Produce? && !e.Enqueue?)
    ensures Inv(s.(prods := Put(s.prods, p, Move(s.prods[p], e))))
  {
    hide F.Reachable, F.WellFormed, Share, Owners, Tasks, Q.Enabled, Q.Apply, Takes, Gives, Thread, Put, Move;
    ProducersStep(s.prods, s.f.out, s.width, p, e);
    OwnFrame(s.prods[p], e);
    TasksPut(s.f.pcs, s.prods, s.width, p, Q.Apply(s.prods[p], e));
    assert s.f.out + {} - {} == s.f.out;
  }

  lemma TaskAt(s: State, p: nat, role: nat)
    requires Tasks(s.f.pcs, s.prods, s.width) && p < |s.prods| && role <= s.width
    ensures Thread(p, role, s.width) in s.f.pcs && Task(s.f.pcs[Thread(p, role, s.width)], role, s.prods[p].prod)
  {
    hide Thread, Task;
  }

  lemma FreeListOn(threads: set<F.Thread>, f: F.State, e: F.Event)
    requires F.Reachable(threads, f) && F.WellFormed(f) && F.Enabled(f, e)
    ensures F.Reachable(threads, F.Apply(f, e)) && F.WellFormed(F.Apply(f, e))
  {
    hide F.Reachable, F.WellFormed, F.Enabled, F.Apply;
    F.ReachableNext(threads, f, e);
    ReachesWellFormed(threads, F.Apply(f, e));
  }

  lemma ReachesWellFormed(threads: set<F.Thread>, f: F.State)
    requires F.Reachable(threads, f)
    ensures F.WellFormed(f)
  {
    hide F.Reachable, F.WellFormed;
    F.ReachableInv(threads, f);
  }

  lemma GetKeeps(s: State, p: nat)
    requires Inv(s) && p < |s.prods| && s.prods[p].prod.PTake? && Ready(s, p, 0)
    ensures Inv(s.(f := s.f.(pcs := s.f.pcs[Thread(p, 0, s.width) := F.GetLoad])))
  {
    hide F.Reachable, F.WellFormed, Share, Owners, Tasks, Thread;
    var t := Thread(p, 0, s.width);
    FreeListOn(Threads(|s.prods|, s.width), s.f, F.BeginGet(t));
    TasksSet(s.f.pcs, s.f.pcs[t := F.GetLoad], s.prods, s.width, p, 0);
  }

  lemma FreshKeeps(s: State, p: nat, b: BlockId)
    requires Inv(s) && p < |s.prods| && s.prods[p].prod.PTake? && Ready(s, p, 0) && b !in s.f.refs
    ensures Inv(State(F.Apply(s.f, F.Create(b)), Put(s.prods, p, Move(s.prods[p], Q.Produce(Taken(b)))), s.width))
  {
    hide F.Reachable, F.WellFormed, Share, Owners, Tasks, Thread, Put, Move, Q.Apply;
    var e := Q.Produce(Taken(b));
    FreeListOn(Threads(|s.prods|, s.width), s.f, F.Create(b));
    InUse(s);
    ProducersStep(s.prods, s.f.out, s.width, p, e);
    TasksPut(s.f.pcs, s.prods, s.width, p, Q.Apply(s.prods[p], e));
    assert s.f.out + {b} - {} == s.f.out + {b};
  }

  lemma InUse(s: State)
    requires Inv(s)
    ensures s.f.out <= s.f.refs.Keys && forall p: nat | p < |s.prods| :: s.prods[p].own <= s.f.out
  {
    hide F.Reachable, Share, Tasks;
  }

  lemma ReturnKeeps(s: State, p: nat, c: nat)
    requires Inv(s) && p < |s.prods| && c < |s.prods[p].cons| && s.prods[p].cons[c].CReturn? && Ready(s, p, c + 1)
    ensures var b := s.prods[p].cons[c].block;
      Inv(State(s.f.(pcs := s.f.pcs[Thread(p, c + 1, s.width) := F.AddFlag(b)], out := s.f.out - {b}),
                Put(s.prods, p, Move(s.prods[p], Q.Consume(c))), s.width))
  {
    hide F.Reachable, F.WellFormed, Share, Owners, Tasks, Thread, Put, Move, Q.Apply, Adding, Getting;
    var e, t, b := Q.Consume(c), Thread(p, c + 1, s.width), s.prods[p].cons[c].block;
    ReturnsOwn(s, p, c);
    FreeListOn(Threads(|s.prods|, s.width), s.f, F.BeginAdd(t, b));
    ProducersStep(s.prods, s.f.out, s.width, p, e);
    OwnFrame(s.prods[p], e);
    TasksPut(s.f.pcs, s.prods, s.width, p, Q.Apply(s.prods[p], e));
    FlagAdds(b);
    TasksSet(s.f.pcs, s.f.pcs[t := F.AddFlag(b)], Put(s.prods, p, Q.Apply(s.prods[p], e)), s.width, p, c + 1);
    assert s.f.out + {} - {b} == s.f.out - {b};
  }

  lemma FlagAdds(b: BlockId)
    ensures Adding(F.AddFlag(b))
  {
  }

  /** What is given to the free list is in use by the producer that gives it. */
  lemma ReturnsOwn(s: State, p: nat, c: nat)
    requires Inv(s) && p < |s.prods| && c < |s.prods[p].cons| && s.prods[p].cons[c].CReturn?
    ensures s.prods[p].cons[c].block in s.prods[p].own && s.prods[p].own <= s.f.out && c < s.width
  {
    hide F.Reachable, F.WellFormed, Tasks, Q.Reachable;
    T.Returns(s.prods[p], c);
  }

  lemma RunKeeps(s: State, p: nat, role: nat)
    requires Inv(s) && Enabled(s, Run(p, role)) && !s.f.pcs[Thread(p, role, s.width)].GetTake?
    ensures Inv(s.(f := F.Step(s.f, Thread(p, role, s.width))))
  {
    hide F.Reachable, F.WellFormed, Share, Owners, Tasks, Thread, F.Step, Getting;
    var t := Thread(p, role, s.width);
    FreeListOn(Threads(|s.prods|, s.width), s.f, F.Run(t));
    StepKind(s.f, t);
    TaskAt(s, p, role);
    TasksSet(s.f.pcs, F.Step(s.f, t).pcs, s.prods, s.width, p, role);
  }

  /** try_get hands a block to the enqueuer that asked for one, and no producer has it. */
  lemma Hands(s: State, p: nat, role: nat)
    requires Inv(s) && Enabled(s, Run(p, role)) && s.f.pcs[Thread(p, role, s.width)].GetTake?
    ensures role == 0 && s.prods[p].prod.PTake?
    ensures var n := s.f.pcs[Thread(p, role, s.width)].node;
      n !in s.f.out && (forall q: nat | q < |s.prods| :: n !in s.prods[q].own)
  {
    hide F.Reachable, F.WellFormed, Share, Owners, Tasks, Thread;
    var t := Thread(p, role, s.width);
    TaskAt(s, p, role);
    InUse(s);
    F.NoDoubleHandout(Threads(|s.prods|, s.width), s.f, t, t, s.f.pcs[t].node);
  }

  lemma TakeKeeps(s: State, p: nat, role: nat)
    requires Inv(s) && Enabled(s, Run(p, role)) && s.f.pcs[Thread(p, role, s.width)].GetTake?
    ensures Inv(Apply(s, Run(p, role)))
  {
    hide F.Reachable, F.WellFormed, Share, Owners, Tasks, Thread, F.Step, Getting, Put, Move, Q.Apply;
    var t := Thread(p, role, s.width);
    var n := s.f.pcs[t].node;
    var e := Q.Produce(Taken(n));
    Hands(s, p, role);
    FreeListOn(Threads(|s.prods|, s.width), s.f, F.Run(t));
    StepKind(s.f, t);
    TakeEnds(s.f, t);
    ProducersStep(s.prods, s.f.out, s.width, p, e);
    TasksSet(s.f.pcs, F.Step(s.f, t).pcs, s.prods, s.width, p, role);
    TasksPut(F.Step(s.f, t).pcs, s.prods, s.width, p, Q.Apply(s.prods[p], e));
    assert s.f.out + {n} - {} == s.f.out + {n};
  }

  lemma TakeEnds(f: F.State, t: F.Thread)
    requires F.WellFormed(f) && t in f.pcs && f.pcs[t].GetTake?
    ensures t in F.Step(f, t).pcs && F.Step(f, t).pcs[t] == F.Idle
  {
    hide F.WellFormed;
    KnowsNames(f, t);
  }

  lemma StepKeepsInv(s: State, e: Event)
    requires Inv(s) && Enabled(s, e)
    ensures Inv(Apply(s, e))
  {
    hide Inv, Thread, Put, Move, Q.Apply, F.Step, F.WellFormed;
    match e {
      case Enqueue(p, v) => LocalKeeps(s, p, Local(e));
      case Dequeue(p, c, max) => LocalKeeps(s, p, Local(e));
      case Produce(p, ch) => LocalKeeps(s, p, Local(e));
      case Consume(p, c) => LocalKeeps(s, p, Local(e));
      case Get(p) => GetKeeps(s, p);
      case Fresh(p, b) => FreshKeeps(s, p, b);
      case Fail(p) => LocalKeeps(s, p, Local(e));
      case Return(p, c) => ReturnKeeps(s, p, c);
      case Run(p, role) =>
        if s.f.pcs[Thread(p, role, s.width)].GetTake? { TakeKeeps(s, p, role); } else { RunKeeps(s, p, role); }
    }
  }

  lemma {:induction false} RunKeepsInv(s: State, events: seq<Event>, s': State)
    requires Inv(s) && Leads(s, events, s')
    ensures Inv(s')
    decreases |events|
  {
    hide Inv, Enabled, Apply;
    if events != [] {
      StepKeepsInv(s, events[0]);
      RunKeepsInv(Apply(s, events[0]), events[1..], s');
    }
  }

  lemma StartsFree(threads: set<F.Thread>)
    requires |threads| + 2 < F.SHOULD_BE_ON_FREELIST
    ensures F.Reachable(threads, F.Init(threads)) && F.WellFormed(F.Init(threads))
  {
    assert F.Leads(F.Init(threads), [], F.Init(threads));
  }

  lemma BeginsAlone(q: Q.State, width: nat)
    requires Begins(q, width)
    ensures Q.Reachable(q) && |q.cons| == width && q.blocks == map[] && q.own == {} && q.prod == Q.PIdle
  {
    hide Q.WithNewIndex;
    var indexed: bool, garbage: Option<BlockId> :| q == Q.Init(width, indexed, garbage);
    assert Q.Leads(Q.Init(width, indexed, garbage), [], q);
    var q0 := Q.Init(width, false, garbage);
    GrowFrame(q0, garbage);
    assert Q.WithNewIndex(q0, garbage).prod == q0.prod by { GrowProd(q0, garbage); }
  }

  lemma GrowProd(q: Q.State, garbage: Option<BlockId>)
    ensures Q.WithNewIndex(q, garbage).prod == q.prod
  {
  }

  lemma StartsInv(s: State)
    requires Starts(s)
    ensures Inv(s)
  {
    hide F.Reachable, F.WellFormed, Q.Reachable, Begins;
    StartsFree(Threads(|s.prods|, s.width));
    forall p: nat | p < |s.prods|
      ensures Q.Reachable(s.prods[p]) && |s.prods[p].cons| == s.width && s.prods[p].blocks == map[]
              && s.prods[p].own == {}
      ensures s.prods[p].prod == Q.PIdle
    {
      BeginsAlone(s.prods[p], s.width);
    }
    assert Tasks(s.f.pcs, s.prods, s.width) by { StartsIdle(s); }
  }

  lemma StartsIdle(s: State)
    requires s.f == F.Init(Threads(|s.prods|, s.width))
    ensures Tasks(s.f.pcs, s.prods, s.width)
  {
    hide Thread, Threads, Getting, Adding;
    forall p: nat, role: nat | p < |s.prods| && role <= s.width ensures Thread(p, role, s.width) in s.f.pcs {
      ThreadIn(p, role, |s.prods|, s.width);
    }
  }

  lemma ReachableInv(s: State)
    requires Reachable(s)
    ensures Inv(s)
  {
    hide Inv, Starts, Leads;
    var s0: State, events: seq<Event> :| Starts(s0) && Leads(s0, events, s);
    StartsInv(s0);
    RunKeepsInv(s0, events, s);
  }

  // -- What holds of all of them ------------------------------------------------------------------------------------

  /** Whatever the others do, the free list and each producer are in states they reach by themselves, so all that is
      proved of them alone holds here: a producer never has to assume that the others leave its blocks alone. */
  lemma EachAlone(s: State)
    requires Reachable(s)
    ensures F.Reachable(Threads(|s.prods|, s.width), s.f)
    ensures forall p: nat | p < |s.prods| :: Q.Reachable(s.prods[p])
  {
    hide Reachable, F.Reachable, F.WellFormed, Owners, Tasks, Q.Reachable;
    ReachableInv(s);
  }

  /** The access that an event is to the producer it names, if it is one. */
  ghost function Acts(s: State, e: Event): Option<Q.Event>
    requires Enabled(s, e)
  {
    match e
    case Get(_) => None
    case Run(p, role) =>
      var pc := s.f.pcs[Thread(p, role, s.width)];
      if pc.GetTake? then Some(Q.Produce(Taken(pc.node))) else None
    case _ => Some(Local(e))
  }

  lemma ActsWell(s: State, e: Event)
    requires Inv(s) && Enabled(s, e)
    ensures e.p < |s.prods|
    ensures Acts(s, e).Some? ==>
      && Q.Enabled(s.prods[e.p], Acts(s, e).value) && !Acts(s, e).value.Others?
      && Apply(s, e).prods == Put(s.prods, e.p, Q.Apply(s.prods[e.p], Acts(s, e).value))
    ensures Acts(s, e).None? ==> Apply(s, e).prods == s.prods
  {
    hide F.Reachable, F.WellFormed, Share, Owners, Tasks, Thread, F.Step, Put, Q.Apply, Move;
    InUse(s);
    if e.Run? && s.f.pcs[Thread(e.p, e.role, s.width)].GetTake? { Hands(s, e.p, e.role); }
    if Acts(s, e).Some? { Moves(s.prods[e.p], Acts(s, e).value); }
  }

  /** A step of the system is one of the producer that takes it, which meets the guard, and to every other producer it
      changes nothing but blocks it does not own. */
  lemma OthersUndisturbed(s: State, e: Event, p: nat)
    requires Reachable(s) && Enabled(s, e) && p < |s.prods|
    ensures e.p < |s.prods| && |Apply(s, e).prods| == |s.prods|
    ensures var q, q' := s.prods[p], Apply(s, e).prods[p];
      if Acts(s, e).None? then q' == q
      else if p == e.p then Q.Enabled(q, Acts(s, e).value) && q' == Q.Apply(q, Acts(s, e).value)
      else q' == q.(blocks := q'.blocks) && forall b | b in q.own :: Q.BlockAt(q'.blocks, b) == Q.BlockAt(q.blocks, b)
  {
    hide Reachable, Tasks, Thread, Q.Apply, Q.Enabled, Q.Reachable, Apply, Enabled, Acts, Inv;
    ReachableInv(s);
    ActsWell(s, e);
    if Acts(s, e).Some? && p != e.p { Undisturbed(s, e.p, Acts(s, e).value, p); }
  }

  lemma Undisturbed(s: State, p: nat, e: Q.Event, q: nat)
    requires Inv(s) && p < |s.prods| && Q.Enabled(s.prods[p], e) && !e.Others? && q < |s.prods| && q != p
    ensures forall b | b in s.prods[q].own ::
      Q.BlockAt(Q.Apply(s.prods[p], e).blocks, b) == Q.BlockAt(s.prods[q].blocks, b)
  {
    hide F.Reachable, F.WellFormed, Tasks, Q.Reachable, Q.Enabled, Q.Apply, Owners;
    Apart(s.prods, s.f.out, p, q);
    WritesOwn(s.prods[p], e);
    assert s.prods[p].blocks == s.prods[q].blocks;
  }

  /** The block that try_get hands out belonged to no producer; now it belongs to the one that asked. */
  lemma HandsOutFree(s: State, p: nat, role: nat, q: nat)
    requires Reachable(s) && Enabled(s, Run(p, role)) && s.f.pcs[Thread(p, role, s.width)].GetTake? && q < |s.prods|
    ensures p < |s.prods| && role == 0 && s.prods[p].prod.PTake?
    ensures |Apply(s, Run(p, role)).prods| == |s.prods|
    ensures var b := s.f.pcs[Thread(p, role, s.width)].node;
      b !in s.prods[q].own && (b in Apply(s, Run(p, role)).prods[q].own <==> q == p)
  {
    hide Reachable, Thread, Inv, Q.Enabled, Q.Apply;
    ReachableInv(s);
    Hands(s, p, role);
    ActsWell(s, Run(p, role));
    OwnFrame(s.prods[p], Acts(s, Run(p, role)).value);
  }

  /** Each block goes back once, when all its elements have been taken: of all producers only the one that returns it
      had it, add may take it, and then no producer has it. */
  lemma ReturnedOnce(s: State, p: nat, c: nat, q: nat)
    requires Reachable(s) && Enabled(s, Return(p, c)) && q < |s.prods|
    ensures p < |s.prods| && c < |s.prods[p].cons| && s.prods[p].cons[c].CReturn? && F.WellFormed(s.f)
    ensures |Apply(s, Return(p, c)).prods| == |s.prods|
    ensures var b := s.prods[p].cons[c].block;
      && (b in s.prods[q].own <==> q == p) && b !in Apply(s, Return(p, c)).prods[q].own
      && F.Enabled(s.f, F.BeginAdd(Thread(p, c + 1, s.width), b))
    ensures var r := s.prods[p].cons[c].r;
      && r !in s.prods[p].returned && r in Apply(s, Return(p, c)).prods[p].returned
      && forall i: nat | Q.BLOCK_SIZE * r <= i < Q.BLOCK_SIZE * (r + 1) :: i in s.prods[p].taken
  {
    hide Reachable, Thread, Inv, Q.Apply, Q.Enabled, Q.Reachable, F.WellFormed, Owners, Apply;
    ReachableInv(s);
    EachAlone(s);
    ReturnsOwn(s, p, c);
    ActsWell(s, Return(p, c));
    OwnFrame(s.prods[p], Q.Consume(c));
    ReturnsFull(s.prods[p], c);
    if q != p { ApartIn(s, p, q); }
  }

  lemma ReturnsFull(q: Q.State, c: nat)
    requires Q.Reachable(q) && Q.Enabled(q, Q.Consume(c)) && q.cons[c].CReturn?
    ensures var r := q.cons[c].r;
      && r !in q.returned && r in Q.Apply(q, Q.Consume(c)).returned
      && forall i: nat | Q.BLOCK_SIZE * r <= i < Q.BLOCK_SIZE * (r + 1) :: i in q.taken
  {
    hide Q.Reachable, Q.Apply;
    T.ReturnedOnce(q, Q.Consume(c));
  }

  lemma ApartIn(s: State, p: nat, q: nat)
    requires Inv(s) && p < |s.prods| && q < |s.prods| && p != q
    ensures s.prods[p].own !! s.prods[q].own
  {
    hide F.Reachable, F.WellFormed, Tasks, Share, Owners;
    Apart(s.prods, s.f.out, p, q);
  }

  /** Where a block is: with a producer, or somewhere on its way to, on or from the free list. */
  datatype Place = Of(p: nat) | Free(phase: F.Phase)

  ghost predicate At(s: State, b: BlockId, place: Place)
    requires b in s.f.refs
  {
    match place
    case Of(p) => p < |s.prods| && b in s.prods[p].own
    case Free(phase) => phase != F.Out && F.At(s.f, b, phase)
  }

  /** No block is lost and none is in two places. */
  lemma EveryBlockInOnePlace(s: State, b: BlockId)
    requires Reachable(s) && b in s.f.refs
    ensures exists place :: At(s, b, place) && forall other :: At(s, b, other) ==> other == place
  {
    hide Reachable, F.Reachable, F.WellFormed, Tasks, Share;
    ReachableInv(s);
    F.EveryNodeInOnePlace(Threads(|s.prods|, s.width), s.f, b);
    var phase :| F.At(s.f, b, phase) && forall other :: F.At(s.f, b, other) ==> other == phase;
    assert F.At(s.f, b, F.Out) <==> b in s.f.out;
    hide F.At;
    if b in s.f.out {
      var p: nat :| p < |s.prods| && b in s.prods[p].own;
      assert At(s, b, Of(p));
      forall other | At(s, b, other) ensures other == Of(p) {
        if other.Of? && other.p != p { Apart(s.prods, s.f.out, p, other.p); }
      }
    } else {
      assert At(s, b, Free(phase));
    }
  }

  ghost predicate Still(s: State) {
    (forall t | t in s.f.pcs :: s.f.pcs[t] == F.Idle) && forall p: nat | p < |s.prods| :: T.Quiet(s.prods[p])
  }

  /** Some producer has elements in the block, or room for more. */
  ghost predicate Needed(s: State, b: BlockId) {
    exists p: nat, r: nat ::
      p < |s.prods| && r < |s.prods[p].home| && Q.BLOCK_SIZE * (r + 1) > s.prods[p].head
        && s.prods[p].home[r].block == b
  }

  /** When no call is under way, the free list has exactly the blocks that no producer needs, each once. */
  lemma StillConserves(s: State)
    requires Reachable(s) && Still(s)
    ensures exists list: seq<BlockId> ::
      && F.Chain(s.f.head, s.f.next, list) && F.Distinct(list)
      && forall b :: b in list <==> b in s.f.refs && !Needed(s, b)
  {
    hide Reachable, F.Reachable, F.WellFormed, Tasks, Share, F.Chain, F.Distinct, T.Quiet, Q.Reachable;
    ReachableInv(s);
    EachAlone(s);
    F.QuiescentListIsComplete(Threads(|s.prods|, s.width), s.f);
    var list: seq<BlockId> :| F.Chain(s.f.head, s.f.next, list) && F.Distinct(list)
      && (set n | n in list) == s.f.refs.Keys - s.f.out;
    InUse(s);
    hide Inv;
    var listed := set n | n in list;
    assert listed == s.f.refs.Keys - s.f.out;
    forall b ensures b in list <==> b in s.f.refs && !Needed(s, b) {
      NeededIsUsed(s, b);
      assert b in list <==> b in listed;
    }
  }

  lemma NeededIsUsed(s: State, b: BlockId)
    requires Inv(s) && Still(s)
    ensures Needed(s, b) <==> b in s.f.out
  {
    hide F.Reachable, F.WellFormed, Tasks, T.Quiet, Q.Reachable;
    forall p: nat | p < |s.prods|
      ensures forall b :: b in s.prods[p].own <==>
        exists r :: 0 <= r < |s.prods[p].home| && Q.BLOCK_SIZE * (r + 1) > s.prods[p].head
          && s.prods[p].home[r].block == b
    {
      T.QuiescentConserves(s.prods[p]);
    }
    if b in s.f.out {
      var p: nat :| p < |s.prods| && b in s.prods[p].own;
      var r: nat :| r < |s.prods[p].home| && Q.BLOCK_SIZE * (r + 1) > s.prods[p].head && s.prods[p].home[r].block == b;
      assert Needed(s, b);
    }
  }
}
