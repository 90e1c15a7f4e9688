/** The CAS-based free list of blocks (`FreeList` in ConcurrentQueue.h), as a machine whose steps are the
    single atomic accesses of `add`, `try_get` and `add_knowing_refcount_is_zero`.  Any number of threads below
    the counter's range runs it, in any interleaving, over sequentially consistent memory.

    A node's `freeListRefs` is one 32-bit word: the low 31 bits count references and the top bit says that the
    node should be on the list but is not.  The word is modelled as an integer below 2^32 and every access wraps. */
module FreeList {
  import opened Wrappers

  type Thread = nat
  type Node = nat

  const SHOULD_BE_ON_FREELIST: nat := 0x8000_0000
  const WORD: nat := 0x1_0000_0000

  /** What the caller of `add_knowing_refcount_is_zero` does when it returns: `add` returns to the client,
      `try_get` goes round its loop with the head it saw when its CAS failed. */
  datatype Cont = Return | Resume(head: Option<Node>)

  /** The next atomic access of a thread, with the local variables that are live there. */
  datatype PC =
    | Idle
    | AddFlag(node: Node)                                             // fetch_add(SHOULD_BE_ON_FREELIST)
    | LinkLoad(node: Node, cont: Cont)                                // head = freeListHead.load()
    | LinkNext(node: Node, head: Option<Node>, cont: Cont)            // freeListNext.store(head)
    | LinkRefs(node: Node, head: Option<Node>, cont: Cont)            // freeListRefs.store(1)
    | LinkSwap(node: Node, head: Option<Node>, cont: Cont)            // freeListHead CAS head -> node
    | LinkUndo(node: Node, head: Option<Node>, cont: Cont)            // fetch_add(SHOULD_BE_ON_FREELIST - 1)
    | GetLoad                                                         // head = freeListHead.load()
    | GetRefs(node: Node)                                             // refs = head->freeListRefs.load()
    | GetHold(node: Node, refs: nat)                                  // freeListRefs CAS refs -> refs + 1
    | GetNext(node: Node)                                             // next = head->freeListNext.load()
    | GetSwap(node: Node, next: Option<Node>)                         // freeListHead CAS head -> next
    | GetTake(node: Node)                                             // fetch_sub(2), then return the node
    | GetDrop(node: Node, head: Option<Node>)                         // prevHead->freeListRefs.fetch_sub(1)

  /** `out` is the client's side: the nodes that are in use and that somebody may pass to `add`. */
  datatype State = State(
    head: Option<Node>,
    refs: map<Node, nat>,
    next: map<Node, Option<Node>>,
    pcs: map<Thread, PC>,
    out: set<Node>)

  datatype Event = BeginAdd(t: Thread, node: Node) | BeginGet(t: Thread) | Run(t: Thread) | Create(node: Node)

  predicate OptIn(o: Option<Node>, nodes: set<Node>) { o.Some? ==> o.value in nodes }

  predicate ContIn(k: Cont, nodes: set<Node>) { k.Resume? ==> OptIn(k.head, nodes) }

  predicate Names(pc: PC, nodes: set<Node>) {
    match pc
    case Idle => true
    case GetLoad => true
    case AddFlag(n) => n in nodes
    case LinkLoad(n, k) => n in nodes && ContIn(k, nodes)
    case LinkNext(n, h, k) => n in nodes && OptIn(h, nodes) && ContIn(k, nodes)
    case LinkRefs(n, h, k) => n in nodes && OptIn(h, nodes) && ContIn(k, nodes)
    case LinkSwap(n, h, k) => n in nodes && OptIn(h, nodes) && ContIn(k, nodes)
    case LinkUndo(n, h, k) => n in nodes && OptIn(h, nodes) && ContIn(k, nodes)
    case GetRefs(n) => n in nodes
    case GetHold(n, _) => n in nodes
    case GetNext(n) => n in nodes
    case GetSwap(n, m) => n in nodes && OptIn(m, nodes)
    case GetTake(n) => n in nodes
    case GetDrop(n, h) => n in nodes && OptIn(h, nodes)
  }

  /** Every pointer in memory or in a local variable is null or names a node. */
  ghost predicate WellFormed(s: State) {
    && s.next.Keys == s.refs.Keys
    && OptIn(s.head, s.refs.Keys)
    && s.out <= s.refs.Keys
    && (forall n | n in s.next :: OptIn(s.next[n], s.refs.Keys))
    && (forall t | t in s.pcs :: Names(s.pcs[t], s.refs.Keys))
  }

  // The loop test `while (head != nullptr)` of try_get; a null head returns to the client.
  function Loop(head: Option<Node>): PC { if head.Some? then GetRefs(head.value) else Idle }

  function Finish(k: Cont): PC { if k.Return? then Idle else Loop(k.head) }

  // Sums and differences of two words stay below 2 * WORD, so wrapping takes off at most one WORD.
  function Wrap(x: nat): nat { if x < WORD then x else x - WORD }

  // (refs & REFS_MASK) != 0
  predicate Counted(refs: nat) { refs != 0 && refs != SHOULD_BE_ON_FREELIST }

  ghost predicate Enabled(s: State, e: Event)
    requires WellFormed(s)
  {
    match e
    case BeginAdd(t, n) => t in s.pcs && s.pcs[t] == Idle && n in s.out
    case BeginGet(t) => t in s.pcs && s.pcs[t] == Idle
    case Run(t) => t in s.pcs && s.pcs[t] != Idle
    case Create(n) => n !in s.refs
  }

  ghost function Apply(s: State, e: Event): State
    requires WellFormed(s) && Enabled(s, e)
  {
    match e
    case BeginAdd(t, n) => s.(pcs := s.pcs[t := AddFlag(n)], out := s.out - {n})
    case BeginGet(t) => s.(pcs := s.pcs[t := GetLoad])
    case Run(t) => Step(s, t)
    case Create(n) => s.(refs := s.refs[n := 0], next := s.next[n := None], out := s.out + {n})
  }

  /** What one access does to the node it works on, to the head pointer and to its thread; `returned` is set when
      `try_get` hands the node to the client. */
  datatype Effect = Effect(refs: nat, next: Option<Node>, head: Option<Node>, pc: PC, returned: bool)

  function Access(pc: PC, refs: nat, next: Option<Node>, head: Option<Node>): Effect
    requires pc != Idle && pc != GetLoad
  {
    match pc
    case AddFlag(n) =>
      Effect(Wrap(refs + SHOULD_BE_ON_FREELIST), next, head, if refs == 0 then LinkLoad(n, Return) else Idle, false)
    case LinkLoad(n, k) => Effect(refs, next, head, LinkNext(n, head, k), false)
    case LinkNext(n, h, k) => Effect(refs, h, head, LinkRefs(n, h, k), false)
    case LinkRefs(n, h, k) => Effect(1, next, head, LinkSwap(n, h, k), false)
    case LinkSwap(n, h, k) =>
      if head == h then Effect(refs, next, Some(n), Finish(k), false)
      else Effect(refs, next, head, LinkUndo(n, head, k), false)
    case LinkUndo(n, h, k) =>
      Effect(Wrap(refs + SHOULD_BE_ON_FREELIST - 1), next, head,
             if refs == 1 then LinkNext(n, h, k) else Finish(k), false)
    case GetRefs(n) => Effect(refs, next, head, if Counted(refs) then GetHold(n, refs) else GetLoad, false)
    case GetHold(n, seen) =>
      if refs == seen then Effect(Wrap(seen + 1), next, head, GetNext(n), false)
      else Effect(refs, next, head, GetLoad, false)
    case GetNext(n) => Effect(refs, next, head, GetSwap(n, next), false)
    case GetSwap(n, m) =>
      if head == Some(n) then Effect(refs, next, m, GetTake(n), false)
      else Effect(refs, next, head, GetDrop(n, head), false)
    case GetTake(n) => Effect(Wrap(refs + WORD - 2), next, head, Idle, true)
    case GetDrop(n, h) =>
      Effect(Wrap(refs + WORD - 1), next, head,
             if refs == SHOULD_BE_ON_FREELIST + 1 then LinkLoad(n, Resume(h)) else Loop(h), false)
  }

  ghost function EffectOf(s: State, t: Thread): Effect
    requires WellFormed(s) && t in s.pcs && s.pcs[t] != Idle && s.pcs[t] != GetLoad
  {
    var n := s.pcs[t].node;
    assert Names(s.pcs[t], s.refs.Keys);
    Access(s.pcs[t], s.refs[n], s.next[n], s.head)
  }

  /** One atomic access by thread `t`. */
  ghost function Step(s: State, t: Thread): State
    requires WellFormed(s) && t in s.pcs && s.pcs[t] != Idle
  {
    if s.pcs[t] == GetLoad then s.(pcs := s.pcs[t := Loop(s.head)])
    else
      var n, e := s.pcs[t].node, EffectOf(s, t);
      State(e.head, s.refs[n := e.refs], s.next[n := e.next], s.pcs[t := e.pc],
            if e.returned then s.out + {n} else s.out)
  }

  function Init(threads: set<Thread>): State {
    State(None, map[], map[], map t | t in threads :: Idle, {})
  }

  // ---------------------------------------------------------------------------------------------------------
  // The invariant
  // ---------------------------------------------------------------------------------------------------------

  /** `pc` holds a counted reference: it has incremented the node's counter and not yet given it back. */
  predicate Holds(pc: PC, n: Node) {
    match pc
    case GetNext(m) => m == n
    case GetSwap(m, _) => m == n
    case GetDrop(m, _) => m == n
    case _ => false
  }

  function Holders(pcs: map<Thread, PC>, n: Node): set<Thread> { set t | t in pcs && Holds(pcs[t], n) }

  /** Where a node is.  `Owed` is the state the source's comments argue about: an add has set the top bit while
      others still held references, and the last of them must put the node on the list. */
  datatype Phase = Out | Adding(t: Thread) | Owed | Linking(t: Thread) | Publishing(t: Thread) | Listed
    | Taken(t: Thread)

  /** The phase a thread's position imposes on a node, if it imposes one. */
  function Claims(t: Thread, pc: PC, n: Node): Option<Phase> {
    match pc
    case AddFlag(m) => if m == n then Some(Adding(t)) else None
    case LinkLoad(m, _) => if m == n then Some(Linking(t)) else None
    case LinkNext(m, _, _) => if m == n then Some(Linking(t)) else None
    case LinkRefs(m, _, _) => if m == n then Some(Linking(t)) else None
    case LinkSwap(m, _, _) => if m == n then Some(Publishing(t)) else None
    case LinkUndo(m, _, _) => if m == n then Some(Publishing(t)) else None
    case GetTake(m) => if m == n then Some(Taken(t)) else None
    case _ => None
  }

  function ThreadOf(p: Phase): Option<Thread> {
    match p
    case Adding(t) => Some(t)
    case Linking(t) => Some(t)
    case Publishing(t) => Some(t)
    case Taken(t) => Some(t)
    case _ => None
  }

  /** The value of `freeListRefs` for a node in phase `p` with `k` counted references. */
  function Word(p: Phase, k: nat): nat {
    match p
    case Out => k
    case Adding(_) => k
    case Owed => SHOULD_BE_ON_FREELIST + k
    case Linking(_) => SHOULD_BE_ON_FREELIST + k
    case Publishing(_) => 1 + k
    case Listed => 1 + k
    case Taken(_) => 2 + k
  }

  ghost predicate NodeInv(s: State, n: Node, p: Phase)
    requires WellFormed(s) && n in s.refs
  {
    && s.refs[n] == Word(p, |Holders(s.pcs, n)|)
    && (p == Owed ==> Holders(s.pcs, n) != {})
    && (p.Linking? ==> Holders(s.pcs, n) == {})
    && (p == Out <==> n in s.out)
    && (ThreadOf(p).Some? ==>
          && ThreadOf(p).value in s.pcs
          && Claims(ThreadOf(p).value, s.pcs[ThreadOf(p).value], n) == Some(p))
  }

  ghost predicate ThreadInv(s: State, t: Thread, ph: map<Node, Phase>)
    requires WellFormed(s) && t in s.pcs && ph.Keys == s.refs.Keys
  {
    var pc := s.pcs[t];
    && (forall n | n in s.refs && Claims(t, pc, n).Some? :: ph[n] == Claims(t, pc, n).value)
    && (pc.LinkRefs? || pc.LinkSwap? ==> pc.node in s.next && s.next[pc.node] == pc.head)
    && (pc.GetHold? ==> Counted(pc.refs))
    && (pc.GetSwap? ==> pc.node in s.next && s.next[pc.node] == pc.next)
  }

  /** `list` is the chain that starts at freeListHead. */
  ghost predicate Chain(head: Option<Node>, next: map<Node, Option<Node>>, list: seq<Node>) {
    && head == First(list)
    && (forall i | 0 <= i < |list| :: list[i] in next && next[list[i]] == First(list[i + 1..]))
  }

  function First(list: seq<Node>): Option<Node> { if list == [] then None else Some(list[0]) }

  predicate Distinct(list: seq<Node>) { forall i, j | 0 <= i < j < |list| :: list[i] != list[j] }

  ghost predicate InvWith(s: State, ph: map<Node, Phase>, list: seq<Node>) {
    && WellFormed(s)
    && |s.pcs.Keys| + 2 < SHOULD_BE_ON_FREELIST
    && ph.Keys == s.refs.Keys
    && (forall n | n in s.refs :: NodeInv(s, n, ph[n]))
    && (forall t | t in s.pcs :: ThreadInv(s, t, ph))
    && Chain(s.head, s.next, list) && Distinct(list)
    && (forall n | n in s.refs :: ph[n] == Listed <==> n in list)
  }

  ghost predicate Inv(s: State) { exists ph: map<Node, Phase>, list: seq<Node> :: InvWith(s, ph, list) }

  // ---------------------------------------------------------------------------------------------------------
  // Preservation
  // ---------------------------------------------------------------------------------------------------------

  lemma HoldersMove(pcs: map<Thread, PC>, t: Thread, pc: PC, n: Node)
    requires t in pcs
    ensures |Holders(pcs[t := pc], n)| ==
            |Holders(pcs, n)| - (if Holds(pcs[t], n) then 1 else 0) + (if Holds(pc, n) then 1 else 0)
    ensures Holders(pcs[t := pc], n) ==
            if Holds(pc, n) then Holders(pcs, n) + {t} else Holders(pcs, n) - {t}
  {
    var before, after := Holders(pcs, n), Holders(pcs[t := pc], n);
    var others := before - {t};
    assert before == if Holds(pcs[t], n) then others + {t} else others;
    assert after == if Holds(pc, n) then others + {t} else others;
  }

  lemma HoldersBound(pcs: map<Thread, PC>, n: Node)
    ensures |Holders(pcs, n)| <= |pcs.Keys|
  {
    Subset(Holders(pcs, n), pcs.Keys);
  }

  lemma Subset<T>(a: set<T>, b: set<T>)
    requires a <= b
    ensures |a| <= |b|
  {
    assert b == a + (b - a);
  }

  /** How an atomic access of `t` moves the node it works on from phase to phase. */
  function PhaseAfter(t: Thread, pc: PC, refs: nat, head: Option<Node>, p: Phase): Phase {
    match pc
    case AddFlag(n) => if refs == 0 then Linking(t) else Owed
    case LinkRefs(n, h, k) => Publishing(t)
    case LinkSwap(n, h, k) => if head == h then Listed else p
    case LinkUndo(n, h, k) => if refs == 1 then Linking(t) else Owed
    case GetSwap(n, m) => if head == Some(n) then Taken(t) else p
    case GetTake(n) => Out
    case GetDrop(n, h) => if refs == SHOULD_BE_ON_FREELIST + 1 then Linking(t) else p
    case _ => p
  }

  function ListAfter(pc: PC, head: Option<Node>, list: seq<Node>): seq<Node> {
    match pc
    case LinkSwap(n, h, k) => if head == h then [n] + list else list
    case GetSwap(n, m) => if head == Some(n) && list != [] then list[1..] else list
    case _ => list
  }

  function Bit(b: bool): nat { if b then 1 else 0 }

  /** What an access needs to know about the node it works on: its phase and the number of counted references. */
  ghost predicate Fits(t: Thread, pc: PC, n: Node, refs: nat, head: Option<Node>, p: Phase, k: nat) {
    && pc != Idle && pc != GetLoad && pc.node == n
    && k + 2 < SHOULD_BE_ON_FREELIST && refs == Word(p, k)
    && Bit(Holds(pc, n)) <= k && (p == Owed ==> k > 0) && (p.Linking? ==> k == 0)
    && (Claims(t, pc, n).Some? ==> p == Claims(t, pc, n).value)
    && (ThreadOf(p) == Some(t) ==> Claims(t, pc, n) == Some(p))
    && (head == Some(n) ==> p == Listed)
    && (pc.GetHold? ==> Counted(pc.refs))
  }

  /** The word arithmetic of every access: with `k` counted references to its node before it, the access leaves
      the word that belongs to the node's new phase and the new number of references. */
  lemma AccessKeepsWord(t: Thread, pc: PC, n: Node, refs: nat, next: Option<Node>, head: Option<Node>, p: Phase, k: nat)
    requires Fits(t, pc, n, refs, head, p, k)
    ensures
      var e := Access(pc, refs, next, head);
      var p' := PhaseAfter(t, pc, refs, head, p);
      var k' := k - Bit(Holds(pc, n)) + Bit(Holds(e.pc, n));
      && e.refs == Word(p', k')
      && (p' == Owed ==> k' > 0) && (p'.Linking? ==> k' == 0)
  {
    match pc {
      case AddFlag(_) =>
      case LinkLoad(_, _) =>
      case LinkNext(_, _, _) =>
      case LinkRefs(_, _, _) =>
      case LinkSwap(_, _, _) =>
      case LinkUndo(_, _, _) =>
      case GetRefs(_) =>
      case GetHold(_, _) =>
      case GetNext(_) =>
      case GetSwap(_, _) =>
      case GetTake(_) =>
      case GetDrop(_, _) =>
    }
  }

  lemma AccessKeepsClaims(t: Thread, pc: PC, n: Node, refs: nat, next: Option<Node>, head: Option<Node>, p: Phase,
                          k: nat)
    requires Fits(t, pc, n, refs, head, p, k)
    ensures
      var e := Access(pc, refs, next, head);
      var p' := PhaseAfter(t, pc, refs, head, p);
      && (p' == Out <==> p == Out || e.returned)
      && (p' != p ==> ThreadOf(p') == None || ThreadOf(p') == Some(t))
      && (ThreadOf(p') == Some(t) ==> Claims(t, e.pc, n) == Some(p'))
      && (Claims(t, e.pc, n).Some? ==> p' == Claims(t, e.pc, n).value)
  {
  }

  lemma StepWellFormed(s: State, t: Thread)
    requires WellFormed(s) && t in s.pcs && s.pcs[t] != Idle
    ensures WellFormed(Step(s, t))
  {
    hide Access;
    assert Names(s.pcs[t], s.refs.Keys);
    if s.pcs[t] != GetLoad {
      AccessNames(s.pcs[t], s.refs[s.pcs[t].node], s.next[s.pcs[t].node], s.head, s.refs.Keys);
    }
  }

  lemma AccessNames(pc: PC, refs: nat, next: Option<Node>, head: Option<Node>, nodes: set<Node>)
    requires pc != Idle && pc != GetLoad && Names(pc, nodes) && OptIn(next, nodes) && OptIn(head, nodes)
    ensures var e := Access(pc, refs, next, head);
            Names(e.pc, nodes) && OptIn(e.next, nodes) && OptIn(e.head, nodes)
  {
  }

  /** The invariant with the phases and the chain made explicit is kept by an access of `t`. */
  ghost function PhasesAfter(s: State, t: Thread, ph: map<Node, Phase>): map<Node, Phase>
    requires WellFormed(s) && t in s.pcs && s.pcs[t] != Idle && ph.Keys == s.refs.Keys
  {
    if s.pcs[t] == GetLoad then ph
    else
      var n := s.pcs[t].node;
      assert Names(s.pcs[t], s.refs.Keys);
      ph[n := PhaseAfter(t, s.pcs[t], s.refs[n], s.head, ph[n])]
  }

  lemma HeadListed(s: State, ph: map<Node, Phase>, list: seq<Node>, n: Node)
    requires InvWith(s, ph, list) && s.head == Some(n)
    ensures n in s.refs && ph[n] == Listed && list != [] && list[0] == n
  {
    assert list[0] in list;
  }

  lemma OwnFits(s: State, t: Thread, ph: map<Node, Phase>, list: seq<Node>)
    requires InvWith(s, ph, list) && t in s.pcs && s.pcs[t] != Idle && s.pcs[t] != GetLoad
    ensures Names(s.pcs[t], s.refs.Keys)
    ensures var n := s.pcs[t].node; Fits(t, s.pcs[t], n, s.refs[n], s.head, ph[n], |Holders(s.pcs, n)|)
  {
    assert Names(s.pcs[t], s.refs.Keys) && ThreadInv(s, t, ph);
    var n := s.pcs[t].node;
    assert NodeInv(s, n, ph[n]);
    HoldersBound(s.pcs, n);
    if Holds(s.pcs[t], n) { assert t in Holders(s.pcs, n); }
    if s.head == Some(n) { HeadListed(s, ph, list, n); }
  }

  lemma OwnStepIs(s: State, t: Thread, n: Node)
    requires WellFormed(s) && t in s.pcs && s.pcs[t] != Idle && s.pcs[t] != GetLoad && s.pcs[t].node == n
    ensures n in s.refs && n in s.next
    ensures var e := Access(s.pcs[t], s.refs[n], s.next[n], s.head); var s' := Step(s, t);
      && s'.head == e.head && s'.refs == s.refs[n := e.refs] && s'.next == s.next[n := e.next]
      && s'.pcs == s.pcs[t := e.pc] && s'.out == if e.returned then s.out + {n} else s.out
  {
    hide Access;
    assert Names(s.pcs[t], s.refs.Keys);
  }

  lemma StepKeepsOwnNode(s: State, t: Thread, p: Phase, n: Node)
    requires WellFormed(s) && t in s.pcs && s.pcs[t] != Idle && s.pcs[t] != GetLoad && s.pcs[t].node == n
    requires n in s.refs && NodeInv(s, n, p) && Fits(t, s.pcs[t], n, s.refs[n], s.head, p, |Holders(s.pcs, n)|)
    ensures WellFormed(Step(s, t)) && NodeInv(Step(s, t), n, PhaseAfter(t, s.pcs[t], s.refs[n], s.head, p))
  {
    hide Access, PhaseAfter, Word, Claims, Holds, Names, WellFormed, Step, Holders;
    StepWellFormed(s, t);
    OwnStepIs(s, t, n);
    var k, pc' := |Holders(s.pcs, n)|, Step(s, t).pcs[t];
    HoldersMove(s.pcs, t, pc', n);
    AccessKeepsWord(t, s.pcs[t], n, s.refs[n], s.next[n], s.head, p, k);
    AccessKeepsClaims(t, s.pcs[t], n, s.refs[n], s.next[n], s.head, p, k);
  }

  lemma StepKeepsOtherNode(s: State, t: Thread, p: Phase, n: Node)
    requires WellFormed(s) && t in s.pcs && s.pcs[t] != Idle && (s.pcs[t] == GetLoad || s.pcs[t].node != n)
    requires n in s.refs && NodeInv(s, n, p)
    ensures WellFormed(Step(s, t)) && NodeInv(Step(s, t), n, p)
  {
    hide Access, PhaseAfter, Word, Claims, Holds, Names;
    StepWellFormed(s, t);
    hide WellFormed;
    HoldersMove(s.pcs, t, Step(s, t).pcs[t], n);
    ElsewhereIdle(t, s.pcs[t], Step(s, t).pcs[t], s, n);
  }

  // A thread that works on another node neither holds `n` nor claims a phase for it, before or after its access.
  lemma ElsewhereIdle(t: Thread, pc: PC, pc': PC, s: State, n: Node)
    requires WellFormed(s) && t in s.pcs && pc == s.pcs[t] && pc != Idle && pc' == Step(s, t).pcs[t]
    requires pc == GetLoad || pc.node != n
    ensures !Holds(pc, n) && !Holds(pc', n) && Claims(t, pc, n) == None && Claims(t, pc', n) == None
  {
  }

  lemma StepKeepsOwnThread(s: State, t: Thread, ph: map<Node, Phase>)
    requires WellFormed(s) && t in s.pcs && s.pcs[t] != Idle && ph.Keys == s.refs.Keys && ThreadInv(s, t, ph)
    requires s.pcs[t] == GetLoad || s.pcs[t].node in s.refs
    requires s.pcs[t] == GetLoad ||
      (var n := s.pcs[t].node; Fits(t, s.pcs[t], n, s.refs[n], s.head, ph[n], |Holders(s.pcs, n)|))
    ensures WellFormed(Step(s, t)) && ThreadInv(Step(s, t), t, PhasesAfter(s, t, ph))
  {
    hide Access, PhaseAfter, Word, Claims, Names, Holds, Holders;
    StepWellFormed(s, t);
    hide WellFormed;
    var s', pc := Step(s, t), s.pcs[t];
    forall m | m in s'.refs && Claims(t, s'.pcs[t], m).Some?
      ensures PhasesAfter(s, t, ph)[m] == Claims(t, s'.pcs[t], m).value
    {
      if pc == GetLoad || pc.node != m { ElsewhereIdle(t, pc, s'.pcs[t], s, m); }
      else { AccessKeepsClaims(t, pc, m, s.refs[m], s.next[m], s.head, ph[m], |Holders(s.pcs, m)|); }
    }
    if pc != GetLoad { AccessKeepsLocals(pc, s.refs[pc.node], s.next[pc.node], s.head); }
  }

  lemma AccessKeepsLocals(pc: PC, refs: nat, next: Option<Node>, head: Option<Node>)
    requires pc != Idle && pc != GetLoad
    requires pc.LinkRefs? || pc.LinkSwap? ==> next == pc.head
    ensures var e := Access(pc, refs, next, head);
      && (e.pc.LinkRefs? || e.pc.LinkSwap? ==> e.pc.node == pc.node && e.next == e.pc.head)
      && (e.pc.GetHold? ==> Counted(e.pc.refs))
      && (e.pc.GetSwap? ==> e.pc.node == pc.node && e.next == e.pc.next)
  {
  }

  /** Nobody changes the phase of a node that another thread's position fixes, nor its next pointer while another
      thread is linking it or holds a counted reference to it. */
  lemma OthersPinNode(s: State, t: Thread, p: Phase, u: Thread, n: Node)
    requires WellFormed(s) && t in s.pcs && u in s.pcs && u != t
    requires s.pcs[t] != Idle && s.pcs[t] != GetLoad && s.pcs[t].node == n && n in s.refs && NodeInv(s, n, p)
    requires Fits(t, s.pcs[t], n, s.refs[n], s.head, p, |Holders(s.pcs, n)|)
    requires Claims(u, s.pcs[u], n).Some? ==> Claims(u, s.pcs[u], n) == Some(p)
    ensures Claims(u, s.pcs[u], n).Some? ==> PhaseAfter(t, s.pcs[t], s.refs[n], s.head, p) == p
    ensures Claims(u, s.pcs[u], n).Some? || Holds(s.pcs[u], n) ==> EffectOf(s, t).next == s.next[n]
  {
    hide Access, PhaseAfter, Word, Names;
    var pc := s.pcs[t];
    if Holds(s.pcs[u], n) { assert u in Holders(s.pcs, n); }
    if Claims(u, s.pcs[u], n).Some? {
      assert ThreadOf(p) == Some(u);
      Immovable(t, pc, s.refs[n], s.head, p, |Holders(s.pcs, n)|);
    }
    if !pc.LinkNext? { OnlyLinkNextRelinks(pc, s.refs[n], s.next[n], s.head); }
  }

  lemma OnlyLinkNextRelinks(pc: PC, refs: nat, next: Option<Node>, head: Option<Node>)
    requires pc != Idle && pc != GetLoad && !pc.LinkNext?
    ensures Access(pc, refs, next, head).next == next
  {
  }

  lemma Immovable(t: Thread, pc: PC, refs: nat, head: Option<Node>, p: Phase, k: nat)
    requires pc != Idle && pc != GetLoad && Fits(t, pc, pc.node, refs, head, p, k)
    requires ThreadOf(p).Some? && ThreadOf(p) != Some(t)
    ensures PhaseAfter(t, pc, refs, head, p) == p
  {
  }

  lemma StepKeepsOtherThread(s: State, t: Thread, ph: map<Node, Phase>, u: Thread)
    requires WellFormed(s) && t in s.pcs && s.pcs[t] != Idle && u in s.pcs && u != t
    requires ph.Keys == s.refs.Keys && ThreadInv(s, u, ph)
    requires s.pcs[t] == GetLoad || s.pcs[t].node in s.refs
    requires s.pcs[t] == GetLoad ||
      (var n := s.pcs[t].node;
       NodeInv(s, n, ph[n])
       && Fits(t, s.pcs[t], n, s.refs[n], s.head, ph[n], |Holders(s.pcs, n)|))
    ensures WellFormed(Step(s, t)) && ThreadInv(Step(s, t), u, PhasesAfter(s, t, ph))
  {
    hide Access, PhaseAfter, Word, Names, Holders, Fits, NodeInv;
    StepWellFormed(s, t);
    if s.pcs[t] != GetLoad {
      OthersPinNode(s, t, ph[s.pcs[t].node], u, s.pcs[t].node);
    }
    hide WellFormed;
    var s', pc, ph' := Step(s, t), s.pcs[u], PhasesAfter(s, t, ph);
    assert s'.pcs[u] == pc;
    assert forall n | n in s'.refs && Claims(u, pc, n).Some? :: ph'[n] == Claims(u, pc, n).value;
    if pc.LinkRefs? || pc.LinkSwap? { assert Claims(u, pc, pc.node).Some?; }
    if pc.GetSwap? { assert Holds(pc, pc.node); }
  }

  /** The chain gains its new head on a successful link, loses its head on a successful take, and is otherwise the
      same; the phases say so too. */
  lemma AccessMovesHead(t: Thread, pc: PC, refs: nat, next: Option<Node>, head: Option<Node>, p: Phase, k: nat)
    requires pc != Idle && pc != GetLoad && Fits(t, pc, pc.node, refs, head, p, k)
    ensures var e, p' := Access(pc, refs, next, head), PhaseAfter(t, pc, refs, head, p);
      if pc.LinkSwap? && head == pc.head then e.head == Some(pc.node) && p' == Listed && p != Listed && e.next == next
      else if pc.GetSwap? && head == Some(pc.node) then e.head == pc.next && p' == Taken(t) && e.next == next
      else e.head == head && (p' == Listed <==> p == Listed) && (p != Listed || e.next == next)
  {
  }

  lemma ChainNodes(head: Option<Node>, next: map<Node, Option<Node>>, list: seq<Node>)
    requires Chain(head, next, list)
    ensures head == First(list) && forall m | m in list :: m in next
  {
  }

  lemma ChainPush(next: map<Node, Option<Node>>, list: seq<Node>, n: Node)
    requires Chain(First(list), next, list) && n in next && next[n] == First(list)
    ensures Chain(Some(n), next, [n] + list)
  {
    assert ([n] + list)[1..] == list;
    forall i | 0 <= i < |[n] + list| ensures ([n] + list)[i] in next
      && next[([n] + list)[i]] == First(([n] + list)[i + 1..]) {
      if i > 0 { assert ([n] + list)[i + 1..] == list[i..]; }
    }
  }

  lemma ChainPop(next: map<Node, Option<Node>>, list: seq<Node>)
    requires list != [] && Chain(First(list), next, list)
    ensures Chain(next[list[0]], next, list[1..])
  {
    forall i | 0 <= i < |list[1..]| ensures list[1..][i] in next && next[list[1..][i]] == First(list[1..][i + 1..]) {
      assert list[1..][i + 1..] == list[i + 2..];
    }
  }

  lemma ChainFrame(head: Option<Node>, next: map<Node, Option<Node>>, next': map<Node, Option<Node>>, list: seq<Node>)
    requires Chain(head, next, list)
    requires forall m | m in list :: m in next && m in next' && next'[m] == next[m]
    ensures Chain(head, next', list)
  {
  }

  lemma StepKeepsChain(s: State, t: Thread, ph: map<Node, Phase>, list: seq<Node>)
    requires InvWith(s, ph, list) && t in s.pcs && s.pcs[t] != Idle
    ensures Chain(Step(s, t).head, Step(s, t).next, ListAfter(s.pcs[t], s.head, list))
  {
    hide Access, PhaseAfter, Word, Holders, Names, Holds, Chain, Distinct;
    var pc, s' := s.pcs[t], Step(s, t);
    if pc == GetLoad { return; }
    OwnFits(s, t, ph, list);
    var n := pc.node;
    assert ThreadInv(s, t, ph) && NodeInv(s, n, ph[n]);
    AccessMovesHead(t, pc, s.refs[n], s.next[n], s.head, ph[n], |Holders(s.pcs, n)|);
    hide ThreadInv, NodeInv, Fits, Claims, WellFormed;
    ChainNodes(s.head, s.next, list);
    ChainFrame(s.head, s.next, s'.next, list);
    if pc.LinkSwap? && s.head == pc.head {
      ChainPush(s'.next, list, n);
    } else if pc.GetSwap? && s.head == Some(n) {
      ChainPop(s'.next, list);
    }
  }

  lemma StepKeepsListed(s: State, t: Thread, ph: map<Node, Phase>, list: seq<Node>)
    requires InvWith(s, ph, list) && t in s.pcs && s.pcs[t] != Idle
    ensures var list' := ListAfter(s.pcs[t], s.head, list);
      Distinct(list') && forall m | m in Step(s, t).refs :: PhasesAfter(s, t, ph)[m] == Listed <==> m in list'
  {
    hide Access, PhaseAfter, Word, Holders, Names, Holds, Chain;
    var pc := s.pcs[t];
    if pc == GetLoad { return; }
    OwnFits(s, t, ph, list);
    var n := pc.node;
    AccessMovesHead(t, pc, s.refs[n], s.next[n], s.head, ph[n], |Holders(s.pcs, n)|);
    ChainNodes(s.head, s.next, list);
    hide ThreadInv, NodeInv, Fits, Claims, WellFormed;
    var list' := ListAfter(pc, s.head, list);
    forall m | m in s.refs ensures PhasesAfter(s, t, ph)[m] == Listed <==> m in list' {
      assert ph[m] == Listed <==> m in list;
      if list' == [n] + list { assert m in list' <==> m == n || m in list; }
      else if list != [] && list' == list[1..] { assert m in list <==> m == list[0] || m in list'; }
    }
  }

  /** Each single access keeps the invariant. */
  lemma StepKeepsInv(s: State, t: Thread)
    requires Inv(s) && t in s.pcs && s.pcs[t] != Idle
    ensures Inv(Step(s, t))
  {
    hide Access, PhaseAfter, Word, Holders, Names, Holds, Chain, Distinct, ListAfter, Fits, Claims, NodeInv, ThreadInv;
    var ph: map<Node, Phase>, list: seq<Node> :| InvWith(s, ph, list);
    var s', ph', list' := Step(s, t), PhasesAfter(s, t, ph), ListAfter(s.pcs[t], s.head, list);
    StepWellFormed(s, t);
    if s.pcs[t] != GetLoad { OwnFits(s, t, ph, list); }
    forall n | n in s'.refs ensures NodeInv(s', n, ph'[n]) {
      assert NodeInv(s, n, ph[n]);
      if s.pcs[t] != GetLoad && s.pcs[t].node == n { StepKeepsOwnNode(s, t, ph[n], n); }
      else { StepKeepsOtherNode(s, t, ph[n], n); }
    }
    forall u | u in s'.pcs ensures ThreadInv(s', u, ph') {
      assert ThreadInv(s, u, ph);
      if u == t { StepKeepsOwnThread(s, t, ph); } else { StepKeepsOtherThread(s, t, ph, u); }
    }
    StepKeepsChain(s, t, ph, list);
    StepKeepsListed(s, t, ph, list);
    assert s'.pcs.Keys == s.pcs.Keys;
    assert InvWith(s', ph', list');
  }

  /** A client call: an idle thread asks for a node, or passes one of the nodes in use to `add`. */
  ghost predicate Call(s: State, s': State, t: Thread, given: Option<Node>) {
    && WellFormed(s) && t in s.pcs && s.pcs[t] == Idle
    && s' == (if given.Some? then s.(pcs := s.pcs[t := AddFlag(given.value)], out := s.out - {given.value})
              else s.(pcs := s.pcs[t := GetLoad]))
    && (given.Some? ==> given.value in s.out)
  }

  lemma CallWellFormed(s: State, s': State, t: Thread, given: Option<Node>)
    requires Call(s, s', t, given)
    ensures WellFormed(s')
  {
  }

  lemma CallKeepsNode(s: State, s': State, t: Thread, given: Option<Node>, n: Node, p: Phase)
    requires Call(s, s', t, given) && n in s.refs && NodeInv(s, n, p)
    ensures WellFormed(s') && NodeInv(s', n, if given == Some(n) then Adding(t) else p)
  {
    hide WellFormed, Holders, Word;
    CallWellFormed(s, s', t, given);
    HoldersMove(s.pcs, t, s'.pcs[t], n);
    assert ThreadOf(p) != Some(t);
    OutWord(t, |Holders(s.pcs, n)|);
  }

  lemma OutWord(t: Thread, k: nat)
    ensures Word(Adding(t), k) == Word(Out, k)
  {
  }

  lemma CallKeepsThread(s: State, s': State, t: Thread, given: Option<Node>, ph: map<Node, Phase>, u: Thread)
    requires Call(s, s', t, given) && WellFormed(s') && u in s.pcs && ph.Keys == s.refs.Keys && ThreadInv(s, u, ph)
    requires given.Some? ==> NodeInv(s, given.value, ph[given.value])
    ensures ThreadInv(s', u, if given.Some? then ph[given.value := Adding(t)] else ph)
  {
    assert given.Some? ==> given.value in s.refs;
    hide WellFormed, Holds, Holders, Word;
    if u != t && given.Some? && Claims(u, s.pcs[u], given.value).Some? {
      assert false;
    }
  }

  lemma CallKeepsInv(s: State, s': State, t: Thread, given: Option<Node>)
    requires Inv(s) && Call(s, s', t, given)
    ensures Inv(s')
  {
    hide Word, Chain, Distinct, NodeInv, ThreadInv, Names;
    var ph: map<Node, Phase>, list: seq<Node> :| InvWith(s, ph, list);
    CallWellFormed(s, s', t, given);
    hide WellFormed;
    var ph' := if given.Some? then ph[given.value := Adding(t)] else ph;
    forall n | n in s'.refs ensures NodeInv(s', n, ph'[n]) {
      assert NodeInv(s, n, ph[n]);
      CallKeepsNode(s, s', t, given, n, ph[n]);
    }
    forall u | u in s'.pcs ensures ThreadInv(s', u, ph') {
      assert ThreadInv(s, u, ph);
      assert given.Some? ==> NodeInv(s, given.value, ph[given.value]);
      CallKeepsThread(s, s', t, given, ph, u);
    }
    assert s'.pcs.Keys == s.pcs.Keys;
    if given.Some? { OutIsNotListed(s, ph, given.value); }
    assert InvWith(s', ph', list);
  }

  lemma OutIsNotListed(s: State, ph: map<Node, Phase>, n: Node)
    requires WellFormed(s) && n in s.refs && n in ph && NodeInv(s, n, ph[n]) && n in s.out
    ensures ph[n] == Out
  {
    hide WellFormed, Word, Holders;
  }

  /** A block allocated while the list runs starts in use. */
  lemma CreateKeepsInv(s: State, n: Node)
    requires Inv(s) && n !in s.refs
    ensures Inv(Apply(s, Create(n)))
  {
    hide Word, Chain, Distinct, NodeInv, ThreadInv, Claims, WellFormed;
    var ph: map<Node, Phase>, list: seq<Node> :| InvWith(s, ph, list);
    var s', ph' := Apply(s, Create(n)), ph[n := Out];
    InvChain(s, ph, list);
    CreateWellFormed(s, n);
    CreatedNode(s, n);
    ChainNodes(s.head, s.next, list);
    ChainFrame(s.head, s.next, s'.next, list);
    forall m | m in s'.refs && m != n ensures NodeInv(s', m, ph'[m]) {
      assert NodeInv(s, m, ph[m]);
      CreateFrame(s, n, m, ph[m]);
    }
    forall u | u in s'.pcs ensures ThreadInv(s', u, ph') {
      assert ThreadInv(s, u, ph);
      CreateKeepsThread(s, n, ph, u);
    }
    assert InvWith(s', ph', list);
  }

  lemma CreatedNode(s: State, n: Node)
    requires WellFormed(s) && n !in s.refs
    ensures WellFormed(Apply(s, Create(n))) && NodeInv(Apply(s, Create(n)), n, Out)
    ensures forall t | t in s.pcs :: Claims(t, s.pcs[t], n) == None
  {
    CreateWellFormed(s, n);
    forall t | t in s.pcs ensures !Holds(s.pcs[t], n) && Claims(t, s.pcs[t], n) == None {
      assert Names(s.pcs[t], s.refs.Keys);
    }
    assert Holders(s.pcs, n) == {};
  }

  lemma CreateFrame(s: State, n: Node, m: Node, p: Phase)
    requires WellFormed(s) && n !in s.refs && WellFormed(Apply(s, Create(n))) && m in s.refs && NodeInv(s, m, p)
    ensures NodeInv(Apply(s, Create(n)), m, p)
  {
    hide WellFormed, Word, Claims, Holders;
  }

  lemma CreateKeepsThread(s: State, n: Node, ph: map<Node, Phase>, u: Thread)
    requires WellFormed(s) && n !in s.refs && WellFormed(Apply(s, Create(n)))
    requires ph.Keys == s.refs.Keys && u in s.pcs && ThreadInv(s, u, ph) && Claims(u, s.pcs[u], n) == None
    ensures ThreadInv(Apply(s, Create(n)), u, ph[n := Out])
  {
    hide Claims;
  }

  lemma CreateWellFormed(s: State, n: Node)
    requires WellFormed(s) && n !in s.refs
    ensures WellFormed(Apply(s, Create(n)))
  {
    forall t | t in s.pcs ensures Names(s.pcs[t], Apply(s, Create(n)).refs.Keys) {
      assert Names(s.pcs[t], s.refs.Keys);
    }
  }

  // ---------------------------------------------------------------------------------------------------------
  // Whole runs
  // ---------------------------------------------------------------------------------------------------------

  /** `events`, in this order, lead from `s` to `s'`. */
  ghost predicate Leads(s: State, events: seq<Event>, s': State)
    decreases |events|
  {
    if events == [] then s' == s
    else WellFormed(s) && Enabled(s, events[0]) && Leads(Apply(s, events[0]), events[1..], s')
  }

  ghost predicate Reachable(threads: set<Thread>, s: State) {
    |threads| + 2 < SHOULD_BE_ON_FREELIST && exists events :: Leads(Init(threads), events, s)
  }

  lemma {:induction false} RunKeepsInv(s: State, events: seq<Event>, s': State)
    requires Inv(s) && Leads(s, events, s')
    ensures Inv(s')
    decreases |events|
  {
    hide Inv, WellFormed, Step;
    if events != [] {
      var e := events[0];
      match e {
        case Run(t) => StepKeepsInv(s, t);
        case BeginAdd(t, n) => CallKeepsInv(s, Apply(s, e), t, Some(n));
        case BeginGet(t) => CallKeepsInv(s, Apply(s, e), t, None);
        case Create(n) => CreateKeepsInv(s, n);
      }
      RunKeepsInv(Apply(s, e), events[1..], s');
    }
  }

  lemma {:induction false} LeadsOn(s: State, events: seq<Event>, s': State, e: Event)
    requires Leads(s, events, s') && WellFormed(s') && Enabled(s', e)
    ensures Leads(s, events + [e], Apply(s', e))
    decreases |events|
  {
    hide WellFormed, Enabled, Apply;
    if events == [] {
      assert events + [e] == [e] && [e][1..] == [];
      assert Leads(Apply(s', e), [], Apply(s', e));
    } else {
      LeadsOn(Apply(s, events[0]), events[1..], s', e);
      assert (events + [e])[1..] == events[1..] + [e];
    }
  }

  lemma ReachableNext(threads: set<Thread>, s: State, e: Event)
    requires Reachable(threads, s) && WellFormed(s) && Enabled(s, e)
    ensures Reachable(threads, Apply(s, e))
  {
    hide WellFormed, Enabled, Apply, Leads, Init;
    var events: seq<Event> :| Leads(Init(threads), events, s);
    LeadsOn(Init(threads), events, s, e);
  }

  /** The invariant holds in every state of every interleaving. */
  lemma ReachableInv(threads: set<Thread>, s: State)
    requires Reachable(threads, s)
    ensures Inv(s)
  {
    var events :| Leads(Init(threads), events, s);
    assert Init(threads).pcs.Keys == threads;
    assert InvWith(Init(threads), map[], []);
    RunKeepsInv(Init(threads), events, s);
  }

  lemma InvAtNode(s: State, ph: map<Node, Phase>, list: seq<Node>, n: Node)
    requires InvWith(s, ph, list) && n in s.refs
    ensures WellFormed(s) && n in ph && NodeInv(s, n, ph[n]) && (ph[n] == Listed <==> n in list)
    ensures |Holders(s.pcs, n)| + 2 < SHOULD_BE_ON_FREELIST
    ensures Chain(s.head, s.next, list) && Distinct(list)
  {
    HoldersBound(s.pcs, n);
  }

  lemma InvAtThread(s: State, ph: map<Node, Phase>, list: seq<Node>, t: Thread)
    requires InvWith(s, ph, list) && t in s.pcs
    ensures WellFormed(s) && ph.Keys == s.refs.Keys && Names(s.pcs[t], s.refs.Keys) && ThreadInv(s, t, ph)
  {
  }

  // ---------------------------------------------------------------------------------------------------------
  // What the invariant means for the client
  // ---------------------------------------------------------------------------------------------------------

  /** `n` can be reached from freeListHead by next pointers. */
  ghost predicate OnList(s: State, n: Node) { exists list: seq<Node> :: Chain(s.head, s.next, list) && n in list }

  lemma {:induction false} ChainUnique(head: Option<Node>, next: map<Node, Option<Node>>, a: seq<Node>, b: seq<Node>)
    requires Chain(head, next, a) && Chain(head, next, b)
    ensures a == b
    decreases |a|
  {
    if a != [] && b != [] {
      ChainPop(next, a);
      ChainPop(next, b);
      ChainUnique(next[a[0]], next, a[1..], b[1..]);
      assert a == [a[0]] + a[1..] && b == [b[0]] + b[1..];
    }
  }

  /** Where a node is, read off memory and the threads' positions alone. */
  ghost predicate At(s: State, n: Node, p: Phase)
    requires n in s.refs
  {
    match p
    case Out => n in s.out
    case Adding(t) => t in s.pcs && Claims(t, s.pcs[t], n) == Some(p)
    case Linking(t) => t in s.pcs && Claims(t, s.pcs[t], n) == Some(p)
    case Publishing(t) => t in s.pcs && Claims(t, s.pcs[t], n) == Some(p)
    case Taken(t) => t in s.pcs && Claims(t, s.pcs[t], n) == Some(p)
    case Owed => s.refs[n] > SHOULD_BE_ON_FREELIST
    case Listed => OnList(s, n)
  }

  lemma PhaseIsPlace(s: State, ph: map<Node, Phase>, list: seq<Node>, n: Node, p: Phase)
    requires InvWith(s, ph, list) && n in s.refs
    ensures At(s, n, p) <==> p == ph[n]
  {
    hide Names;
    assert NodeInv(s, n, ph[n]);
    HoldersBound(s.pcs, n);
    match p {
      case Listed =>
        if OnList(s, n) {
          var other :| Chain(s.head, s.next, other) && n in other;
          ChainUnique(s.head, s.next, list, other);
        }
      case Owed =>
      case Out =>
      case Adding(t) => assert t in s.pcs ==> ThreadInv(s, t, ph);
      case Linking(t) => assert t in s.pcs ==> ThreadInv(s, t, ph);
      case Publishing(t) => assert t in s.pcs ==> ThreadInv(s, t, ph);
      case Taken(t) => assert t in s.pcs ==> ThreadInv(s, t, ph);
    }
  }

  /** No node is lost and none is in two places: in every reachable state each node is in exactly one of: in use,
      being added by one thread, owed to the list, being linked by one thread, on the list, taken off by one thread. */
  lemma EveryNodeInOnePlace(threads: set<Thread>, s: State, n: Node)
    requires Reachable(threads, s) && n in s.refs
    ensures exists p :: At(s, n, p) && forall q :: At(s, n, q) ==> q == p
  {
    hide At, Reachable, InvWith;
    ReachableInv(threads, s);
    var ph: map<Node, Phase>, list: seq<Node> :| InvWith(s, ph, list);
    InvAtNode(s, ph, list, n);
    forall q ensures At(s, n, q) <==> q == ph[n] { PhaseIsPlace(s, ph, list, n, q); }
    assert At(s, n, ph[n]);
  }

  lemma TakenIsPrivate(s: State, ph: map<Node, Phase>, list: seq<Node>, t: Thread, u: Thread, n: Node)
    requires InvWith(s, ph, list) && t in s.pcs && s.pcs[t] == GetTake(n) && u in s.pcs
    ensures n in s.refs && n !in s.out && !OnList(s, n) && s.refs[n] < SHOULD_BE_ON_FREELIST
    ensures u != t ==> Claims(u, s.pcs[u], n) == None
  {
    hide InvWith, WellFormed, OnList, Chain, Distinct, Holds, Holders;
    InvAtThread(s, ph, list, t);
    InvAtThread(s, ph, list, u);
    InvAtNode(s, ph, list, n);
    PhaseIsPlace(s, ph, list, n, Listed);
  }

  /** A node that `try_get` has taken off the list is nobody else's: it is not in use, no other getter has it, it is
      not on the list, and its should-be-on-list bit is clear (what try_get asserts before it drops its references). */
  lemma NoDoubleHandout(threads: set<Thread>, s: State, t: Thread, u: Thread, n: Node)
    requires Reachable(threads, s) && t in s.pcs && s.pcs[t] == GetTake(n) && u in s.pcs
    ensures n in s.refs && n !in s.out && !OnList(s, n) && s.refs[n] < SHOULD_BE_ON_FREELIST
    ensures u != t ==> Claims(u, s.pcs[u], n) == None
  {
    hide Reachable, Chain, Distinct, Holds, OnList, WellFormed, Claims;
    ReachableInv(threads, s);
    var ph: map<Node, Phase>, list: seq<Node> :| InvWith(s, ph, list);
    TakenIsPrivate(s, ph, list, t, u, n);
  }

  /** While any thread holds a counted reference to a node, nobody changes the node's next pointer. */
  lemma NextPinnedByReference(threads: set<Thread>, s: State, e: Event, u: Thread, n: Node)
    requires Reachable(threads, s) && WellFormed(s) && Enabled(s, e)
    requires u in s.pcs && Holds(s.pcs[u], n) && n in s.refs
    ensures n in Apply(s, e).next && Apply(s, e).next[n] == s.next[n]
  {
    hide Reachable, InvWith, Leads;
    ReachableInv(threads, s);
    if e.Run? && s.pcs[e.t] != GetLoad && s.pcs[e.t].node == n {
      var ph: map<Node, Phase>, list: seq<Node> :| InvWith(s, ph, list);
      hide Names, Access, WellFormed;
      OwnFits(s, e.t, ph, list);
      InvAtThread(s, ph, list, e.t);
      InvAtNode(s, ph, list, n);
      assert u in Holders(s.pcs, n);
      OnlyLinkNextRelinks(s.pcs[e.t], s.refs[n], s.next[n], s.head);
    }
  }

  /** Hence no ABA: a head CAS of `try_get` that succeeds takes exactly the first node off the list, although the
      thread read the next pointer earlier and the head may have changed and changed back since. */
  lemma SuccessfulTakePops(threads: set<Thread>, s: State, t: Thread, list: seq<Node>)
    requires Reachable(threads, s) && WellFormed(s) && t in s.pcs && s.pcs[t].GetSwap? && s.head == Some(s.pcs[t].node)
    requires Chain(s.head, s.next, list)
    ensures list != [] && Step(s, t).pcs[t] == GetTake(list[0]) && Chain(Step(s, t).head, Step(s, t).next, list[1..])
  {
    hide Reachable, InvWith, Holds, Claims, NodeInv, Names, Distinct, Chain;
    ReachableInv(threads, s);
    var ph: map<Node, Phase>, list0: seq<Node> :| InvWith(s, ph, list0);
    InvAtThread(s, ph, list0, t);
    hide WellFormed, InvWith;
    ChainNodes(s.head, s.next, list);
    ChainPop(s.next, list);
    ChainFrame(s.pcs[t].next, s.next, Step(s, t).next, list[1..]);
  }

  lemma SwapNames(pc: PC, nodes: set<Node>)
    requires pc.LinkSwap? && Names(pc, nodes)
    ensures pc.node in nodes
  {
  }

  /** A head CAS of `add_knowing_refcount_is_zero` that succeeds puts a node that was not on the list in front. */
  lemma SuccessfulLinkPushes(threads: set<Thread>, s: State, t: Thread, list: seq<Node>)
    requires Reachable(threads, s) && WellFormed(s) && t in s.pcs && s.pcs[t].LinkSwap? && s.head == s.pcs[t].head
    requires Chain(s.head, s.next, list)
    ensures s.pcs[t].node !in list && Chain(Step(s, t).head, Step(s, t).next, [s.pcs[t].node] + list)
  {
    hide Reachable, Holds, NodeInv, Distinct, Names, WellFormed, Chain;
    ReachableInv(threads, s);
    var ph: map<Node, Phase>, list0: seq<Node> :| InvWith(s, ph, list0);
    InvAtThread(s, ph, list0, t);
    InvChain(s, ph, list0);
    ChainUnique(s.head, s.next, list, list0);
    ChainNodes(s.head, s.next, list);
    ChainFrame(s.head, s.next, Step(s, t).next, list);
    SwapNames(s.pcs[t], s.refs.Keys);
    assert ph[s.pcs[t].node] == Publishing(t);
    ChainPush(Step(s, t).next, list, s.pcs[t].node);
  }

  /** The should-be-on-list bit means that the list is owed the node: nobody uses it, it is not on the list, and some
      thread either holds a reference that it will give back or is already linking the node. */
  lemma BitMeansOwed(threads: set<Thread>, s: State, n: Node)
    requires Reachable(threads, s) && n in s.refs && s.refs[n] >= SHOULD_BE_ON_FREELIST
    ensures n !in s.out && !OnList(s, n)
    ensures exists t :: t in s.pcs && (Holds(s.pcs[t], n) || Claims(t, s.pcs[t], n) == Some(Linking(t)))
  {
    hide Reachable, Names, Distinct, Chain, InvWith, WellFormed, OnList, Holds;
    ReachableInv(threads, s);
    var ph: map<Node, Phase>, list: seq<Node> :| InvWith(s, ph, list);
    InvAtNode(s, ph, list, n);
    PhaseIsPlace(s, ph, list, n, Listed);
    if ph[n] == Owed {
      var t :| t in Holders(s.pcs, n);
    }
  }

  lemma IdleHoldsNothing(s: State, n: Node, p: Phase)
    requires WellFormed(s) && n in s.refs && NodeInv(s, n, p) && forall t | t in s.pcs :: s.pcs[t] == Idle
    ensures (p == Out && n in s.out && s.refs[n] == 0) || (p == Listed && n !in s.out && s.refs[n] == 1)
  {
    assert Holders(s.pcs, n) == {};
  }

  lemma InvChain(s: State, ph: map<Node, Phase>, list: seq<Node>)
    requires InvWith(s, ph, list)
    ensures Chain(s.head, s.next, list) && Distinct(list) && s.next.Keys == s.refs.Keys && s.out <= s.refs.Keys
  {
  }

  /** When every call has returned, the list holds exactly the nodes that are not in use, each once. */
  lemma QuiescentListIsComplete(threads: set<Thread>, s: State)
    requires Reachable(threads, s) && forall t | t in s.pcs :: s.pcs[t] == Idle
    ensures exists list: seq<Node> ::
              && Chain(s.head, s.next, list) && Distinct(list)
              && (set n | n in list) == s.refs.Keys - s.out
              && (forall n | n in s.refs :: s.refs[n] == Bit(n in list))
  {
    hide InvWith, Reachable, WellFormed, Claims, Chain, Distinct;
    ReachableInv(threads, s);
    var ph: map<Node, Phase>, list: seq<Node> :| InvWith(s, ph, list);
    InvChain(s, ph, list);
    ChainNodes(s.head, s.next, list);
    forall n | n in s.refs ensures (n in list <==> n !in s.out) && s.refs[n] == Bit(n in list) {
      InvAtNode(s, ph, list, n);
      IdleHoldsNothing(s, n, ph[n]);
    }
    assert (set n | n in list) == s.refs.Keys - s.out;
  }
}
