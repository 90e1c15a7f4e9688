/** The optimistic dequeue counters never let a dequeuer past the enqueuer.

    Each unit added to `dequeueOptimisticCount` is a ticket, numbered by the old value of the counter.  A ticket is
    either granted (it will be added to `headIndex`) or wasted (it will be, or has been, added to
    `dequeueOvercommit`).  The dequeuer subtracts an overcommit count that it read before it drew its tickets, so every
    wasted ticket it accounts for is older than its own; hence the newest granted ticket bounds all of them. */
module QueueTickets {
  import opened ImplicitQueue

  function Inflight(pc: CPC): nat {
    match pc
    case CCheck(want, _, _) => want
    case CSpill(want, _, _) => want
    case CFail(want, _) => want
    case CGrant(got) => got
    case _ => 0
  }

  function Pending(pc: CPC): nat {
    match pc
    case CSpill(_, got, _) => got
    case CGrant(got) => got
    case _ => 0
  }

  function Sum(cons: seq<CPC>, f: CPC -> nat): nat {
    if cons == [] then 0 else Sum(cons[..|cons| - 1], f) + f(cons[|cons| - 1])
  }

  lemma {:induction false} SumUpdate(cons: seq<CPC>, c: nat, pc: CPC, f: CPC -> nat)
    requires c < |cons|
    ensures Sum(cons[c := pc], f) == Sum(cons, f) - f(cons[c]) + f(pc)
  {
    var n := |cons| - 1;
    if c == n {
      assert cons[c := pc][..n] == cons[..n];
    } else {
      assert cons[c := pc][..n] == cons[..n][c := pc];
      SumUpdate(cons[..n], c, pc, f);
    }
  }

  /** The tickets a dequeuer has drawn that are neither granted nor yet counted as wasted: a half-open interval. */
  function Limbo(pc: CPC): (nat, nat) {
    match pc
    case CCheck(want, _, my) => (my, my + want)
    case CSpill(want, got, my) => (my + got, my + want)
    case CFail(want, my) => (my, my + want)
    case _ => (0, 0)
  }

  predicate Apart(a: (nat, nat), b: (nat, nat)) { a.0 >= a.1 || b.0 >= b.1 || a.1 <= b.0 || b.1 <= a.0 }

  ghost predicate Avoids(a: (nat, nat), s: set<nat>) { forall q | q in s :: !(a.0 <= q < a.1) }

  function Below(s: set<nat>, n: nat): set<nat> { set q | q in s && q < n }

  /** What a dequeuer's stale overcommit count is worth. */
  ghost predicate Stale(pc: CPC, over: nat, wasted: set<nat>) {
    match pc
    case COpt(_, _, o) => o <= over
    case CClaim(_, o) => o <= over
    case CCheck(_, o, my) => o <= |Below(wasted, my)| && o <= my
    case CSpill(want, got, _) => got < want
    case _ => true
  }

  ghost predicate GrantedBounded(tail: nat, opt: nat, granted: set<nat>, wasted: set<nat>) {
    && granted !! wasted
    && (forall q | q in granted :: q < opt && q + 1 <= tail + |Below(wasted, q)|)
    && (forall q | q in wasted :: q < opt)
  }

  ghost predicate LimboSeparate(opt: nat, over: nat, cons: seq<CPC>, granted: set<nat>, wasted: set<nat>) {
    && (forall c | 0 <= c < |cons| :: Stale(cons[c], over, wasted)
          && Limbo(cons[c]).1 <= opt && Avoids(Limbo(cons[c]), granted) && Avoids(Limbo(cons[c]), wasted))
    && (forall c, d | 0 <= c < d < |cons| :: Apart(Limbo(cons[c]), Limbo(cons[d])))
  }

  ghost predicate TicketsWith(tail: nat, head: nat, opt: nat, over: nat, cons: seq<CPC>, granted: set<nat>,
                              wasted: set<nat>) {
    && opt == head + over + Sum(cons, Inflight)
    && |granted| == head + Sum(cons, Pending)
    && |wasted| == over
    && GrantedBounded(tail, opt, granted, wasted)
    && LimboSeparate(opt, over, cons, granted, wasted)
  }

  ghost predicate Tickets(s: State) {
    exists granted: set<nat>, wasted: set<nat> :: TicketsWith(s.tail, s.head, s.opt, s.over, s.cons, granted, wasted)
  }

  // -- Counting -----------------------------------------------------------------------------------------------

  lemma {:induction false} MaxOf(s: set<nat>) returns (m: nat)
    requires s != {}
    ensures m in s && forall q | q in s :: q <= m
    decreases s
  {
    var a :| a in s;
    m := a;
    if s != {a} {
      var k := MaxOf(s - {a});
      if k > a { m := k; }
    }
    forall q | q in s ensures q <= m { if q != a { assert q in s - {a}; } }
  }

  /** Granted tickets fit below the tail. */
  lemma GrantedBelowTail(tail: nat, granted: set<nat>, wasted: set<nat>)
    requires granted !! wasted
    requires forall q | q in granted :: q + 1 <= tail + |Below(wasted, q)|
    ensures |granted| <= tail
  {
    if granted != {} {
      var m := MaxOf(granted);
      var below := Below(wasted, m);
      RangeSize(0, m + 1);
      assert granted + below <= Range(0, m + 1);
      hide Range, Below;
      SubsetSize(granted + below, Range(0, m + 1));
      UnionSize(granted, below);
    }
  }

  lemma UnionSize(a: set<nat>, b: set<nat>)
    requires a !! b
    ensures |a + b| == |a| + |b|
  {
  }

  /** In particular no dequeuer is granted an element that has not been enqueued. */
  lemma HeadWithinTail(s: State)
    requires Tickets(s)
    ensures s.head <= s.tail && s.over <= s.opt
    ensures s.opt == s.head + s.over + Sum(s.cons, Inflight)
    ensures forall c | 0 <= c < |s.cons| && s.cons[c].CGrant? :: s.head + s.cons[c].got <= s.tail
  {
    var granted: set<nat>, wasted: set<nat> :| TicketsWith(s.tail, s.head, s.opt, s.over, s.cons, granted, wasted);
    GrantedBelowTail(s.tail, granted, wasted);
    forall c | 0 <= c < |s.cons| && s.cons[c].CGrant? ensures s.head + s.cons[c].got <= s.tail {
      SumUpdate(s.cons, c, CIdle, Pending);
    }
  }

  // -- Steps ----------------------------------------------------------------------------------------------------

  /** A counter step of one dequeuer: `grant` and `waste` are tickets that leave its limbo, and what is left in its
      limbo was there before or is freshly drawn. */
  ghost predicate Move(tail: nat, opt: nat, opt': nat, over': nat, pc: CPC, pc': CPC, wasted: set<nat>, grant: set<nat>,
                       waste: set<nat>) {
    && opt <= opt'
    && grant !! waste
    && (forall q | q in grant + waste :: Limbo(pc).0 <= q < Limbo(pc).1)
    && (forall q | q in grant :: q + 1 <= tail + |Below(wasted, q)|)
    && Stale(pc', over', wasted + waste) && Limbo(pc').1 <= opt'
    && (Limbo(pc').0 >= Limbo(pc').1 || Limbo(pc').0 >= opt
        || (Limbo(pc).0 <= Limbo(pc').0 && Limbo(pc').1 <= Limbo(pc).1 && Avoids(Limbo(pc'), grant + waste)))
  }

  lemma GrantedKept(tail: nat, opt: nat, opt': nat, over': nat, pc: CPC, pc': CPC,
                    granted: set<nat>, wasted: set<nat>, grant: set<nat>, waste: set<nat>)
    requires GrantedBounded(tail, opt, granted, wasted) && Move(tail, opt, opt', over', pc, pc', wasted, grant, waste)
    requires Avoids(Limbo(pc), granted) && Avoids(Limbo(pc), wasted) && Limbo(pc).1 <= opt
    ensures GrantedBounded(tail, opt', granted + grant, wasted + waste)
    ensures |granted + grant| == |granted| + |grant| && |wasted + waste| == |wasted| + |waste|
  {
    hide Stale, Limbo;
    assert granted !! grant && wasted !! waste;
    forall q | q in granted + grant ensures q < opt' && q + 1 <= tail + |Below(wasted + waste, q)| {
      assert q in grant ==> q in grant + waste;
      SubsetSize(Below(wasted, q), Below(wasted + waste, q));
    }
    forall q | q in wasted + waste ensures q < opt' { assert q in waste ==> q in grant + waste; }
    assert granted + grant !! wasted + waste by {
      forall q | q in granted + grant ensures q !in wasted + waste {
        assert q in grant ==> q in grant + waste;
        assert q in waste ==> q in grant + waste;
      }
    }
  }

  lemma LimboKept(tail: nat, opt: nat, opt': nat, over: nat, over': nat, cons: seq<CPC>, c: nat, pc': CPC,
                  granted: set<nat>, wasted: set<nat>, grant: set<nat>, waste: set<nat>)
    requires LimboSeparate(opt, over, cons, granted, wasted) && c < |cons| && over <= over'
    requires GrantedBounded(tail, opt, granted, wasted)
    requires Move(tail, opt, opt', over', cons[c], pc', wasted, grant, waste)
    ensures LimboSeparate(opt', over', cons[c := pc'], granted + grant, wasted + waste)
  {
    hide Limbo, Stale;
    var granted', wasted', cons' := granted + grant, wasted + waste, cons[c := pc'];
    forall d | 0 <= d < |cons'|
      ensures Stale(cons'[d], over', wasted') && Limbo(cons'[d]).1 <= opt'
      ensures Avoids(Limbo(cons'[d]), granted') && Avoids(Limbo(cons'[d]), wasted')
    {
      assert Avoids(Limbo(cons[d]), granted) && Avoids(Limbo(cons[d]), wasted);
      if d != c {
        StaleGrows(cons[d], over, over', wasted, wasted');
        assert Apart(Limbo(cons[d]), Limbo(cons[c])) by {
          assert Apart(Limbo(cons[if d < c then d else c]), Limbo(cons[if d < c then c else d]));
        }
        OthersAvoid(Limbo(cons[d]), Limbo(cons[c]), granted, grant, waste, grant);
        OthersAvoid(Limbo(cons[d]), Limbo(cons[c]), wasted, grant, waste, waste);
      } else {
        OwnAvoid(Limbo(cons[c]), Limbo(pc'), opt, granted, grant + waste, grant);
        OwnAvoid(Limbo(cons[c]), Limbo(pc'), opt, wasted, grant + waste, waste);
      }
    }
    forall d, e | 0 <= d < e < |cons'| ensures Apart(Limbo(cons'[d]), Limbo(cons'[e])) {
      assert Apart(Limbo(cons[d]), Limbo(cons[e]));
      assert d != c ==> Limbo(cons[d]).1 <= opt;
      assert e != c ==> Limbo(cons[e]).1 <= opt;
    }
  }

  lemma OthersAvoid(other: (nat, nat), mine: (nat, nat), seen: set<nat>, grant: set<nat>, waste: set<nat>,
                    more: set<nat>)
    requires Avoids(other, seen) && Apart(other, mine) && more <= grant + waste
    requires forall q | q in grant + waste :: mine.0 <= q < mine.1
    ensures Avoids(other, seen + more)
  {
  }

  lemma OwnAvoid(before: (nat, nat), after: (nat, nat), opt: nat, seen: set<nat>, moved: set<nat>, more: set<nat>)
    requires Avoids(before, seen) && more <= moved && before.1 <= opt
    requires forall q | q in seen :: q < opt
    requires forall q | q in moved :: before.0 <= q < before.1
    requires after.0 >= after.1 || after.0 >= opt
             || (before.0 <= after.0 && after.1 <= before.1 && Avoids(after, moved))
    ensures Avoids(after, seen + more)
  {
  }

  lemma MoveKeeps(tail: nat, head: nat, head': nat, opt: nat, opt': nat, over: nat, over': nat,
                  cons: seq<CPC>, c: nat, pc': CPC, granted: set<nat>, wasted: set<nat>, grant: set<nat>,
                    waste: set<nat>)
    requires TicketsWith(tail, head, opt, over, cons, granted, wasted) && c < |cons|
    requires Move(tail, opt, opt', over', cons[c], pc', wasted, grant, waste)
    requires over' == over + |waste|
    requires opt' - head' - over' == opt - head - over + Inflight(pc') - Inflight(cons[c])
    requires |grant| == head' - head + Pending(pc') - Pending(cons[c])
    ensures TicketsWith(tail, head', opt', over', cons[c := pc'], granted + grant, wasted + waste)
  {
    hide Move, Stale, Limbo, Avoids, Sum, Inflight, Pending, Apart;
    SumUpdate(cons, c, pc', Inflight);
    SumUpdate(cons, c, pc', Pending);
    GrantedKept(tail, opt, opt', over', cons[c], pc', granted, wasted, grant, waste);
    LimboKept(tail, opt, opt', over, over', cons, c, pc', granted, wasted, grant, waste);
  }

  lemma StaleGrows(pc: CPC, over: nat, over': nat, wasted: set<nat>, wasted': set<nat>)
    requires Stale(pc, over, wasted) && over <= over' && wasted <= wasted'
    ensures Stale(pc, over', wasted')
  {
    if pc.CCheck? { SubsetSize(Below(wasted, pc.my), Below(wasted', pc.my)); }
  }

  /** The move made by one counter step: which tickets it grants and wastes. */
  ghost predicate TicketStep(s: State, pc: CPC, wasted: set<nat>, grant: set<nat>, waste: set<nat>)
    requires OnTickets(pc)
  {
    var (s', pc') := StepTickets(s, pc);
    && Move(s.tail, s.opt, s'.opt, s'.over, pc, pc', wasted, grant, waste)
    && s'.over == s.over + |waste|
    && s'.opt - s'.head - s'.over == s.opt - s.head - s.over + Inflight(pc') - Inflight(pc)
    && |grant| == s'.head - s.head + Pending(pc') - Pending(pc)
  }

  ghost predicate Ready(s: State, pc: CPC, wasted: set<nat>) {
    && OnTickets(pc) && Stale(pc, s.over, wasted) && |wasted| == s.over <= s.opt && Limbo(pc).1 <= s.opt
    && (forall q | q in wasted :: q < s.opt)
  }

  lemma GrantIsMove(tail: nat, opt: nat, over: nat, pc: CPC, pc': CPC, n: nat, wasted: set<nat>, grant: set<nat>)
    requires pc.CCheck? && Stale(pc, over, wasted) && pc.my + pc.want <= opt
    requires n <= pc.want && (n > 0 ==> pc.my + n <= tail + pc.over) && grant == Range(pc.my, pc.my + n)
    requires Limbo(pc').0 == pc.my + n || Limbo(pc').0 >= Limbo(pc').1
    requires Limbo(pc').1 <= pc.my + pc.want && !pc'.COpt? && !pc'.CClaim? && !pc'.CCheck?
             && (pc'.CSpill? ==> pc'.got < pc'.want)
    ensures Move(tail, opt, opt, over, pc, pc', wasted, grant, {})
  {
    assert Limbo(pc) == (pc.my, pc.my + pc.want);
    hide Limbo;
    forall q | q in grant ensures q + 1 <= tail + |Below(wasted, q)| {
      SubsetSize(Below(wasted, pc.my), Below(wasted, q));
    }
    assert grant + {} == grant;
  }

  /** What a check of the tail leads to: the first n of the tickets are granted. */
  lemma CheckStep(s: State, pc: CPC) returns (pc': CPC, n: nat)
    requires pc.CCheck?
    ensures StepTickets(s, pc) == (s, pc') && Inflight(pc') == Inflight(pc) && Pending(pc) == 0 && Pending(pc') == n
    ensures n <= pc.want && (n > 0 ==> pc.my + n <= s.tail + pc.over)
    ensures Limbo(pc').0 == pc.my + n || Limbo(pc').0 >= Limbo(pc').1
    ensures Limbo(pc').1 <= pc.my + pc.want && !pc'.COpt? && !pc'.CClaim? && !pc'.CCheck?
            && (pc'.CSpill? ==> pc'.got < pc'.want)
  {
    pc' := StepTickets(s, pc).1;
    n := Pending(pc');
  }

  lemma CheckMove(s: State, pc: CPC, wasted: set<nat>) returns (grant: set<nat>)
    requires Ready(s, pc, wasted) && pc.CCheck?
    ensures TicketStep(s, pc, wasted, grant, {})
  {
    hide Below, Move, Avoids, StepTickets, Limbo, Inflight, Pending, Range;
    var pc', n := CheckStep(s, pc);
    grant := Range(pc.my, pc.my + n);
    RangeSize(pc.my, pc.my + n);
    CheckLimit(s, pc, wasted);
    GrantIsMove(s.tail, s.opt, s.over, pc, pc', n, wasted, grant);
  }

  lemma CheckLimit(s: State, pc: CPC, wasted: set<nat>)
    requires Ready(s, pc, wasted) && pc.CCheck?
    ensures pc.my + pc.want <= s.opt
  {
  }

  lemma WasteIsMove(tail: nat, opt: nat, over: nat, over': nat, pc: CPC, pc': CPC, wasted: set<nat>, waste: set<nat>)
    requires Limbo(pc).1 <= opt && waste == Range(Limbo(pc).0, Limbo(pc).1) && (pc' == CIdle || pc'.CGrant?)
    ensures Move(tail, opt, opt, over', pc, pc', wasted, {}, waste)
  {
    hide Below;
    assert {} + waste == waste;
  }

  /** The tickets that are not granted are counted as wasted. */
  lemma WasteStep(s: State, pc: CPC) returns (pc': CPC, n: nat)
    requires (pc.CSpill? && pc.got < pc.want) || pc.CFail?
    ensures StepTickets(s, pc) == (s.(over := s.over + n), pc') && (pc' == CIdle || pc'.CGrant?)
    ensures Inflight(pc) == Inflight(pc') + n && Pending(pc') == Pending(pc) && Limbo(pc).0 + n == Limbo(pc).1
  {
    pc' := StepTickets(s, pc).1;
    n := Limbo(pc).1 - Limbo(pc).0;
  }

  lemma ReadyFacts(s: State, pc: CPC, wasted: set<nat>)
    requires Ready(s, pc, wasted)
    ensures OnTickets(pc) && Limbo(pc).1 <= s.opt && (pc.CSpill? ==> pc.got < pc.want)
  {
    hide Below;
  }

  lemma WasteMove(s: State, pc: CPC, wasted: set<nat>) returns (waste: set<nat>)
    requires Ready(s, pc, wasted) && (pc.CSpill? || pc.CFail?)
    ensures TicketStep(s, pc, wasted, {}, waste)
  {
    hide Below, Move, Avoids, StepTickets, Limbo, Inflight, Pending, Range, Ready;
    ReadyFacts(s, pc, wasted);
    var pc', n := WasteStep(s, pc);
    waste := Range(Limbo(pc).0, Limbo(pc).1);
    RangeSize(Limbo(pc).0, Limbo(pc).1);
    WasteIsMove(s.tail, s.opt, s.over, s.over + n, pc, pc', wasted, waste);
  }

  /** The accesses that grant and waste nothing. */
  lemma OtherStep(s: State, pc: CPC)
    requires OnTickets(pc) && !pc.CCheck? && !pc.CSpill? && !pc.CFail?
    ensures var (s', pc') := StepTickets(s, pc);
            s'.over == s.over && s'.opt - s'.head == s.opt - s.head + Inflight(pc') - Inflight(pc)
              && s'.head - s.head + Pending(pc') - Pending(pc) == 0
  {
  }

  lemma OtherIsMove(s: State, pc: CPC, wasted: set<nat>)
    requires Ready(s, pc, wasted) && !pc.CCheck? && !pc.CSpill? && !pc.CFail?
    ensures var (s', pc') := StepTickets(s, pc); Move(s.tail, s.opt, s'.opt, s'.over, pc, pc', wasted, {}, {})
  {
    assert wasted + {} == wasted;
    assert Below(wasted, s.opt) == wasted;
    hide Below;
  }

  lemma OtherMove(s: State, pc: CPC, wasted: set<nat>)
    requires Ready(s, pc, wasted) && !pc.CCheck? && !pc.CSpill? && !pc.CFail?
    ensures TicketStep(s, pc, wasted, {}, {})
  {
    hide Below, Move, Avoids, StepTickets, Limbo, Inflight, Pending, Ready;
    ReadyFacts(s, pc, wasted);
    OtherStep(s, pc);
    OtherIsMove(s, pc, wasted);
  }

  lemma TicketMove(s: State, pc: CPC, wasted: set<nat>) returns (grant: set<nat>, waste: set<nat>)
    requires Ready(s, pc, wasted)
    ensures TicketStep(s, pc, wasted, grant, waste)
  {
    hide TicketStep, Ready;
    grant, waste := {}, {};
    if pc.CCheck? { grant := CheckMove(s, pc, wasted); }
    else if pc.CSpill? || pc.CFail? { waste := WasteMove(s, pc, wasted); }
    else { OtherMove(s, pc, wasted); }
  }

  /** Whatever a dequeuer does, the ticket invariant holds afterwards. */
  lemma ConsumeKeepsTickets(s: State, c: nat)
    requires Tickets(s) && c < |s.cons|
    ensures Tickets(StepConsumer(s, c))
  {
    hide Move, Sum, Apart, Avoids, Inflight, Pending, StepTickets, StepBlocks;
    var granted: set<nat>, wasted: set<nat> :| TicketsWith(s.tail, s.head, s.opt, s.over, s.cons, granted, wasted);
    HeadWithinTail(s);
    var s', pc := StepConsumer(s, c), s.cons[c];
    if OnTickets(pc) {
      var grant, waste := TicketMove(s, pc, wasted);
      TicketsOnlyCount(s, pc);
      MoveKeeps(s.tail, s.head, s'.head, s.opt, s'.opt, s.over, s'.over, s.cons, c, s'.cons[c], granted, wasted, grant,
                waste);
    } else {
      BlocksDoNotCount(s, pc);
      QuietStep(s, s', c, s'.cons[c]);
    }
  }

  lemma TicketsOnlyCount(s: State, pc: CPC)
    requires OnTickets(pc)
    ensures StepTickets(s, pc).0.tail == s.tail
  {
  }

  /** A thread that holds no tickets. */
  predicate Ticketless(pc: CPC) { !OnTickets(pc) || pc.CTail? }

  lemma BlocksDoNotCount(s: State, pc: CPC)
    requires !OnTickets(pc)
    ensures var (s', pc') := StepBlocks(s, pc);
      s'.tail == s.tail && s'.head == s.head && s'.opt == s.opt && s'.over == s.over && Ticketless(pc')
  {
  }

  lemma QuietStep(s: State, s': State, c: nat, pc': CPC)
    requires Tickets(s) && c < |s.cons| && s'.cons == s.cons[c := pc'] && Ticketless(s.cons[c]) && Ticketless(pc')
    requires s'.tail == s.tail && s'.head == s.head && s'.opt == s.opt && s'.over == s.over
    ensures Tickets(s')
  {
    var granted: set<nat>, wasted: set<nat> :| TicketsWith(s.tail, s.head, s.opt, s.over, s.cons, granted, wasted);
    assert Move(s.tail, s.opt, s.opt, s.over, s.cons[c], pc', wasted, {}, {});
    MoveKeeps(s.tail, s.head, s.head, s.opt, s.opt, s.over, s.over, s.cons, c, pc', granted, wasted, {}, {});
    assert granted + {} == granted && wasted + {} == wasted;
  }

  /** The enqueuer only ever raises the tail. */
  lemma EnqueuerKeepsTickets(s: State, s': State)
    requires Tickets(s) && s.tail <= s'.tail && s'.head == s.head && s'.opt == s.opt && s'.over == s.over
             && s'.cons == s.cons
    ensures Tickets(s')
  {
    hide Stale, Limbo, Avoids, Apart, Sum, Inflight, Pending;
    var granted: set<nat>, wasted: set<nat> :| TicketsWith(s.tail, s.head, s.opt, s.over, s.cons, granted, wasted);
    assert TicketsWith(s'.tail, s'.head, s'.opt, s'.over, s'.cons, granted, wasted);
  }
}
