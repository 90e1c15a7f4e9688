/** The hash table of deflate.c: head has the latest string for each key, prev what came before it, both as window
    indices. */
module HashChains {
  import opened Kraft
  import opened HashKey
  import G = Congruence
  import A = Adler32

  type Octet = A.Octet

  /** An index in the window, as head and prev hold it. */
  type Pos = x: int | 0 <= x < 0x10000

  /** The key of the string at a place in the input. */
  function KeyAt(k: Hash, seen: seq<Octet>, p: nat): nat
    requires p + 3 <= |seen|
  {
    Key(k, seen[p], seen[p + 1], seen[p + 2])
  }

  /** The element of prev for a place in the input. */
  function Slot(p: int, base: nat, wsize: nat): (i: nat)
    requires wsize > 0
    ensures i < wsize
  {
    (p - base) % wsize
  }

  lemma SlotsDiffer(p: nat, q: nat, base: nat, wsize: nat)
    requires p < q < p + wsize
    ensures Slot(p, base, wsize) != Slot(q, base, wsize)
  {
    var x, y := p - base, q - base;
    if x % wsize == y % wsize {
      G.CongMod(x, wsize);
      G.CongMod(y, wsize);
      G.CongSym(x % wsize, x, wsize);
      G.CongTrans(x, x % wsize, y, wsize);
      G.CongClose(x, y, wsize);
    }
  }

  lemma SlotMoved(p: int, base: nat, wsize: nat)
    requires wsize > 0
    ensures Slot(p, base + wsize, wsize) == Slot(p, base, wsize)
  {
    var x := p - base - wsize;
    assert x == wsize * (x / wsize) + x % wsize;
    assert x + wsize == wsize * (x / wsize + 1) + x % wsize;
    G.ModUnique(x + wsize, wsize, x / wsize + 1, x % wsize);
  }

  /** A link of a chain: nothing, or a string that has been inserted and has the key. */
  ghost predicate Linked(q: nat, key: nat, ins: set<nat>, seen: seq<Octet>, base: nat, k: Hash) {
    q == 0 || (base + q in ins && base + q + 3 <= |seen| && KeyAt(k, seen, base + q) == key)
  }

  /** The strings inserted so far, all before `top`. */
  ghost predicate Inserted(ins: set<nat>, top: nat, seen: seq<Octet>) {
    (top > 0 ==> top + 2 <= |seen|) && forall p | p in ins :: p < top && p + 3 <= |seen|
  }

  lemma TopBefore(head: seq<nat>, prev: seq<nat>, ins: set<nat>, top: nat, seen: seq<Octet>, base: nat, k: Hash)
    requires Chained(head, prev, ins, top, seen, base, k)
    ensures top > 0 ==> top + 2 <= |seen|
  {
  }

  ghost predicate Heads(head: seq<nat>, ins: set<nat>, seen: seq<Octet>, base: nat, k: Hash) {
    forall h | 0 <= h < |head| :: Linked(head[h], h, ins, seen, base, k)
  }

  /** What comes before the string at p. */
  ghost predicate Before(q: nat, p: nat, ins: set<nat>, seen: seq<Octet>, base: nat, k: Hash)
    requires p + 3 <= |seen|
  {
    Linked(q, KeyAt(k, seen, p), ins, seen, base, k) && (q > 0 ==> base + q < p)
  }

  /** prev is right for strings less than a window back; further back it may have been written over. */
  ghost predicate Prevs(prev: seq<nat>, ins: set<nat>, top: nat, seen: seq<Octet>, base: nat, k: Hash)
  {
    |prev| > 0 && forall p | p in ins && p + 3 <= |seen| && top <= p + |prev| ::
      Before(prev[Slot(p, base, |prev|)], p, ins, seen, base, k)
  }

  ghost predicate Chained(head: seq<nat>, prev: seq<nat>, ins: set<nat>, top: nat, seen: seq<Octet>, base: nat,
                          k: Hash) {
    Inserted(ins, top, seen) && Heads(head, ins, seen, base, k) && Prevs(prev, ins, top, seen, base, k)
  }

  lemma ChainedNothing(head: seq<nat>, prev: seq<nat>, top: nat, seen: seq<Octet>, base: nat, k: Hash)
    requires |prev| > 0 && (top > 0 ==> top + 2 <= |seen|) && forall h | 0 <= h < |head| :: head[h] == 0
    ensures Chained(head, prev, {}, top, seen, base, k)
  {
  }

  /** More input changes nothing. */
  lemma ChainedMore(head: seq<nat>, prev: seq<nat>, ins: set<nat>, top: nat, seen: seq<Octet>, more: seq<Octet>,
                    base: nat, k: Hash)
    requires Chained(head, prev, ins, top, seen, base, k) && seen <= more
    ensures Chained(head, prev, ins, top, more, base, k)
  {
    hide Key;
    assert Inserted(ins, top, more);
    assert Heads(head, ins, more, base, k);
    forall p | p in ins && p + 3 <= |more| && top <= p + |prev|
      ensures Before(prev[Slot(p, base, |prev|)], p, ins, more, base, k)
    {
      assert p + 3 <= |seen|;
      assert Before(prev[Slot(p, base, |prev|)], p, ins, seen, base, k);
    }
  }

  /** INSERT_STRING of the string at p. */
  lemma ChainedInsert(head: seq<nat>, prev: seq<nat>, ins: set<nat>, top: nat, seen: seq<Octet>, base: nat, k: Hash,
                      str: nat)
    requires Chained(head, prev, ins, top, seen, base, k) && top <= base + str && base + str + 3 <= |seen|
             && KeyAt(k, seen, base + str) < |head|
    ensures var h, i := KeyAt(k, seen, base + str), Slot(base + str, base, |prev|);
            Chained(head[h := str], prev[i := head[h]], ins + {base + str}, base + str + 1, seen, base, k)
            && Linked(head[h], h, ins + {base + str}, seen, base, k) && (head[h] > 0 ==> base + head[h] < top)
  {
    hide KeyAt;
    var p := base + str;
    var h, i := KeyAt(k, seen, p), Slot(p, base, |prev|);
    var ins' := ins + {p};
    assert Linked(head[h], h, ins, seen, base, k);
    assert Inserted(ins', p + 1, seen);
    var head' := head[h := str];
    forall g | 0 <= g < |head|
      ensures Linked(head'[g], g, ins', seen, base, k)
    {
      if g != h { assert Linked(head[g], g, ins, seen, base, k); }
    }
    forall q | q in ins' && q + 3 <= |seen| && p + 1 <= q + |prev|
      ensures Before(prev[i := head[h]][Slot(q, base, |prev|)], q, ins', seen, base, k)
    {
      if q != p {
        assert q < top;
        SlotsDiffer(q, p, base, |prev|);
        assert Before(prev[Slot(q, base, |prev|)], q, ins, seen, base, k);
      }
    }
  }

  /** An index when the window slides by its half. */
  function Slid(m: nat, wsize: nat): nat { if m >= wsize then m - wsize else 0 }

  lemma LinkedSlid(q: nat, key: nat, ins: set<nat>, seen: seq<Octet>, base: nat, k: Hash, wsize: nat)
    requires Linked(q, key, ins, seen, base, k)
    ensures Linked(Slid(q, wsize), key, ins, seen, base + wsize, k)
  {
    hide KeyAt;
    if q >= wsize { assert base + wsize + (q - wsize) == base + q; }
  }

  lemma ChainedSlide(head: seq<nat>, prev: seq<nat>, head': seq<nat>, prev': seq<nat>, ins: set<nat>, top: nat,
                     seen: seq<Octet>, base: nat, k: Hash)
    requires Chained(head, prev, ins, top, seen, base, k) && |head'| == |head| && |prev'| == |prev|
    requires forall h | 0 <= h < |head| :: head'[h] == Slid(head[h], |prev|)
    requires forall i | 0 <= i < |prev| :: prev'[i] == Slid(prev[i], |prev|)
    ensures Chained(head', prev', ins, top, seen, base + |prev|, k)
  {
    hide KeyAt, Slot;
    forall h | 0 <= h < |head|
      ensures Linked(head'[h], h, ins, seen, base + |prev|, k)
    {
      LinkedSlid(head[h], h, ins, seen, base, k, |prev|);
    }
    forall p | p in ins && p + 3 <= |seen| && top <= p + |prev|
      ensures Before(prev'[Slot(p, base + |prev|, |prev|)], p, ins, seen, base + |prev|, k)
    {
      SlotMoved(p, base, |prev|);
      assert Before(prev[Slot(p, base, |prev|)], p, ins, seen, base, k);
      LinkedSlid(prev[Slot(p, base, |prev|)], KeyAt(k, seen, p), ins, seen, base, k, |prev|);
    }
  }

  class Chains {
    const key: Hash
    const wsize: nat
    const head: array<Pos>
    const prev: array<Pos>

    /** The places in the input whose strings have been inserted since head was last cleared, all before `top`. */
    ghost var ins: set<nat>
    ghost var top: nat

    ghost predicate Valid(seen: seq<Octet>, base: nat)
      reads this, head, prev
    {
      && Suits(key) && head.Length == Pow2(key.bits) && prev.Length == wsize > 0 && head != prev
      && Chained(head[..], prev[..], ins, top, seen, base, key)
    }

    constructor (key: Hash, wsize: nat)
      requires Suits(key) && wsize > 0
      ensures Valid([], 0) && this.key == key && this.wsize == wsize && top == 0 && fresh(head) && fresh(prev)
    {
      hide Pow2;
      this.key, this.wsize := key, wsize;
      head := new Pos[Pow2(key.bits)](_ => 0);
      prev := new Pos[wsize](_ => 0);
      ins, top := {}, 0;
      new;
      ChainedNothing(head[..], prev[..], 0, [], 0, key);
    }

    lemma More(seen: seq<Octet>, more: seq<Octet>, base: nat)
      requires Valid(seen, base) && seen <= more
      ensures Valid(more, base)
    {
      hide Chained;
      ChainedMore(head[..], prev[..], ins, top, seen, more, base, key);
    }

    /** INSERT_STRING, with the key brought up to date by its first line. */
    method Insert(h: nat, str: nat, ghost seen: seq<Octet>, ghost base: nat) returns (found: nat)
      requires Valid(seen, base) && str < 0x10000 && top <= base + str && base + str + 3 <= |seen|
               && h == KeyAt(key, seen, base + str)
      modifies this`ins, this`top, head, prev
      ensures Valid(seen, base) && top == base + str + 1 && ins == old(ins) + {base + str}
      ensures Linked(found, h, ins, seen, base, key) && (found > 0 ==> found < str)
    {
      hide Chained, Pow2, KeyAt;
      KeyInside(key, seen, base + str);
      ghost var heads: seq<nat>, prevs: seq<nat> := head[..], prev[..];
      ChainedInsert(heads, prevs, ins, top, seen, base, key, str);
      found := head[h];
      prev[str % wsize] := found;
      head[h] := str;
      assert base + str - base == str;
      assert head[..] == heads[h := str];
      assert prev[..] == prevs[Slot(base + str, base, wsize) := found];
      ins, top := ins + {base + str}, base + str + 1;
    }

    /** The next older string of a chain, for one less than a window back. */
    lemma Follow(cur: nat, seen: seq<Octet>, base: nat)
      requires Valid(seen, base) && cur > 0 && base + cur in ins && top <= base + cur + wsize
      ensures base + cur + 3 <= |seen| && prev.Length > 0
      ensures var q := prev[cur % wsize];
              q > 0
              ==> q < cur && base + q in ins && base + q + 3 <= |seen|
                  && KeyAt(key, seen, base + q) == KeyAt(key, seen, base + cur)
    {
      hide Key, Pow2;
      assert base + cur - base == cur;
      assert Before(prev[..][Slot(base + cur, base, wsize)], base + cur, ins, seen, base, key);
    }

    /** slide_hash */
    method Slide(ghost seen: seq<Octet>, ghost base: nat)
      requires Valid(seen, base)
      modifies head, prev
      ensures Valid(seen, base + wsize)
    {
      hide Chained, Pow2, Slid;
      ghost var heads, prevs := head[..], prev[..];
      SlideAll(head, wsize);
      SlideAll(prev, wsize);
      ChainedSlide(heads, prevs, head[..], prev[..], ins, top, seen, base, key);
    }

    /** CLEAR_HASH */
    method Clear(ghost seen: seq<Octet>, ghost base: nat, ghost base': nat)
      requires Valid(seen, base)
      modifies this`ins, head
      ensures Valid(seen, base') && ins == {}
    {
      hide Pow2;
      for n := 0 to head.Length
        invariant forall h | 0 <= h < n :: head[h] == 0
      {
        head[n] := 0;
      }
      ins := {};
      ChainedNothing(head[..], prev[..], top, seen, base', key);
    }
  }

  /** The loop of slide_hash for one of the arrays, from its end. */
  method SlideAll(a: array<Pos>, wsize: nat)
    modifies a
    ensures forall i | 0 <= i < a.Length :: a[i] == Slid(old(a[i]), wsize)
  {
    var n := a.Length;
    while n > 0
      invariant 0 <= n <= a.Length
      invariant forall i | 0 <= i < n :: a[i] == old(a[i])
      invariant forall i | n <= i < a.Length :: a[i] == Slid(old(a[i]), wsize)
    {
      n := n - 1;
      a[n] := Slid(a[n], wsize);
    }
  }

  /** A key is an index of head. */
  lemma KeyInside(k: Hash, seen: seq<Octet>, p: nat)
    requires p + 3 <= |seen|
    ensures KeyAt(k, seen, p) < Pow2(k.bits)
  {
    hide Update, Pow2;
    UpdateBelow(k, Update(k, Update(k, 0, seen[p]), seen[p + 1]), seen[p + 2]);
  }
}
