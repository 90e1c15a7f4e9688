/** Any split of a stream's input and of the space for its output over calls of inflate gives the same result. */
module Resumable {
  import opened Kraft
  import B = BitReader
  import S = InflateStep
  import O = OutputBuffer
  import W = Window
  import A = Adler32
  import I = Inflate

  type Octet = A.Octet

  /** What one call is given. */
  datatype Portion = Portion(more: seq<Octet>, room: nat)

  function AllInput(plan: seq<Portion>): seq<Octet> {
    if plan == [] then [] else AllInput(plan[..|plan| - 1]) + plan[|plan| - 1].more
  }

  /** The stream has ended, is in error, or is used up with space for output to spare. */
  ghost predicate Ended(z: I.Inflate)
    reads z, z.o
  {
    z.mode.Done? || z.mode.Bad? || (z.left == [] && z.o.put < z.o.end)
  }

  lemma EndStuck(z: I.Inflate)
    requires z.Valid() && z.Stops() && Ended(z)
    ensures S.Stuck(z.Cfg(), z.Abs(z.left))
  {
    hide S.Stuck, Pow2;
    if z.mode.Done? || z.mode.Bad? {
      S.AtRest(z.Cfg(), z.Abs(z.left));
    } else {
      z.r.RestHeld();
      assert z.r.Rest() + [] == z.r.Rest();
      assert z.Abs(z.left) == z.Held();
    }
  }

  /** Two inflaters on one stream that have both ended agree on the output, the state and the check value.  Windows
      smaller than 32K need a stream without distances beyond them. */
  lemma SameResult(a: I.Inflate, b: I.Inflate)
    requires a.Valid() && a.Started() && a.Stops() && Ended(a) && b.Valid() && b.Started() && b.Stops() && Ended(b)
    requires a.total == b.total && a.Cfg() == b.Cfg()
    requires a.Cfg().wsize >= 32768 || !S.ReachesFar(a.Cfg(), S.First(a.total))
    ensures a.o.All() == b.o.All() && a.mode == b.mode && a.last == b.last && a.r.Rest() + a.left == b.r.Rest() + b.left
    ensures a.Ready() && b.Ready() && a.wrap ==> a.check == b.check
  {
    hide S.Stuck, S.Tracks, S.ReachesFar, S.First, I.Inflate.Sound, I.Inflate.Lean, A.Adler, W.Holds, Pow2;
    a.ValidParts();
    b.ValidParts();
    EndStuck(a);
    EndStuck(b);
    S.OneResult(a.Cfg(), a.total, a.Abs(a.left), b.Abs(b.left));
  }

  lemma InputNext(plan: seq<Portion>, i: nat)
    requires i < |plan|
    ensures AllInput(plan[..i + 1]) == AllInput(plan[..i]) + plan[i].more
  {
    assert plan[..i + 1][..i] == plan[..i];
  }

  lemma {:induction false} InputPrefix(plan: seq<Portion>, i: nat)
    requires i <= |plan|
    ensures AllInput(plan[..i]) <= AllInput(plan)
    decreases |plan| - i
  {
    if i < |plan| {
      InputNext(plan, i);
      InputPrefix(plan, i + 1);
    } else {
      assert plan[..i] == plan;
    }
  }

  lemma LeftNext(total: seq<bool>, plan: seq<Portion>, i: nat)
    requires i < |plan| && B.Stream(AllInput(plan)) <= total
    ensures |B.Stream(AllInput(plan[..i]))| <= |total| && |B.Stream(AllInput(plan[..i + 1]))| <= |total|
    ensures B.Stream(plan[i].more) <= total[|B.Stream(AllInput(plan[..i]))|..]
    ensures total[|B.Stream(AllInput(plan[..i]))|..][|B.Stream(plan[i].more)|..]
            == total[|B.Stream(AllInput(plan[..i + 1]))|..]
  {
    hide B.Stream, AllInput;
    InputPrefix(plan, i + 1);
    InputNext(plan, i);
    var a, b, c := AllInput(plan[..i]), AllInput(plan[..i + 1]), AllInput(plan);
    B.StreamConcat(a, plan[i].more);
    B.StreamConcat(b, c[|b|..]);
    assert c == b + c[|b|..];
    Suffixes(total, B.Stream(a), B.Stream(plan[i].more), B.Stream(c[|b|..]));
  }

  lemma Suffixes(total: seq<bool>, s: seq<bool>, t: seq<bool>, u: seq<bool>)
    requires (s + t) + u <= total
    ensures |s + t| <= |total| && t <= total[|s|..] && total[|s|..][|t|..] == total[|s + t|..]
  {
  }

  /** What a session keeps between calls. */
  ghost predicate Going(z: I.Inflate, out: seq<Octet>, left: seq<bool>)
    reads z, z.r, z.o, z.o.buf, z.fixed, z.lenTable, z.distTable, z.win, z.win.data
  {
    z.Valid() && z.Ready() && z.Started() && z.memory && out == z.o.All() && z.left == left
  }

  method Next(z: I.Inflate, p: Portion, divide: bool, ghost out: seq<Octet>, ghost left: seq<bool>)
      returns (more: seq<Octet>)
    requires Going(z, out, left) && B.Stream(p.more) <= left
    modifies z, z.r, z.o, z.lens, z.work, z.codes, z.win, z.win.data
    ensures Going(z, out + more, left[|B.Stream(p.more)|..]) && Stopped(z)
            && (z.win.data == old(z.win.data) || fresh(z.win.data))
    ensures z.o.put == |more| && z.o.end == p.room
  {
    hide B.Stream, I.Inflate.Sound, I.Inflate.Lean, S.Tracks, S.First, S.Stuck, A.Adler, W.Holds, Pow2, I.Inflate.Ready,
         I.Inflate.Started;
    var space := new Octet[p.room](_ => 0);
    var ret := z.Call(p.more, space, 0, p.room, false, true, divide);
    z.ValidParts();
    more := space[0..z.o.put];
  }

  /** A whole session: one inflater, called with each portion in turn. */
  method Session(wbits: nat, wrap: bool, plan: seq<Portion>, divide: bool, ghost total: seq<bool>)
      returns (z: I.Inflate, out: seq<Octet>)
    requires |total| % 8 == 0 && B.Stream(AllInput(plan)) <= total
    ensures fresh(z) && Going(z, out, total[|B.Stream(AllInput(plan))|..]) && (plan != [] ==> Stopped(z))
    ensures z.total == total && z.Cfg() == S.Config(Pow2(wbits), wrap)
    ensures plan != [] ==> z.o.end == plan[|plan| - 1].room && z.o.put <= |out|
  {
    hide B.Stream, I.Inflate.Valid, I.Inflate.Stops, Pow2, Going;
    z := Begin(wbits, wrap, total);
    out := [];
    NothingYet(total, plan);
    ghost var left := total;
    for i := 0 to |plan|
      invariant fresh(z) && fresh(z.r) && fresh(z.o) && fresh(z.win) && fresh(z.lens) && fresh(z.work) && fresh(z.codes)
                && fresh(z.fixed)
      invariant z.win.data != null ==> fresh(z.win.data)
      invariant |B.Stream(AllInput(plan[..i]))| <= |total| && left == total[|B.Stream(AllInput(plan[..i]))|..]
      invariant Going(z, out, left) && (i > 0 ==> Stopped(z) && z.o.end == plan[i - 1].room && z.o.put <= |out|)
    {
      LeftNext(total, plan, i);
      var more := Next(z, plan[i], divide, out, left);
      left := left[|B.Stream(plan[i].more)|..];
      out := out + more;
    }
    assert plan[..|plan|] == plan;
  }

  method Begin(wbits: nat, wrap: bool, ghost total: seq<bool>) returns (z: I.Inflate)
    requires |total| % 8 == 0
    ensures fresh(z) && fresh(z.r) && fresh(z.o) && fresh(z.win) && fresh(z.lens) && fresh(z.work) && fresh(z.codes)
            && fresh(z.fixed)
    ensures Going(z, [], total) && (z.win.data != null ==> fresh(z.win.data)) && z.total == total
            && z.Cfg() == S.Config(Pow2(wbits), wrap)
  {
    hide B.Stream, I.Inflate.Valid, Pow2, I.Inflate.Ready, I.Inflate.Started, Going;
    z := new I.Inflate(wbits, wrap, total);
    z.ValidParts();
    Begun(z, total);
  }

  ghost predicate Stopped(z: I.Inflate)
    reads z, z.r, z.o, z.o.buf
  {
    z.o.Valid() && z.Stops()
  }

  lemma Begun(z: I.Inflate, total: seq<bool>)
    requires z.Valid() && z.Ready() && z.Started() && z.memory && z.o.Valid() && z.o.All() == [] && z.left == total
    ensures Going(z, [], total)
  {
  }

  /** Two sessions on the same stream, however split: when both have ended, they agree. */
  method Splits(wbits: nat, wrap: bool, p: seq<Portion>, q: seq<Portion>, divide: bool, divide': bool,
                ghost total: seq<bool>)
    returns (a: I.Inflate, b: I.Inflate, out: seq<Octet>, out': seq<Octet>)
    requires |total| % 8 == 0 && p != [] && q != [] && B.Stream(AllInput(p)) <= total && B.Stream(AllInput(q)) <= total
    requires wbits >= 15 || !S.ReachesFar(S.Config(Pow2(wbits), wrap), S.First(total))
    ensures Ended(a) && Ended(b) ==> out == out' && a.mode == b.mode && (wrap ==> a.check == b.check)
  {
    hide B.Stream, I.Inflate.Sound, I.Inflate.Lean, S.Tracks, S.First, S.Stuck, A.Adler, W.Holds, S.ReachesFar;
    a, out := Session(wbits, wrap, p, divide, total);
    b, out' := Session(wbits, wrap, q, divide', total);
    if wbits >= 15 { LargeWindow(wbits); }
    if Ended(a) && Ended(b) { SameResult(a, b); }
  }

  lemma LargeWindow(wbits: nat)
    requires wbits >= 15
    ensures Pow2(wbits) >= 32768
  {
    Pow2Monotone(15, wbits);
    assert Pow2(5) == 32 && Pow2(10) == 32 * Pow2(5) && Pow2(15) == 32 * Pow2(10);
  }

  lemma NothingYet(total: seq<bool>, plan: seq<Portion>)
    ensures |B.Stream(AllInput(plan[..0]))| == 0 && total[|B.Stream(AllInput(plan[..0]))|..] == total
  {
    assert plan[..0] == [];
  }
}
