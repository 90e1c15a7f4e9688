/** Sums over sets of tree nodes, and the Kraft sum of a code given by its lengths. */
module Kraft {
  function Pow2(n: nat): (r: nat)
    ensures r > 0
  {
    if n == 0 then 1 else 2 * Pow2(n - 1)
  }

  lemma {:induction false} Pow2Add(a: nat, b: nat)
    ensures Pow2(a + b) == Pow2(a) * Pow2(b)
  {
    if a > 0 {
      Pow2Add(a - 1, b);
      assert Pow2(a) * Pow2(b) == 2 * (Pow2(a - 1) * Pow2(b));
    }
  }

  lemma {:induction false} Pow2Monotone(a: nat, b: nat)
    requires a <= b
    ensures Pow2(a) <= Pow2(b) && (a < b ==> 2 * Pow2(a) <= Pow2(b))
    decreases b
  {
    if a < b { Pow2Monotone(a, b - 1); }
  }

  /** The sum of f over the elements of a. */
  function Sum(a: set<nat>, f: seq<int>): int {
    if f == [] then 0 else Sum(a, f[..|f| - 1]) + if |f| - 1 in a then f[|f| - 1] else 0
  }

  lemma {:induction false} SumSame(a: set<nat>, b: set<nat>, f: seq<int>, g: seq<int>)
    requires |f| == |g| && forall x: nat | x < |f| :: (x in a <==> x in b) && (x in a ==> f[x] == g[x])
    ensures Sum(a, f) == Sum(b, g)
  {
    if f != [] { SumSame(a, b, f[..|f| - 1], g[..|f| - 1]); }
  }

  lemma {:induction false} SumAdd(a: set<nat>, f: seq<int>, x: nat)
    requires x !in a && x < |f|
    ensures Sum(a + {x}, f) == Sum(a, f) + f[x]
  {
    var n := |f| - 1;
    if x == n { SumSame(a + {x}, a, f[..n], f[..n]); } else { SumAdd(a, f[..n], x); }
  }

  lemma SumRemove(a: set<nat>, f: seq<int>, x: nat)
    requires x in a && x < |f|
    ensures Sum(a - {x}, f) == Sum(a, f) - f[x]
  {
    SumAdd(a - {x}, f, x);
    assert a - {x} + {x} == a;
  }

  lemma {:induction false} SumUpdate(a: set<nat>, f: seq<int>, x: nat, v: int)
    requires x < |f|
    ensures Sum(a, f[x := v]) == Sum(a, f) + if x in a then v - f[x] else 0
  {
    var n := |f| - 1;
    if x == n {
      assert f[x := v][..n] == f[..n];
    } else {
      assert f[x := v][..n] == f[..n][x := v];
      SumUpdate(a, f[..n], x, v);
    }
  }

  lemma {:induction false} SumEmpty(f: seq<int>)
    ensures Sum({}, f) == 0
  {
    if f != [] { SumEmpty(f[..|f| - 1]); }
  }

  lemma {:induction false} SumAtLeast(a: set<nat>, f: seq<int>)
    requires forall x: nat | x in a && x < |f| :: f[x] >= 0
    ensures Sum(a, f) >= 0
  {
    if f != [] { SumAtLeast(a, f[..|f| - 1]); }
  }

  lemma {:induction false} SumMultiple(a: set<nat>, f: seq<int>, d: nat) returns (q: int)
    requires d > 0 && forall x: nat | x in a && x < |f| :: exists k :: f[x] == d * k
    ensures Sum(a, f) == d * q
  {
    if f == [] {
      q := 0;
    } else {
      var n := |f| - 1;
      q := SumMultiple(a, f[..n], d);
      if n in a {
        var k :| f[n] == d * k;
        assert d * q + d * k == d * (q + k);
        q := q + k;
      }
    }
  }

  /** The share of the code space that each code word takes, in units of Pow2(-scale). */
  function Shares(lens: seq<nat>, scale: nat): (r: seq<nat>)
    ensures |r| == |lens| && forall x: nat | x < |lens| :: r[x] == if lens[x] <= scale then Pow2(scale - lens[x]) else 0
  {
    seq(|lens|, (x: nat) requires x < |lens| => if lens[x] <= scale then Pow2(scale - lens[x]) else 0)
  }

  function Products(w: seq<nat>, lens: seq<nat>): (r: seq<nat>)
    requires |w| == |lens|
    ensures |r| == |lens| && forall x: nat | x < |lens| :: r[x] == w[x] * lens[x]
  {
    seq(|lens|, (x: nat) requires x < |lens| => w[x] * lens[x])
  }

  function KraftSum(a: set<nat>, lens: seq<nat>, scale: nat): int { Sum(a, Shares(lens, scale)) }

  /** The number of bits to send every symbol of a as often as w says. */
  function Cost(a: set<nat>, w: seq<nat>, lens: seq<nat>): int
    requires |w| == |lens|
  {
    Sum(a, Products(w, lens))
  }

  /** Lengths that satisfy Kraft's inequality. */
  ghost predicate Fits(a: set<nat>, lens: seq<nat>, scale: nat) {
    (forall x | x in a :: x < |lens| && lens[x] <= scale) && KraftSum(a, lens, scale) <= Pow2(scale)
  }

  lemma KraftSame(a: set<nat>, lens: seq<nat>, lens': seq<nat>, scale: nat)
    requires |lens| == |lens'| && forall x | x in a && x < |lens| :: lens'[x] == lens[x]
    ensures KraftSum(a, lens', scale) == KraftSum(a, lens, scale)
  {
    SumSame(a, a, Shares(lens', scale), Shares(lens, scale));
  }

  lemma CostSame(a: set<nat>, w: seq<nat>, lens: seq<nat>, lens': seq<nat>)
    requires |w| == |lens| == |lens'| && forall x | x in a && x < |lens| :: lens'[x] == lens[x]
    ensures Cost(a, w, lens') == Cost(a, w, lens)
  {
    SumSame(a, a, Products(w, lens'), Products(w, lens));
  }

  lemma KraftUpdate(a: set<nat>, lens: seq<nat>, scale: nat, x: nat, v: nat)
    requires x in a && x < |lens| && lens[x] <= scale && v <= scale
    ensures KraftSum(a, lens[x := v], scale) == KraftSum(a, lens, scale) - Pow2(scale - lens[x]) + Pow2(scale - v)
  {
    assert Shares(lens[x := v], scale) == Shares(lens, scale)[x := Pow2(scale - v)];
    SumUpdate(a, Shares(lens, scale), x, Pow2(scale - v));
  }

  lemma CostUpdate(a: set<nat>, w: seq<nat>, lens: seq<nat>, x: nat, v: nat)
    requires x in a && x < |lens| == |w|
    ensures Cost(a, w, lens[x := v]) == Cost(a, w, lens) - w[x] * lens[x] + w[x] * v
  {
    assert Products(w, lens[x := v]) == Products(w, lens)[x := w[x] * v];
    SumUpdate(a, Products(w, lens), x, w[x] * v);
  }

  // -- Prefix codes -----------------------------------------------------------------------------------------------

  /** No code word of a is a prefix of another. */
  ghost predicate PrefixFree(a: set<nat>, code: seq<seq<bool>>) {
    && (forall x | x in a :: x < |code|)
    && (forall x, y | x in a && y in a && x != y :: !(code[x] <= code[y]))
  }

  function Lengths(code: seq<seq<bool>>): (r: seq<nat>)
    ensures |r| == |code| && forall x: nat | x < |code| :: r[x] == |code[x]|
  {
    seq(|code|, (x: nat) requires x < |code| => |code[x]|)
  }

  function Tails(code: seq<seq<bool>>): (r: seq<seq<bool>>)
    ensures |r| == |code| && forall x: nat | x < |code| :: r[x] == if code[x] == [] then [] else code[x][1..]
  {
    seq(|code|, (x: nat) requires x < |code| => if code[x] == [] then [] else code[x][1..])
  }

  lemma {:induction false} SumDisjoint(a: set<nat>, b: set<nat>, f: seq<int>)
    requires a !! b
    ensures Sum(a + b, f) == Sum(a, f) + Sum(b, f)
  {
    if f != [] { SumDisjoint(a, b, f[..|f| - 1]); }
  }

  /** The words that start with a given bit take no more than half of the code space. */
  lemma Half(a: set<nat>, code: seq<seq<bool>>, scale: nat, bit: bool)
    requires PrefixFree(a, code) && scale > 0 && forall x | x in a :: 0 < |code[x]| <= scale && code[x][0] == bit
    ensures PrefixFree(a, Tails(code))
            && KraftSum(a, Lengths(code), scale) == KraftSum(a, Lengths(Tails(code)), scale - 1)
  {
    var tails := Tails(code);
    forall x, y | x in a && y in a && x != y ensures !(tails[x] <= tails[y]) {
      assert !(code[x] <= code[y]);
      assert code[x] == [bit] + tails[x] && code[y] == [bit] + tails[y];
    }
    SumSame(a, a, Shares(Lengths(code), scale), Shares(Lengths(tails), scale - 1));
  }

  lemma EmptyWordAlone(a: set<nat>, code: seq<seq<bool>>, scale: nat, x: nat)
    requires PrefixFree(a, code) && x in a && code[x] == []
    ensures a == {x} && KraftSum(a, Lengths(code), scale) == Pow2(scale)
  {
    forall y | y in a ensures y == x { assert code[x] <= code[y]; }
    assert a == {} + {x};
    SumEmpty(Shares(Lengths(code), scale));
    SumAdd({}, Shares(Lengths(code), scale), x);
  }

  /** The words of a that start with the given bit. */
  function Starting(a: set<nat>, code: seq<seq<bool>>, bit: bool): (r: set<nat>)
    ensures r <= a && forall x | x in a :: x in r <==> x < |code| && code[x] != [] && code[x][0] == bit
  {
    set x | x in a && x < |code| && code[x] != [] && code[x][0] == bit
  }

  lemma Halves(a: set<nat>, code: seq<seq<bool>>, scale: nat)
    requires PrefixFree(a, code) && scale > 0 && forall x | x in a :: 0 < |code[x]| <= scale
    ensures var zero, one := Starting(a, code, false), Starting(a, code, true);
      && PrefixFree(zero, Tails(code)) && PrefixFree(one, Tails(code))
      && KraftSum(a, Lengths(code), scale) == KraftSum(zero, Lengths(Tails(code)), scale - 1)
         + KraftSum(one, Lengths(Tails(code)), scale - 1)
  {
    var zero, one := Starting(a, code, false), Starting(a, code, true);
    assert a == zero + one;
    SumDisjoint(zero, one, Shares(Lengths(code), scale));
    assert PrefixFree(zero, code) && PrefixFree(one, code);
    Half(zero, code, scale, false);
    Half(one, code, scale, true);
  }

  /** Kraft's inequality. */
  lemma {:induction false} PrefixCodesFit(a: set<nat>, code: seq<seq<bool>>, scale: nat)
    requires PrefixFree(a, code) && forall x | x in a :: |code[x]| <= scale
    ensures KraftSum(a, Lengths(code), scale) <= Pow2(scale)
    decreases scale
  {
    if x :| x in a && code[x] == [] {
      EmptyWordAlone(a, code, scale, x);
    } else if a == {} {
      SumEmpty(Shares(Lengths(code), scale));
    } else {
      assert scale > 0;
      hide PrefixFree, KraftSum;
      Halves(a, code, scale);
      var zero, one := Starting(a, code, false), Starting(a, code, true);
      forall x | x in zero ensures |Tails(code)[x]| <= scale - 1 { }
      forall x | x in one ensures |Tails(code)[x]| <= scale - 1 { }
      PrefixCodesFit(zero, Tails(code), scale - 1);
      PrefixCodesFit(one, Tails(code), scale - 1);
    }
  }
}
