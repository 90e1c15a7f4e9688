/** The fixed codes of section 3.2.6 of RFC 1951, as fixedtables of inflate.c lists their lengths. */
module FixedCodes {
  import opened Kraft
  import opened CanonicalCode
  import opened BlockTables
  import opened TableCode
  import opened BlockCode
  import B = BitReader
  import T = TableSteps

  function FixedLit(): (r: seq<nat>)
    ensures |r| == 288 && forall x | 0 <= x < 288 :: r[x] == FixedLength(x)
  {
    seq<nat>(288, (x: nat) => FixedLength(x))
  }

  function FixedDist(): (r: seq<nat>)
    ensures |r| == 32 && forall x | 0 <= x < 32 :: r[x] == 5
  {
    seq<nat>(32, _ => 5)
  }

  lemma NoRank(lens: seq<nat>, b: nat)
    ensures Rank(lens, 0, b) == 0
  {
  }

  lemma LitCounts(b: nat)
    ensures Count(FixedLit(), b) == if b == 7 then 24 else if b == 8 then 152 else if b == 9 then 112 else 0
  {
    hide FixedLit, Rank;
    var l := FixedLit();
    NoRank(l, b);
    RankRun(l, 0, 144, 8, b);
    RankRun(l, 144, 256, 9, b);
    RankRun(l, 256, 280, 7, b);
    RankRun(l, 280, 288, 8, b);
  }

  lemma DistCounts(b: nat)
    ensures Count(FixedDist(), b) == if b == 5 then 32 else 0
  {
    RankRun(FixedDist(), 0, 32, 5, b);
    hide FixedDist;
  }

  lemma {:induction false} LitRoom(b: nat)
    requires b <= MAX_BITS
    ensures End(FixedLit(), b) <= Pow2(b)
    ensures b <= 7 ==> FirstOf(FixedLit(), b) == 0
    ensures b == 8 ==> FirstOf(FixedLit(), b) == 48
    ensures b >= 9 ==> End(FixedLit(), b) == Pow2(b)
  {
    hide Count, FixedLit;
    LitCounts(b);
    assert Pow2(5) == 32 && Pow2(7) == 4 * Pow2(5) && Pow2(9) == 4 * Pow2(7);
    if b > 0 {
      LitRoom(b - 1);
      LitCounts(b - 1);
    }
  }

  lemma {:induction false} DistRoom(b: nat)
    requires b <= MAX_BITS
    ensures End(FixedDist(), b) <= Pow2(b)
    ensures b <= 5 ==> FirstOf(FixedDist(), b) == 0
    ensures b >= 5 ==> End(FixedDist(), b) == Pow2(b)
  {
    hide Count, FixedDist;
    DistCounts(b);
    assert Pow2(5) == 32;
    if b > 0 {
      DistRoom(b - 1);
      DistCounts(b - 1);
    }
  }

  lemma LitFull()
    ensures Full(FixedLit())
  {
    hide End, Pow2, Count, FirstOf, FixedLit;
    forall b | 0 <= b <= MAX_BITS
      ensures End(FixedLit(), b) <= Pow2(b)
    {
      LitRoom(b);
    }
    LitRoom(MAX_BITS);
    T.AllSubscribed(FixedLit());
  }

  lemma DistFull()
    ensures Full(FixedDist())
  {
    hide End, Pow2, Count, FirstOf, FixedDist;
    forall b | 0 <= b <= MAX_BITS
      ensures End(FixedDist(), b) <= Pow2(b)
    {
      DistRoom(b);
    }
    DistRoom(MAX_BITS);
    T.AllSubscribed(FixedDist());
  }

  // -- Bits that say nothing yet ------------------------------------------------------------------------------------

  lemma {:induction false} OnesValue(n: nat)
    ensures Value(seq(n, _ => true)) == Pow2(n) - 1
  {
    if n > 0 {
      OnesValue(n - 1);
      assert seq(n, _ => true)[..n - 1] == seq(n - 1, _ => true);
    }
  }

  /** State LEN can be resumed with eight bits held and more: no word of the fixed code begins with eight ones, and none
      is shorter than they are. */
  lemma EightHeld()
    ensures B.Decode(FixedLit(), seq(8, _ => true)).More?
  {
    hide FixedLit, Full, Starts;
    var lens, s: seq<bool> := FixedLit(), seq(8, _ => true);
    LitFull();
    forall x: nat
      ensures !Starts(lens, s, x)
    {
      NoOnes(s, x);
    }
  }

  /** The words of seven and eight bits are below the ones of that length; there are no others of at most eight. */
  lemma NoOnes(s: seq<bool>, x: nat)
    requires s == seq(8, _ => true)
    ensures !Starts(FixedLit(), s, x)
  {
    var lens := FixedLit();
    assert Pow2(7) == 128 && Pow2(8) == 256;
    if Starts(lens, s, x) {
      var n := lens[x];
      assert 7 <= n <= 8 && CodeWord(lens, x) == seq(n, _ => true);
      hide FixedLit, Value, FirstOf, Count, Rank, CodeWord;
      LitFull();
      WordValue(lens, x);
      CodeBelow(lens, x);
      OnesValue(n);
      LitCounts(n);
      LitRoom(n);
    }
  }
}
