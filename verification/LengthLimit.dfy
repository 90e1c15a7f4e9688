/** The overflow loop of gen_bitlen: moving leaves down until the counts by length are those of a full code again. */
module LengthLimit {
  import opened Kraft
  import opened TreeLengths

  /** Counts of at most 2^max symbols whose Kraft sum is in excess by half of `overflow`. */
  ghost predicate Excess(counts: seq<nat>, max: nat, overflow: nat) {
    && 0 < max < |counts| && counts[0] == 0 && overflow % 2 == 0
    && CountSum(counts, max) <= Pow2(max)
    && KraftCounts(counts, max, max) == Pow2(max) + overflow / 2
    && (overflow > 0 ==> counts[max] > overflow / 2)
  }

  lemma {:induction false} OnlyLongest(counts: seq<nat>, max: nat, b: nat, scale: nat)
    requires b < max < |counts| && max <= scale && forall i | 0 <= i <= b :: counts[i] == 0
    ensures KraftCounts(counts, b, scale) == 0 && CountSum(counts, b) == 0
  {
    ZeroCounts(counts, b, scale);
  }

  /** The excess leaves some symbol shorter than the maximum, so the search for one cannot fail. */
  lemma ShorterExists(counts: seq<nat>, max: nat, overflow: nat)
    requires Excess(counts, max, overflow) && overflow > 0
    ensures exists b :: 0 < b < max && counts[b] > 0
  {
    if forall b | 0 < b < max :: counts[b] == 0 {
      OnlyLongest(counts, max, max - 1, max);
    }
  }

  /** One turn of the loop. */
  lemma MoveOne(counts: seq<nat>, max: nat, overflow: nat, bits: nat)
    requires Excess(counts, max, overflow) && overflow > 0 && 0 < bits < max && counts[bits] > 0
    ensures var c1 := counts[bits := counts[bits] - 1]; var c2 := c1[bits + 1 := c1[bits + 1] + 2];
      c2[max] > 0 && Excess(c2[max := c2[max] - 1], max, overflow - 2)
      && CountSum(c2[max := c2[max] - 1], max) == CountSum(counts, max)
  {
    var c1 := counts[bits := counts[bits] - 1];
    var c2 := c1[bits + 1 := c1[bits + 1] + 2];
    var c3 := c2[max := c2[max] - 1];
    KraftCountsUpdate(counts, max, max, bits, counts[bits] - 1);
    KraftCountsUpdate(c1, max, max, bits + 1, c1[bits + 1] + 2);
    KraftCountsUpdate(c2, max, max, max, c2[max] - 1);
    CountSumUpdate(counts, max, bits, counts[bits] - 1);
    CountSumUpdate(c1, max, bits + 1, c1[bits + 1] + 2);
    CountSumUpdate(c2, max, max, c2[max] - 1);
    hide KraftCounts, CountSum;
    assert Pow2(max - bits) == 2 * Pow2(max - (bits + 1)) && Pow2(max - max) == 1;
    hide Pow2;
    assert (counts[bits] - 1 - counts[bits]) * Pow2(max - bits) == 0 - Pow2(max - bits);
    assert (c1[bits + 1] + 2 - c1[bits + 1]) * Pow2(max - (bits + 1)) == 2 * Pow2(max - (bits + 1));
    assert (c2[max] - 1 - c2[max]) * Pow2(max - max) == 0 - 1;
  }

  /** The do-while loop. */
  method MoveOverflow(blCount: array<nat>, max: nat, excess: nat)
    requires Excess(blCount[..], max, excess) && excess > 0
    modifies blCount
    ensures blCount[0] == 0 && KraftCounts(blCount[..], max, max) == Pow2(max)
    ensures CountSum(blCount[..], max) == old(CountSum(blCount[..], max))
    ensures forall b | max < b < blCount.Length :: blCount[b] == old(blCount[b])
  {
    var overflow := excess;
    while overflow > 0
      invariant Excess(blCount[..], max, overflow)
      invariant CountSum(blCount[..], max) == old(CountSum(blCount[..], max))
      invariant forall b | max < b < blCount.Length :: blCount[b] == old(blCount[b])
    {
      ShorterExists(blCount[..], max, overflow);
      var bits := max - 1;
      while blCount[bits] == 0
        invariant 0 < bits < max && exists b :: 0 < b <= bits && blCount[..][b] > 0
        decreases bits
      {
        bits := bits - 1;
      }
      ghost var counts := blCount[..];
      MoveOne(counts, max, overflow, bits);
      blCount[bits] := blCount[bits] - 1;
      assert blCount[..] == counts[bits := counts[bits] - 1];
      blCount[bits + 1] := blCount[bits + 1] + 2;
      blCount[max] := blCount[max] - 1;
      assert blCount[..] == counts[bits := counts[bits] - 1][bits + 1 := counts[bits + 1] + 2][max := blCount[max]];
      overflow := overflow - 2;
    }
  }
}
