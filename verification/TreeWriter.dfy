/** scan_tree, send_tree, send_all_trees and compress_block of trees.c, on the arrays of the trees. */
module TreeWriter {
  import opened Kraft
  import opened CanonicalCode
  import opened GenCodes
  import opened BlockTables
  import opened BlockCode
  import opened BlockHeader
  import R = RunLengths
  import W = BitWriter
  import H = HuffmanTree

  // -- send_code ------------------------------------------------------------------------------------------------

  /** The tree's arrays hold the code with the given lengths. */
  ghost predicate Holds(fc: seq<nat>, dl: seq<nat>, lens: seq<nat>) {
    && |lens| <= |fc| == |dl| && dl[..|lens|] == lens
    && (forall x | 0 <= x < |lens| :: lens[x] <= MAX_BITS)
    && (forall x | 0 <= x < |lens| && lens[x] > 0 :: Coded(lens, x, fc[x]))
  }

  method SendCode(w: W.Writer, t: H.Tree, x: nat, ghost lens: seq<nat>)
    requires w.Valid() && Holds(t.fc[..], t.dl[..], lens) && Uses(lens, x)
    modifies w
    ensures w.Valid() && w.Stream() == old(w.Stream()) + Sent(lens, x)
  {
    CodeFacts(t.fc[..], t.dl[..], lens, x);
    hide Holds, Pow2, Bits, CodeWord;
    w.SendBits(t.fc[x], t.dl[x]);
  }

  lemma CodeFacts(fc: seq<nat>, dl: seq<nat>, lens: seq<nat>, x: nat)
    requires Holds(fc, dl, lens) && Uses(lens, x)
    ensures x < |fc| == |dl| && dl[x] == lens[x] <= 16 && fc[x] < Pow2(dl[x]) && Bits(fc[x], dl[x]) == Sent(lens, x)
  {
    assert Coded(lens, x, fc[x]);
    assert dl[..|lens|][x] == dl[x];
    hide Bits, CodeWord, Pow2;
  }

  // -- scan_tree ------------------------------------------------------------------------------------------------

  /** Counts one run. */
  method CountRun(bl: H.Tree, cur: nat, prev: int, count: nat, min: nat)
    requires cur <= 15 && 19 <= bl.fc.Length
    modifies bl.fc
    ensures forall v | 0 <= v < bl.fc.Length :: bl.fc[v] == old(bl.fc[v]) + R.Counted(cur, prev, count, min, v)
  {
    if count < min {
      bl.fc[cur] := bl.fc[cur] + count;
    } else if cur != 0 {
      if cur != prev {
        bl.fc[cur] := bl.fc[cur] + 1;
      }
      bl.fc[R.REP_3_6] := bl.fc[R.REP_3_6] + 1;
    } else if count <= 10 {
      bl.fc[R.REPZ_3_10] := bl.fc[R.REPZ_3_10] + 1;
    } else {
      bl.fc[R.REPZ_11_138] := bl.fc[R.REPZ_11_138] + 1;
    }
  }

  /** What is still to be counted. */
  ghost function Left(lens: seq<nat>, n: nat, prev: int, count: nat, max: nat, min: nat, v: nat): nat
    requires n <= |lens|
  {
    R.Occurrences(R.Runs(lens, n, prev, count, max, min), v)
  }

  lemma LeftStep(lens: seq<nat>, n: nat, prev: int, count: nat, max: nat, min: nat)
    requires n < |lens| && forall x | 0 <= x < |lens| :: lens[x] <= 15
    ensures var cur, next := lens[n], R.Next(lens, n);
      forall v: nat :: Left(lens, n, prev, count, max, min, v)
        == (if count + 1 < max && cur == next then Left(lens, n + 1, prev, count + 1, max, min, v)
            else R.Counted(cur, prev, count + 1, min, v)
                 + Left(lens, n + 1, cur, 0, R.MaxCount(cur, next), R.MinCount(cur, next), v))
  {
    hide R.Counted, R.Occurrences, R.Flush, R.MaxCount, R.MinCount;
    var cur, next := lens[n], R.Next(lens, n);
    if !(count + 1 < max && cur == next) {
      forall v: nat ensures Left(lens, n, prev, count, max, min, v)
        == R.Counted(cur, prev, count + 1, min, v)
           + Left(lens, n + 1, cur, 0, R.MaxCount(cur, next), R.MinCount(cur, next), v)
      {
        R.OccurrencesConcat(R.Flush(cur, prev, count + 1, min),
                            R.Runs(lens, n + 1, cur, 0, R.MaxCount(cur, next), R.MinCount(cur, next)), v);
        R.CountsFlush(cur, prev, count + 1, min, v);
      }
    }
  }

  /** The bounds for the next run. */
  method Bounds(curlen: nat, nextlen: nat) returns (max: nat, min: nat)
    ensures max == R.MaxCount(curlen, nextlen) && min == R.MinCount(curlen, nextlen)
  {
    if nextlen == 0 {
      max, min := 138, 3;
    } else if curlen == nextlen {
      max, min := 6, 3;
    } else {
      max, min := 7, 4;
    }
  }

  method ScanTree(t: H.Tree, bl: H.Tree, maxCode: nat, ghost lens: seq<nat>)
    requires t.fc != bl.fc && t.dl != bl.fc && 19 <= bl.fc.Length && maxCode + 1 < t.dl.Length
    requires lens == t.dl[..maxCode + 1] && forall x | 0 <= x < |lens| :: lens[x] <= 15
    modifies t.dl, bl.fc
    ensures t.dl[..] == old(t.dl[..])[maxCode + 1 := R.GUARD]
    ensures forall v | 0 <= v < bl.fc.Length :: bl.fc[v] == old(bl.fc[v]) + R.Occurrences(R.RunsOf(lens), v)
  {
    var prevlen: int := -1;
    var nextlen := t.dl[0];
    var count: nat, maxCount: nat, minCount: nat := 0, 7, 4;
    if nextlen == 0 {
      maxCount, minCount := 138, 3;
    }
    t.dl[maxCode + 1] := R.GUARD;
    ghost var freq, guarded := bl.fc[..], t.dl[..];
    assert forall x | 0 <= x < |lens| :: guarded[x] == lens[x];
    hide R.Occurrences, R.Counted, R.MaxCount, R.MinCount;
    for n := 0 to maxCode + 1
      invariant t.dl[..] == guarded
      invariant nextlen == if n <= maxCode then lens[n] else R.GUARD
      invariant forall v | 0 <= v < bl.fc.Length ::
        bl.fc[v] + Left(lens, n, prevlen, count, maxCount, minCount, v) == freq[v] + R.Occurrences(R.RunsOf(lens), v)
    {
      LeftStep(lens, n, prevlen, count, maxCount, minCount);
      hide Left, R.RunsOf;
      var curlen := nextlen;
      nextlen := t.dl[n + 1];
      assert nextlen == R.Next(lens, n);
      count := count + 1;
      if count < maxCount && curlen == nextlen {
        continue;
      }
      CountRun(bl, curlen, prevlen, count, minCount);
      count, prevlen := 0, curlen;
      maxCount, minCount := Bounds(curlen, nextlen);
    }
    NothingLeft(lens, prevlen, count, maxCount, minCount);
  }

  lemma NothingLeft(lens: seq<nat>, prev: int, count: nat, max: nat, min: nat)
    ensures forall v: nat :: Left(lens, |lens|, prev, count, max, min, v) == 0
  {
  }

  // -- send_tree ------------------------------------------------------------------------------------------------

  /** The runs can be sent with the given code. */
  ghost predicate CanSend(runs: seq<R.Run>, bl: seq<nat>) {
    forall r | r in runs :: R.Sendable(r) && Uses(bl, R.Symbol(r))
  }

  method SendRun(w: W.Writer, bl: H.Tree, r: R.Run, ghost lens: seq<nat>)
    requires w.Valid() && Holds(bl.fc[..], bl.dl[..], lens) && R.Sendable(r) && Uses(lens, R.Symbol(r))
    modifies w
    ensures w.Valid() && w.Stream() == old(w.Stream()) + RunBits(r, lens)
  {
    RunFacts(r);
    RunBitsAre(w.Stream(), r, lens);
    hide Holds, Pow2, Sent, Bits, RunBits, R.Symbol, R.ExtraBits, R.ExtraValue;
    SendCode(w, bl, R.Symbol(r), lens);
    if !r.Length? {
      w.SendBits(R.ExtraValue(r), R.ExtraBits(r));
    }
  }

  lemma RunBitsAre(stream: seq<bool>, r: R.Run, lens: seq<nat>)
    requires R.Sendable(r)
    ensures stream + RunBits(r, lens)
      == if r.Length? then stream + Sent(lens, R.Symbol(r))
         else stream + Sent(lens, R.Symbol(r)) + Bits(R.ExtraValue(r), R.ExtraBits(r))
  {
    hide Sent;
  }

  lemma RunFacts(r: R.Run)
    requires R.Sendable(r)
    ensures R.Symbol(r) < 19 && R.ExtraBits(r) <= 16 && 0 <= R.ExtraValue(r)
            && (!r.Length? ==> R.ExtraValue(r) < Pow2(R.ExtraBits(r)))
  {
    if !r.Length? { RunExtraFits(r); }
  }

  lemma CopiesAfter(stream: seq<bool>, v: nat, k: nat, lens: seq<nat>)
    ensures stream + RunsBits(R.Copies(v, k), lens) + RunBits(R.Length(v), lens) == stream
            + RunsBits(R.Copies(v, k + 1), lens)
  {
    hide RunBits;
    assert R.Copies(v, k + 1)[..k] == R.Copies(v, k);
  }

  /** Sends one run. */
  method SendFlush(w: W.Writer, bl: H.Tree, curlen: nat, prevlen: int, total: nat, min: nat, ghost lens: seq<nat>)
    requires w.Valid() && Holds(bl.fc[..], bl.dl[..], lens) && 0 < total
             && CanSend(R.Flush(curlen, prevlen, total, min), lens)
    modifies w
    ensures w.Valid() && w.Stream() == old(w.Stream()) + RunsBits(R.Flush(curlen, prevlen, total, min), lens)
  {
    hide Holds, RunBits, R.Symbol, R.Sendable;
    ghost var before, runs := w.Stream(), R.Flush(curlen, prevlen, total, min);
    var count := total;
    if count < min {
      assert runs[0] == R.Length(curlen) && runs[0] in runs;
      assert before + RunsBits([], lens) == before && R.Copies(curlen, 0) == [];
      while count != 0
        invariant w.Valid() && 0 <= count <= total
        invariant w.Stream() == before + RunsBits(R.Copies(curlen, total - count), lens)
      {
        CopiesAfter(before, curlen, total - count, lens);
        SendRun(w, bl, R.Length(curlen), lens);
        count := count - 1;
      }
    } else if curlen != 0 {
      if curlen != prevlen {
        assert runs[0] == R.Length(curlen) && runs[0] in runs && runs[1] in runs;
        TwoRuns(before, R.Length(curlen), runs[1], lens);
        SendRun(w, bl, R.Length(curlen), lens);
        count := count - 1;
      } else {
        OneRun(before, runs[0], lens);
        assert runs[0] in runs;
      }
      SendRun(w, bl, R.Again(count), lens);
    } else if count <= 10 {
      OneRun(before, runs[0], lens);
      assert runs[0] in runs;
      SendRun(w, bl, R.Zeros(count), lens);
    } else {
      OneRun(before, runs[0], lens);
      assert runs[0] in runs;
      SendRun(w, bl, R.ManyZeros(count), lens);
    }
  }

  lemma OneRun(stream: seq<bool>, r: R.Run, lens: seq<nat>)
    ensures stream + RunsBits([r], lens) == stream + RunBits(r, lens)
  {
    hide RunBits;
    assert [r][..0] == [];
  }

  lemma TwoRuns(stream: seq<bool>, a: R.Run, b: R.Run, lens: seq<nat>)
    ensures stream + RunsBits([a, b], lens) == stream + RunBits(a, lens) + RunBits(b, lens)
  {
    hide RunBits;
    assert [a, b][..1] == [a];
    OneRun([], a, lens);
  }

  lemma RunsStep(stream: seq<bool>, lens: seq<nat>, n: nat, prev: int, count: nat, max: nat, min: nat, bl: seq<nat>)
    requires n < |lens| && CanSend(R.Runs(lens, n, prev, count, max, min), bl)
    ensures var cur, next := lens[n], R.Next(lens, n);
      if count + 1 < max && cur == next
        then R.Runs(lens, n, prev, count, max, min) == R.Runs(lens, n + 1, prev, count + 1, max, min)
      else
        var f, rest := R.Flush(cur, prev, count + 1, min),
          R.Runs(lens, n + 1, cur, 0, R.MaxCount(cur, next), R.MinCount(cur, next));
        CanSend(f, bl) && CanSend(rest, bl)
        && stream + RunsBits(R.Runs(lens, n, prev, count, max, min), bl) == stream + RunsBits(f, bl)
           + RunsBits(rest, bl)
  {
    hide R.Flush, R.MaxCount, R.MinCount, RunsBits, R.Sendable, R.Symbol;
    var cur, next := lens[n], R.Next(lens, n);
    if !(count + 1 < max && cur == next) {
      RunsConcat(R.Flush(cur, prev, count + 1, min),
                 R.Runs(lens, n + 1, cur, 0, R.MaxCount(cur, next), R.MinCount(cur, next)), bl);
    }
  }

  /** What is still to be sent completes the stream. */
  ghost predicate SendsRest(stream: seq<bool>, lens: seq<nat>, n: nat, prev: int, count: nat, max: nat, min: nat,
                            bl: seq<nat>, whole: seq<bool>) {
    && n <= |lens| && CanSend(R.Runs(lens, n, prev, count, max, min), bl)
    && stream + RunsBits(R.Runs(lens, n, prev, count, max, min), bl) == whole
  }

  lemma SendsNext(stream: seq<bool>, lens: seq<nat>, n: nat, prev: int, count: nat, max: nat, min: nat, bl: seq<nat>,
                  whole: seq<bool>)
    requires n < |lens| && SendsRest(stream, lens, n, prev, count, max, min, bl, whole)
    ensures var cur, next := lens[n], R.Next(lens, n);
      if count + 1 < max && cur == next then SendsRest(stream, lens, n + 1, prev, count + 1, max, min, bl, whole)
      else
        && CanSend(R.Flush(cur, prev, count + 1, min), bl)
        && SendsRest(stream + RunsBits(R.Flush(cur, prev, count + 1, min), bl), lens, n + 1, cur, 0,
                     R.MaxCount(cur, next), R.MinCount(cur, next), bl, whole)
  {
    hide R.Flush, R.MaxCount, R.MinCount, RunsBits, CanSend, R.Runs;
    RunsStep(stream, lens, n, prev, count, max, min, bl);
  }

  /** One turn of send_tree. */
  method SendNext(w: W.Writer, bl: H.Tree, curlen: nat, nextlen: nat, prevlen: int, count: nat, maxCount: nat,
                  minCount: nat,
                  ghost lens: seq<nat>, ghost n: nat, ghost bllens: seq<nat>, ghost whole: seq<bool>)
    returns (prevlen': int, count': nat, maxCount': nat, minCount': nat)
    requires w.Valid() && Holds(bl.fc[..], bl.dl[..], bllens) && n < |lens| && curlen == lens[n]
             && nextlen == R.Next(lens, n)
    requires SendsRest(w.Stream(), lens, n, prevlen, count, maxCount, minCount, bllens, whole)
    modifies w
    ensures w.Valid() && SendsRest(w.Stream(), lens, n + 1, prevlen', count', maxCount', minCount', bllens, whole)
  {
    hide Holds, CanSend, RunsBits, R.MaxCount, R.MinCount, SendsRest, R.Flush, W.Writer.Stream, W.Writer.Valid;
    SendsNext(w.Stream(), lens, n, prevlen, count, maxCount, minCount, bllens, whole);
    prevlen', count', maxCount', minCount' := prevlen, count + 1, maxCount, minCount;
    if count' < maxCount && curlen == nextlen {
      return;
    }
    SendFlush(w, bl, curlen, prevlen, count', minCount, bllens);
    count', prevlen' := 0, curlen;
    maxCount', minCount' := Bounds(curlen, nextlen);
  }

  method SendTree(w: W.Writer, t: H.Tree, bl: H.Tree, maxCode: nat, ghost lens: seq<nat>, ghost bllens: seq<nat>)
    requires w.Valid() && Holds(bl.fc[..], bl.dl[..], bllens) && maxCode + 1 < t.dl.Length
             && t.dl[maxCode + 1] == R.GUARD
    requires lens == t.dl[..maxCode + 1] && CanSend(R.RunsOf(lens), bllens)
    modifies w
    ensures w.Valid() && w.Stream() == old(w.Stream()) + RunsBits(R.RunsOf(lens), bllens)
  {
    var prevlen: int := -1;
    var nextlen := t.dl[0];
    var count: nat, maxCount: nat, minCount: nat := 0, 7, 4;
    if nextlen == 0 {
      maxCount, minCount := 138, 3;
    }
    ghost var whole := w.Stream() + RunsBits(R.RunsOf(lens), bllens);
    assert forall x | 0 <= x < |lens| :: t.dl[x] == lens[x];
    assert SendsRest(w.Stream(), lens, 0, prevlen, count, maxCount, minCount, bllens, whole);
    hide Holds, CanSend, RunsBits, SendsRest, R.RunsOf, W.Writer.Stream, W.Writer.Valid;
    for n := 0 to maxCode + 1
      invariant w.Valid() && nextlen == if n <= maxCode then lens[n] else R.GUARD
      invariant SendsRest(w.Stream(), lens, n, prevlen, count, maxCount, minCount, bllens, whole)
    {
      var curlen := nextlen;
      nextlen := t.dl[n + 1];
      prevlen, count, maxCount, minCount :=
        SendNext(w, bl, curlen, nextlen, prevlen, count, maxCount, minCount, lens, n, bllens, whole);
    }
    NoRunsLeft(w.Stream(), lens, prevlen, count, maxCount, minCount, bllens, whole);
  }

  lemma NoRunsLeft(stream: seq<bool>, lens: seq<nat>, prev: int, count: nat, max: nat, min: nat, bl: seq<nat>,
                   whole: seq<bool>)
    requires SendsRest(stream, lens, |lens|, prev, count, max, min, bl, whole)
    ensures stream == whole
  {
  }
}
