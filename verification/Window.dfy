/** The sliding window of inflate.c: a circular buffer that always holds the end of the output. */
module Window {
  import opened Kraft
  import A = Adler32

  type Octet = A.Octet

  /** The last n elements. */
  function Last(s: seq<Octet>, n: nat): (r: seq<Octet>)
    requires n <= |s|
    ensures |r| == n
  {
    s[|s| - n..]
  }

  function Min(a: nat, b: nat): nat { if a < b then a else b }

  /** The index of the byte at distance d, 1 being the last byte written. */
  function IndexBack(size: nat, next: nat, d: nat): int { if d <= next then next - d else size + next - d }

  /** s written over d from `to` on. */
  function Put(d: seq<Octet>, to: nat, s: seq<Octet>): (r: seq<Octet>)
    requires to + |s| <= |d|
    ensures |r| == |d|
  {
    d[..to] + s + d[to + |s|..]
  }

  class Window {
    var data: array?<Octet>
    const wbits: nat
    var wsize: nat
    var wnext: nat
    var whave: nat
    ghost var seen: seq<Octet>

    /** What a window holds: the last `whave` bytes, oldest at `wnext` once it is full. */
    ghost predicate Valid()
      reads this, data
    {
      && (data != null ==> data.Length == Pow2(wbits))
      && (wsize == 0 ==> whave == 0 && wnext == 0 && seen == [])
      && (wsize > 0 ==> wsize == Pow2(wbits) && data != null && Holds(data[..], wnext, whave, seen))
    }

    constructor (wbits: nat)
      ensures Valid() && this.wbits == wbits && seen == [] && data == null
    {
      data, wsize, wnext, whave, seen := null, 0, 0, 0, [];
      this.wbits := wbits;
    }

    /** The byte at a distance before the output of this call. */
    lemma Back(d: nat)
      requires Valid() && wsize > 0 && 1 <= d <= whave
      ensures data != null && whave <= |seen| && 0 <= IndexBack(wsize, wnext, d) < data.Length == wsize
      ensures data[IndexBack(wsize, wnext, d)] == seen[|seen| - d]
    {
      assert data[..][IndexBack(wsize, wnext, d)] == seen[|seen| - d];
    }

    lemma Sizes()
      requires Valid()
      ensures wsize > 0
              ==> wsize == Pow2(wbits) && whave == Min(wsize, |seen|) && wnext < wsize
                  && (whave == wsize || wnext == whave)
      ensures wsize == 0 ==> whave == 0
    {
    }

    /** zmemcpy into the window. */
    method Copy(to: nat, source: array<Octet>, from: nat, n: nat)
      requires data != null && source != data && to + n <= data.Length && from + n <= source.Length
      modifies data
      ensures data[..] == Put(old(data[..]), to, source[from..from + n])
    {
      forall i | 0 <= i < n { data[to + i] := source[from + i]; }
    }

    /** The last part of updatewindow, for less than a whole window: around the end if need be. */
    method Around(output: array<Octet>, end: nat, copy: nat)
      requires Valid() && wsize > 0 && copy < wsize && copy <= end <= output.Length && output != data
      modifies this`wnext, this`whave, data
      ensures wnext < wsize && Holds(data[..], wnext, whave, seen + output[end - copy..end])
    {
      hide Holds, Put;
      ghost var before, next, have := data[..], wnext, whave;
      ghost var supplied := output[end - copy..end];
      HoldsSize(before, next, have, seen);
      var rest := copy;
      var dist := wsize - wnext;
      if dist > rest { dist := rest; }
      Copy(wnext, output, end - rest, dist);
      assert output[end - rest..end - rest + dist] == supplied[..dist];
      rest := rest - dist;
      if rest > 0 {
        Copy(0, output, end - rest, rest);
        assert output[end - rest..end - rest + rest] == supplied[dist..];
        HoldsWrapped(before, next, have, seen, supplied);
        wnext, whave := rest, wsize;
      } else {
        assert supplied[..dist] == supplied;
        HoldsMore(before, next, have, seen, supplied);
        wnext := wnext + dist;
        if wnext == wsize { wnext := 0; }
        if whave < wsize { whave := whave + dist; }
      }
    }

    /** updatewindow: the `copy` bytes of output that end at `end`; fails when there is no memory for the window. */
    method Update(output: array<Octet>, end: nat, copy: nat, memory: bool) returns (failed: bool)
      requires Valid() && copy <= end <= output.Length && output != data
      modifies this, data
      ensures Valid() && (data == old(data) || fresh(data))
      ensures failed <==> old(data) == null && !memory
      ensures failed ==> seen == old(seen) && wsize == old(wsize)
      ensures !failed ==> wsize == Pow2(wbits) && seen == old(seen) + output[end - copy..end]
    {
      hide Holds, Pow2, Put;
      ghost var supplied := output[end - copy..end];
      if data == null {
        if !memory { return true; }
        data := new Octet[Pow2(wbits)](_ => 0);
      }
      if wsize == 0 {
        wsize := Pow2(wbits);
        wnext, whave := 0, 0;
        HoldsNothing(data[..]);
      }
      if copy >= wsize {
        PutAll(data[..], output[end - wsize..end - wsize + wsize]);
        Copy(0, output, end - wsize, wsize);
        HoldsFull(supplied, output[..end], seen, wsize);
        assert output[end - wsize..end - wsize + wsize] == output[..end][end - wsize..];
        wnext, whave := 0, wsize;
      } else {
        Around(output, end, copy);
      }
      seen := seen + supplied;
      failed := false;
    }

    /** inflateGetDictionary: the window in order; nothing is written when there is no place for it. */
    method GetDictionary(dictionary: array?<Octet>) returns (length: nat)
      requires Valid() && (dictionary != null ==> dictionary != data && dictionary.Length >= whave)
      modifies dictionary
      ensures length == whave == Min(if wsize == 0 then 0 else Pow2(wbits), |seen|)
      ensures dictionary != null
              ==> dictionary[..whave] == Last(seen, whave)
                  && dictionary[whave..] == old(dictionary[whave..])
    {
      if wsize > 0 { HoldsSize(data[..], wnext, whave, seen); }
      if whave > 0 && dictionary != null {
        ghost var d := data[..];
        HoldsParts(d, wnext, whave, seen);
        var n := whave - wnext;
        forall i | 0 <= i < n { dictionary[i] := data[wnext + i]; }
        ghost var first := dictionary[..];
        assert first[..n] == d[wnext..wnext + n];
        var k := wnext;
        forall i | 0 <= i < k { dictionary[n + i] := data[i]; }
        assert dictionary[..n] == first[..n];
        assert dictionary[n..whave] == d[..k];
        assert dictionary[..whave] == dictionary[..n] + dictionary[n..whave];
      }
      length := whave;
    }
  }

  /** A full or growing circular buffer holds the end of what was supplied. */
  ghost predicate Holds(data: seq<Octet>, next: nat, have: nat, seen: seq<Octet>)
  {
    next < |data| && have == Min(|data|, |seen|) && (have == |data| || next == have)
    && forall d | 1 <= d <= have :: data[IndexBack(|data|, next, d)] == seen[|seen| - d]
  }

  lemma HoldsSize(data: seq<Octet>, next: nat, have: nat, seen: seq<Octet>)
    requires Holds(data, next, have, seen)
    ensures have == Min(|data|, |seen|) && next < |data|
  {
  }

  lemma HoldsParts(data: seq<Octet>, next: nat, have: nat, seen: seq<Octet>)
    requires Holds(data, next, have, seen) && have > 0
    ensures have == Min(|data|, |seen|) && next <= have <= |data|
    ensures data[next..have] + data[..next] == Last(seen, have)
  {
    var s := data[next..have] + data[..next];
    forall i | 0 <= i < have
      ensures s[i] == Last(seen, have)[i]
    {
      var d := have - i;
      assert data[IndexBack(|data|, next, d)] == seen[|seen| - d];
    }
  }

  lemma HoldsNothing(data: seq<Octet>)
    requires |data| > 0
    ensures Holds(data, 0, 0, [])
  {
  }

  lemma HoldsFull(supplied: seq<Octet>, all: seq<Octet>, seen: seq<Octet>, size: nat)
    requires 0 < size <= |supplied| <= |all| && supplied == all[|all| - |supplied|..]
    ensures Holds(all[|all| - size..], 0, size, seen + supplied)
  {
    var d := all[|all| - size..];
    forall k | 1 <= k <= size
      ensures d[IndexBack(size, 0, k)] == (seen + supplied)[|seen + supplied| - k]
    {
    }
  }

  lemma PutAll(d: seq<Octet>, s: seq<Octet>)
    requires |d| == |s|
    ensures Put(d, 0, s) == s
  {
  }

  /** Copied over the end of the buffer and its start. */
  lemma HoldsWrapped(data: seq<Octet>, next: nat, have: nat, seen: seq<Octet>, supplied: seq<Octet>)
    requires Holds(data, next, have, seen) && |data| - next < |supplied| < |data|
    ensures var dist := |data| - next;
            next + dist <= |data| && Holds(Put(Put(data, next, supplied[..dist]), 0, supplied[dist..]),
                                           |supplied| - dist, |data|, seen + supplied)
  {
    var size, dist := |data|, |data| - next;
    var rest := |supplied| - dist;
    var later := Put(Put(data, next, supplied[..dist]), 0, supplied[dist..]);
    forall d | 1 <= d <= size
      ensures later[IndexBack(size, rest, d)] == (seen + supplied)[|seen + supplied| - d]
    {
      if d > |supplied| {
        var k := d - |supplied|;
        assert data[IndexBack(size, next, k)] == seen[|seen| - k];
      }
    }
  }

  /** Copied without reaching the start again. */
  lemma HoldsMore(data: seq<Octet>, next: nat, have: nat, seen: seq<Octet>, supplied: seq<Octet>)
    requires Holds(data, next, have, seen) && next + |supplied| <= |data| && |supplied| < |data|
    ensures var end := next + |supplied|;
            Holds(Put(data, next, supplied), if end == |data| then 0 else end, if have < |data| then have + |supplied|
                  else have, seen + supplied)
  {
    var size, end := |data|, next + |supplied|;
    var next', have' := if end == size then 0 else end, if have < size then have + |supplied| else have;
    var later := Put(data, next, supplied);
    forall d | 1 <= d <= have'
      ensures later[IndexBack(size, next', d)] == (seen + supplied)[|seen + supplied| - d]
    {
      if d > |supplied| {
        var k := d - |supplied|;
        assert data[IndexBack(size, next, k)] == seen[|seen| - k];
      }
    }
  }
}
