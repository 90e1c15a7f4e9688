/** next_out and avail_out: the space for output of one call, after all the output of the calls before. */
module OutputBuffer {
  import A = Adler32

  type Octet = A.Octet

  class Output {
    var buf: array<Octet>
    var start: nat
    var put: nat
    var end: nat
    ghost var hist: seq<Octet>

    ghost predicate Valid()
      reads this
    {
      start <= put <= end <= buf.Length
    }

    /** All output so far. */
    ghost function All(): seq<Octet>
      reads this, buf
      requires Valid()
    {
      hist + buf[start..put]
    }

    constructor ()
      ensures Valid() && All() == [] && hist == [] && start == put == end && fresh(buf)
    {
      buf := new Octet[0](_ => 0);
      start, put, end := 0, 0, 0;
      hist := [];
    }

    /** The space of another call. */
    method Supply(space: array<Octet>, from: nat, n: nat)
      requires Valid() && from + n <= space.Length
      modifies this
      ensures Valid() && All() == old(All()) == hist && buf == space && start == put == from && end == from + n
    {
      hist := All();
      buf, start, put, end := space, from, from, from + n;
    }

    method PutByte(b: Octet)
      requires Valid() && put < end
      modifies this`put, buf
      ensures Valid() && put == old(put) + 1 && All() == old(All()) + [b]
    {
      buf[put] := b;
      put := put + 1;
    }

    /** The byte at a distance within the output of this call. */
    function Back(d: nat): (b: Octet)
      reads this, buf
      requires Valid() && 1 <= d <= put - start
      ensures b == All()[|All()| - d]
    {
      buf[put - d]
    }

    /** `n` bytes of input, copied as they are. */
    method PutAll(source: seq<Octet>)
      requires Valid() && put + |source| <= end
      modifies this`put, buf
      ensures Valid() && put == old(put) + |source| && All() == old(All()) + source
    {
      ghost var before := buf[..];
      var p := put;
      forall i | 0 <= i < |source| { buf[p + i] := source[i]; }
      put := p + |source|;
      assert buf[start..p] == before[start..p];
      assert buf[p..put] == source;
      assert buf[start..put] == buf[start..p] + buf[p..put];
    }
  }
}
