/** The bit accumulator of inflate.c, and the decoding of one symbol with its tables. */
module BitReader {
  import opened Wrappers
  import opened Kraft
  import opened CanonicalCode
  import opened GenCodes
  import opened BitWriter
  import opened BlockCode
  import opened TableCode
  import opened DecodeTable
  import A = Adler32

  type Octet = A.Octet

  /** The bits of a sequence of bytes, in the order in which they are read. */
  function Stream(bytes: seq<nat>): seq<bool> {
    if bytes == [] then [] else Bits(bytes[0], 8) + Stream(bytes[1..])
  }

  lemma StreamSize(bytes: seq<nat>)
    ensures |Stream(bytes)| == 8 * |bytes|
  {
  }

  lemma {:induction false} StreamConcat(a: seq<nat>, b: seq<nat>)
    ensures Stream(a + b) == Stream(a) + Stream(b)
  {
    if a == [] {
      assert a + b == b;
    } else {
      assert (a + b)[1..] == a[1..] + b;
      StreamConcat(a[1..], b);
    }
  }

  /** The order in which the encoder appends bytes. */
  lemma {:induction false} StreamIsFlat(bytes: seq<nat>)
    ensures Stream(bytes) == Flat(bytes)
    decreases |bytes|
  {
    if bytes != [] {
      var init, b := bytes[..|bytes| - 1], bytes[|bytes| - 1];
      StreamIsFlat(init);
      StreamConcat(init, [b]);
      assert init + [b] == bytes;
      assert Stream([b]) == Bits(b, 8) + Stream([b][1..]) == Bits(b, 8);
    }
  }

  /** What a symbol of a code makes of a stream: its symbol and the bits after it, an invalid code, or too few bits to
      say. */
  datatype Decoded = Symbol(x: nat, rest: seq<bool>) | Invalid | More

  ghost function Decode(lens: seq<nat>, s: seq<bool>): (d: Decoded)
    ensures d.Symbol? ==> Uses(lens, d.x) && |d.rest| < |s|
  {
    match BlockCode.Symbol(lens, s)
    case Some((x, rest)) => Symbol(x, rest)
    case None => if Full(lens) || s == [] then More else Invalid
  }

  /** The codes for which inflate_table makes a table. */
  ghost predicate Usable(lens: seq<nat>) {
    Subscribed(lens) && (Full(lens) || forall x | 0 <= x < |lens| :: lens[x] <= 1)
  }

  lemma OneBitWord(lens: seq<nat>, s: seq<bool>, f: seq<bool>, x: nat)
    requires (forall x | 0 <= x < |lens| :: lens[x] <= 1) && s != [] && Starts(lens, s + f, x)
    ensures Starts(lens, s, x)
  {
    assert |CodeWord(lens, x)| == 1;
  }

  /** What is decoded does not depend on the bits still to come. */
  lemma DecodeAhead(lens: seq<nat>, s: seq<bool>, f: seq<bool>)
    requires Usable(lens) && !Decode(lens, s).More?
    ensures Decode(lens, s + f) == match Decode(lens, s) case Symbol(x, rest) => Symbol(x, rest + f) case _ => Invalid
  {
    hide CodeWord, Subscribed, Full;
    match BlockCode.Symbol(lens, s) {
      case Some((x, rest)) =>
        SymbolStarts(lens, s);
        var word := CodeWord(lens, x);
        assert s == word + rest;
        assert s + f == word + (rest + f);
        SymbolSent(lens, x, rest + f);
      case None =>
        NoSymbol(lens, s);
        if BlockCode.Symbol(lens, s + f).Some? {
          SymbolStarts(lens, s + f);
          OneBitWord(lens, s, f, BlockCode.Symbol(lens, s + f).value.0);
        }
    }
  }

  /** A lookup in terms of the code. */
  lemma LookupDecodes(w: seq<Entry>, c: Coding, s: seq<bool>)
    requires Table(w, c) && Usable(c.lens)
    ensures var f := Lookup(w, c.root, s);
            f.total <= |s| ==>
              match Decode(c.lens, s)
              case Symbol(x, rest) => x < |c.lens| && f == FoundFor(c, x) && rest == s[f.total..]
              case Invalid => f == Found(64, 0, 1)
              case More => false
    ensures Lookup(w, c.root, s).total > |s| ==> Decode(c.lens, s).More?
  {
    hide Lookup, Table, FoundFor, Full, Subscribed;
    TableDecodes(w, c, s);
    if BlockCode.Symbol(c.lens, s).None? && !Full(c.lens) && s != [] { InvalidFound(w, c, s); }
  }

  lemma InvalidFound(w: seq<Entry>, c: Coding, s: seq<bool>)
    requires Table(w, c) && !Full(c.lens) && s != [] && BlockCode.Symbol(c.lens, s).None?
    ensures Lookup(w, c.root, s) == Found(64, 0, 1)
  {
    NoSymbol(c.lens, s);
    hide Lookup, Full, NoWord;
  }

  // -- The accumulator ------------------------------------------------------------------------------------------

  lemma Pulled(hold: nat, bits: nat, b: nat)
    requires hold < Pow2(bits) && b < 256
    ensures hold + Shl(b, bits) < Pow2(bits + 8) && Bits(hold + Shl(b, bits), bits + 8) == Bits(hold, bits) + Bits(b, 8)
  {
    BitsOfSum(hold, bits, b, 8);
    SumFits(hold, bits, b, 8) by { Byte256(); }
  }

  lemma Byte256()
    ensures Pow2(8) == 256
  {
    assert Pow2(4) == 16 && Pow2(8) == 2 * Pow2(7) == 4 * Pow2(6) == 8 * Pow2(5) == 16 * Pow2(4);
  }

  lemma LowIsFrom(hold: nat, bits: nat, n: nat)
    requires hold < Pow2(bits)
    ensures LowPart(hold, n) == FromBits(Ahead(Bits(hold, bits), n))
  {
    FromLow(hold, n);
    if n <= bits {
      BitsSplit(hold, n, bits - n);
      assert Bits(hold, bits)[..n] == Bits(hold, n);
    } else {
      HighZero(hold, bits, n - bits);
    }
  }

  lemma Dropped(hold: nat, bits: nat, n: nat)
    requires hold < Pow2(bits) && n <= bits
    ensures HighPart(hold, n) < Pow2(bits - n) && Bits(HighPart(hold, n), bits - n) == Bits(hold, bits)[n..]
    ensures Bits(hold, bits)[..n] == Bits(hold, n)
  {
    BitsSplit(hold, n, bits - n);
    HighBound(hold, n, bits);
    hide Bits, HighPart, Pow2;
    assert Bits(hold, bits) == Bits(hold, n) + Bits(HighPart(hold, n), bits - n);
  }

  lemma HighBound(hold: nat, n: nat, bits: nat)
    requires hold < Pow2(bits) && n <= bits
    ensures HighPart(hold, n) < Pow2(bits - n)
  {
    Pow2Add(n, bits - n);
    DivMod(hold, Pow2(n));
    if HighPart(hold, n) >= Pow2(bits - n) { CanonicalCode.MulMonotone(Pow2(bits - n), HighPart(hold, n), Pow2(n)); }
  }

  lemma SubLow(hold: nat, bits: nat, last: Entry)
    requires hold < Pow2(bits)
    ensures HighPart(LowPart(hold, last.bits + last.op), last.bits) == SubIndex(Bits(hold, bits), last)
  {
    hide Bits, FromBits, HighPart, LowPart, Pow2, Ahead;
    var n, m := last.bits + last.op, last.bits;
    var low := LowPart(hold, n);
    LowIsFrom(hold, bits, n);
    AheadIndex(Bits(hold, bits), n);
    BitsSplit(low, m, n - m);
    HighBound(low, m, n);
    FromToBits(HighPart(low, m), n - m);
    assert m + (n - m) == n;
    assert Ahead(Bits(hold, bits), n)[m..] == Bits(HighPart(low, m), n - m);
  }

  lemma StreamNext(bytes: seq<nat>, n: nat)
    requires n < |bytes|
    ensures Stream(bytes[n..]) == Bits(bytes[n], 8) + Stream(bytes[n + 1..])
  {
    assert bytes[n..][0] == bytes[n] && bytes[n..][1..] == bytes[n + 1..];
  }

  /** next_in, avail_in, hold and bits. */
  class Reader {
    var input: seq<Octet>
    var next: nat
    var hold: nat
    var bits: nat

    /** Hold has no bits above those counted, and fits 32 bits. */
    ghost predicate Valid()
      reads this
    {
      next <= |input| && hold < Pow2(bits) && bits <= 32
    }

    ghost function Buffer(): (s: seq<bool>)
      reads this
      ensures |s| == bits
    {
      Bits(hold, bits)
    }

    /** All that is still to be read. */
    ghost function Rest(): seq<bool>
      reads this
      requires next <= |input|
    {
      Buffer() + Stream(input[next..])
    }

    constructor ()
      ensures Valid() && Rest() == [] && input == [] && bits == 0
    {
      input, next, hold, bits := [], 0, 0, 0;
    }

    /** More input after what is left. */
    method Supply(more: seq<Octet>)
      requires Valid()
      modifies this`input, this`next
      ensures Valid() && next == 0 && Rest() == old(Rest()) + Stream(more) && Buffer() == old(Buffer())
      ensures input == old(input)[old(next)..] + more
    {
      StreamConcat(input[next..], more);
      input := input[next..] + more;
      next := 0;
      assert input[next..] == input;
    }

    lemma RestHeld()
      requires next == |input|
      ensures Rest() == Buffer()
    {
    }

    /** PULLBYTE */
    method PullByte()
      requires Valid() && next < |input| && bits <= 24
      modifies this`next, this`hold, this`bits
      ensures Valid() && next == old(next) + 1 && bits == old(bits) + 8 && Rest() == old(Rest())
      ensures old(Buffer()) <= Buffer()
    {
      hide Bits, Pow2, Stream, Shl;
      Pulled(hold, bits, input[next]);
      StreamNext(input, next);
      ghost var b, byte := Bits(hold, bits), Bits(input[next], 8);
      assert (b + byte) + Stream(input[next + 1..]) == b + (byte + Stream(input[next + 1..]));
      hold := hold + Shl(input[next], bits);
      next := next + 1;
      bits := bits + 8;
    }

    /** NEEDBITS: false when there is not enough input. */
    method NeedBits(n: nat) returns (ok: bool)
      requires Valid() && (n <= 25 || (n == 32 && bits % 8 == 0))
      modifies this`next, this`hold, this`bits
      ensures Valid() && Rest() == old(Rest()) && old(next) <= next
      ensures ok <==> bits >= n
      ensures !ok ==> next == |input|
      ensures bits == old(bits) + 8 * (next - old(next)) && (next > old(next) ==> bits < n + 8)
    {
      hide Bits, Pow2, Stream;
      while bits < n
        invariant Valid() && Rest() == old(Rest()) && old(next) <= next
        invariant bits == old(bits) + 8 * (next - old(next)) && (next > old(next) ==> bits < n + 8)
        decreases |input| - next
      {
        if next == |input| { return false; }
        PullByte();
      }
      ok := true;
    }

    /** BITS(n) and DROPBITS(n) */
    method Take(n: nat) returns (v: nat)
      requires Valid() && n <= bits
      modifies this`hold, this`bits
      ensures Valid() && bits == old(bits) - n && |old(Rest())| >= n && Rest() == old(Rest())[n..]
              && Buffer() == old(Buffer())[n..]
      ensures v == FromBits(old(Rest())[..n]) == FromBits(old(Buffer())[..n])
    {
      hide Stream, FromBits;
      ghost var b, r := Buffer(), Rest();
      Dropped(hold, bits, n);
      LowIsFrom(hold, bits, n);
      hide Pow2, Bits, LowPart, HighPart;
      v := LowPart(hold, n);
      hold := HighPart(hold, n);
      bits := bits - n;
      assert r[..n] == b[..n];
    }

    /** BITS(n) */
    method Peek(n: nat) returns (v: nat)
      requires Valid() && n <= bits
      ensures v == FromBits(Buffer()[..n])
    {
      Dropped(hold, bits, n);
      LowIsFrom(hold, bits, n);
      v := LowPart(hold, n);
    }

    /** hold >> n */
    method Upper(n: nat) returns (v: nat)
      requires Valid() && n <= bits
      ensures v == FromBits(Buffer()[n..])
    {
      Dropped(hold, bits, n);
      FromToBits(HighPart(hold, n), bits - n);
      v := HighPart(hold, n);
    }

    /** Input taken as bytes, when no bits are held. */
    method SkipBytes(n: nat)
      requires Valid() && bits == 0 && next + n <= |input|
      modifies this`next
      ensures Valid() && next == old(next) + n && |old(Rest())| >= 8 * n
      ensures old(Rest()) == Stream(input[next - n..next]) + Rest()
    {
      ghost var before := input[next..];
      StreamConcat(input[next..next + n], input[next + n..]);
      assert before == input[next..next + n] + input[next + n..];
      StreamSize(input[next..next + n]);
      hide Stream;
      next := next + n;
    }

    /** BYTEBITS */
    method ByteBits()
      requires Valid()
      modifies this`hold, this`bits
      ensures Valid() && bits == old(bits) - old(bits) % 8
      ensures |old(Rest())| >= old(bits) % 8 && Rest() == old(Rest())[old(bits) % 8..]
    {
      var v := Take(bits % 8);
    }

    /** INITBITS */
    method InitBits()
      requires Valid()
      modifies this`hold, this`bits
      ensures Valid() && bits == 0 && |old(Rest())| >= old(bits) && Rest() == old(Rest())[old(bits)..]
    {
      hold, bits := 0, 0;
      assert Bits(hold, 0) == [];
    }

    // -- One symbol -----------------------------------------------------------------------------------------------

    /** Bytes have only been pulled, and only while there was no telling what they start with. */
    twostate predicate Pulling(lens: seq<nat>)
      requires old(next) <= |old(input)|
      reads this
    {
      && Valid() && input == old(input) && Rest() == old(Rest()) && old(next) <= next
      && bits == old(bits) + 8 * (next - old(next)) && (next == old(next) ==> hold == old(hold))
      && (next > old(next) ==> Decode(lens, Buffer()[..bits - 8]).More?)
    }

    /** The entry of the first level, once all its bits are there; false when there is not enough input. */
    method FirstLevel(table: array<Entry>, at: nat, root: nat, ghost c: Coding, ghost w: seq<Entry>)
        returns (ok: bool, here: Entry)
      requires Valid() && bits <= 24 && at + |w| <= table.Length && w == table[at..at + |w|] && Table(w, c)
               && Usable(c.lens) && root == c.root
      modifies this`next, this`hold, this`bits
      ensures Pulling(c.lens) && bits <= 24
      ensures ok ==> IsFirst(w, c, Buffer(), here) && here.bits <= bits
      ensures !ok ==> next == |input| && Decode(c.lens, Buffer()).More? && bits < MAX_BITS
    {
      hide Lookup, Table, Usable, Pow2, Bits, Decode, Stream, LowPart;
      while true
        invariant Pulling(c.lens) && bits <= 24
        decreases |input| - next
      {
        ghost var b := Buffer();
        LookupInside(w, c, b) by { UsableFits(c.lens); }
        LookupDecodes(w, c, b);
        LowIsFrom(hold, bits, root);
        here := table[at + LowPart(hold, root)];
        FirstIs(w, c, b, here);
        if here.bits <= bits { return true, here; }
        if next == |input| { return false, here; }
        PullByte();
        assert Buffer()[..bits - 8] == b;
      }
    }

    /** The entry of the second level, once all its bits are there. */
    method SecondLevel(table: array<Entry>, at: nat, last: Entry, ghost c: Coding, ghost w: seq<Entry>)
        returns (ok: bool, here: Entry)
      requires Valid() && bits <= 24 && at + |w| <= table.Length && w == table[at..at + |w|] && Table(w, c)
               && Usable(c.lens)
      requires IsFirst(w, c, Buffer(), last) && last.bits <= bits && IsLink(last)
      modifies this`next, this`hold, this`bits
      ensures Pulling(c.lens) && bits <= 24
      ensures !ok ==> next == |input| && Decode(c.lens, Buffer()).More? && bits < MAX_BITS
      ensures ok
              ==> Lookup(w, c.root, Buffer()) == Found(here.op, here.val, last.bits + here.bits)
                  && last.bits + here.bits <= bits
    {
      hide Lookup, Table, Usable, Pow2, Bits, Decode, Stream, LowPart, HighPart, IsFirst, IsLink;
      while true
        invariant Pulling(c.lens) && bits <= 24 && IsFirst(w, c, Buffer(), last) && last.bits <= bits
        decreases |input| - next
      {
        ghost var b := Buffer();
        SecondIs(w, c, b, last);
        LookupInside(w, c, b) by { UsableFits(c.lens); }
        SubLow(hold, bits, last);
        here := table[at + last.val + HighPart(LowPart(hold, last.bits + last.op), last.bits)];
        LookupDecodes(w, c, b);
        if last.bits + here.bits <= bits { return true, here; }
        if next == |input| { return false, here; }
        PullByte();
        assert Buffer()[..bits - 8] == b;
        FirstStays(w, c, b, Buffer(), last);
      }
    }

    /** DROPBITS, for a symbol all of whose bits are there. */
    method Drop(here: Entry, total: nat, ghost c: Coding, ghost w: seq<Entry>, ghost m: nat)
      requires Valid() && Table(w, c) && Usable(c.lens) && total <= bits
               && Lookup(w, c.root, Buffer()) == Found(here.op, here.val, total)
      requires m <= bits && (m > 0 ==> Decode(c.lens, Buffer()[..m]).More?)
      modifies this`hold, this`bits
      ensures Valid() && bits == old(bits) - total && IsDecoded(c, old(Rest()), here, Rest()) && 1 <= total
              && (m > 0 ==> total > m)
      ensures !Decode(c.lens, old(Buffer())).More? && |old(Rest())| > |Rest()|
    {
      hide Lookup, Table, Usable, Pow2, Bits, Decode, Stream, IsDecoded;
      LookupDecodes(w, c, Buffer());
      InBuffer(w, c, Buffer(), Rest(), here, total, m);
      var v := Take(total);
    }

    /** The symbol that comes next in the stream, both levels of the table; false when there is not enough input. */
    method DecodeSymbol(table: array<Entry>, at: nat, root: nat, ghost c: Coding, ghost w: seq<Entry>)
        returns (ok: bool, here: Entry)
      requires Valid() && bits <= 24 && at + |w| <= table.Length && w == table[at..at + |w|] && Table(w, c)
               && Usable(c.lens) && root == c.root
      modifies this`next, this`hold, this`bits
      ensures Valid() && input == old(input) && old(next) <= next && bits <= 24
      ensures !ok ==> next == |input| && Rest() == old(Rest()) && Decode(c.lens, Buffer()).More? && bits < MAX_BITS
      ensures ok ==> IsDecoded(c, old(Rest()), here, Rest()) && bits < 24 && |old(Rest())| > |Rest()|
      ensures ok && (old(bits) < 8 || Decode(c.lens, old(Buffer())).More?) ==> bits < 8
    {
      hide Lookup, Table, Usable, Pow2, Bits, Decode, Stream, IsFirst, IsDecoded, IsLink;
      ok, here := FirstLevel(table, at, root, c, w);
      if !ok { return; }
      ghost var m := if next > old(next) then bits - 8 else 0;
      if IsLink(here) {
        var last := here;
        ghost var b, n := bits, next;
        ok, here := SecondLevel(table, at, last, c, w);
        if !ok { return; }
        Drop(here, last.bits + here.bits, c, w, if next > n then bits - 8 else m);
      } else {
        FirstOnly(w, c, Buffer(), here);
        Drop(here, here.bits, c, w, m);
      }
    }

    /** The symbol of the code length code that comes next, not yet dropped. */
    method PeekLength(table: array<Entry>, at: nat, root: nat, ghost c: Coding, ghost w: seq<Entry>)
        returns (ok: bool, here: Entry)
      requires Valid() && bits <= 24 && at + |w| <= table.Length && w == table[at..at + |w|] && Table(w, c)
               && Usable(c.lens) && root == c.root
      requires forall x | 0 <= x < |c.lens| :: c.lens[x] <= c.root
      modifies this`next, this`hold, this`bits
      ensures Pulling(c.lens) && bits <= 24
      ensures !ok ==> next == |input| && Decode(c.lens, Buffer()).More? && bits < MAX_BITS
      ensures ok ==> here.bits <= bits && |Rest()| >= here.bits && IsDecoded(c, Rest(), here, Rest()[here.bits..])
      ensures ok && next > old(next) ==> bits < here.bits + 8
      ensures ok ==> here.bits <= MAX_BITS
      ensures ok && Decode(c.lens, old(Buffer())).More? ==> next > old(next)
    {
      hide Lookup, Table, Usable, Pow2, Bits, Decode, Stream, LowPart, HighPart, IsFirst, IsDecoded;
      ok, here := FirstLevel(table, at, root, c, w);
      if !ok { return; }
      FirstOnly(w, c, Buffer(), here) by { NoLinks(w, c, Buffer(), here); }
      LookupInside(w, c, Buffer()) by { UsableFits(c.lens); }
      LookupDecodes(w, c, Buffer());
      InBuffer(w, c, Buffer(), Rest(), here, here.bits, if next > old(next) then bits - 8 else 0);
    }
    // -- The fast decoder's way -----------------------------------------------------------------------------------

    lemma RestLength()
      requires next <= |input|
      ensures |Rest()| == bits + 8 * (|input| - next)
    {
      StreamSize(input[next..]);
    }

    lemma RestParts()
      requires next <= |input|
      ensures |Rest()| == bits + 8 * (|input| - next) && Rest()[bits..] == Stream(input[next..])
              && Rest()[..bits] == Buffer()
    {
      StreamSize(input[next..]);
    }

    /** Two bytes when there are less than 15 bits: the longest word. */
    method Refill()
      requires Valid() && bits <= 30 && |Rest()| >= 23
      modifies this`next, this`hold, this`bits
      ensures Valid() && 15 <= bits <= 30 && Rest() == old(Rest()) && old(Buffer()) <= Buffer()
    {
      hide Bits, Pow2, Stream;
      RestLength();
      if bits < 15 {
        PullByte();
        PullByte();
      }
    }

    /** One byte when there are less than n bits. */
    method Another(n: nat)
      requires Valid() && n <= 13 && bits <= 30 && |Rest()| >= n
      modifies this`next, this`hold, this`bits
      ensures Valid() && bits <= 30 && Rest() == old(Rest()) && (bits >= n || bits == old(bits) + 8)
    {
      hide Bits, Pow2, Stream;
      RestLength();
      if bits < n { PullByte(); }
    }

    /** The entry of the first level, its bits dropped. */
    method FastFirst(table: array<Entry>, at: nat, root: nat, ghost c: Coding, ghost w: seq<Entry>)
        returns (here: Entry)
      requires Valid() && bits >= MAX_BITS && at + |w| <= table.Length && w == table[at..at + |w|] && Table(w, c)
               && Usable(c.lens) && root == c.root
      modifies this`hold, this`bits
      ensures Valid() && IsFirst(w, c, old(Buffer()), here) && SecondLevelNext(here) == IsLink(here)
      ensures here.bits <= old(bits) && Buffer() == old(Buffer())[here.bits..]
      ensures here.bits <= |old(Rest())| && Rest() == old(Rest())[here.bits..]
    {
      hide Lookup, Table, Usable, Pow2, Bits, Decode, Stream, IsFirst, LowPart, HighPart, SecondLevelNext, IsLink;
      ghost var b := Buffer();
      UsableFits(c.lens);
      LookupInside(w, c, b);
      LowIsFrom(hold, bits, root);
      here := table[at + LowPart(hold, root)];
      FirstIs(w, c, b, here);
      LinkTests(w, c, b, here);
      var v := Take(here.bits);
    }

    /** The entry of the second level, its bits dropped. */
    method FastSecond(table: array<Entry>, at: nat, last: Entry, ghost c: Coding, ghost w: seq<Entry>,
                      ghost b: seq<bool>) returns (here: Entry)
      requires Valid() && |b| >= MAX_BITS && at + |w| <= table.Length && w == table[at..at + |w|] && Table(w, c)
               && Usable(c.lens)
      requires IsFirst(w, c, b, last) && IsLink(last) && last.bits <= |b| && Buffer() == b[last.bits..]
      modifies this`hold, this`bits
      ensures Valid() && Lookup(w, c.root, b) == Found(here.op, here.val, last.bits + here.bits)
              && !SecondLevelNext(here)
      ensures last.bits + here.bits <= |b| && bits == |b| - (last.bits + here.bits)
      ensures here.bits <= |old(Rest())| && Rest() == old(Rest())[here.bits..]
    {
      hide Lookup, Table, Usable, Pow2, Bits, Decode, Stream, IsFirst, LowPart, HighPart, SecondLevelNext, IsLink;
      SecondIs(w, c, b, last);
      SubAfter(b, last);
      LowIsFrom(hold, bits, last.op);
      here := table[at + last.val + LowPart(hold, last.op)];
      FoundTests(w, c, b, here, last.bits + here.bits);
      var v := Take(here.bits);
    }

    /** A symbol, all of whose bits are there, through both levels of the table; nothing was known m bits ahead. */
    method FastSymbol(table: array<Entry>, at: nat, root: nat, ghost c: Coding, ghost w: seq<Entry>, ghost m: nat)
        returns (here: Entry)
      requires Valid() && bits >= MAX_BITS && at + |w| <= table.Length && w == table[at..at + |w|] && Table(w, c)
               && Usable(c.lens) && root == c.root
      requires m <= bits && (m > 0 ==> Decode(c.lens, Buffer()[..m]).More?)
      modifies this`hold, this`bits
      ensures Valid() && IsDecoded(c, old(Rest()), here, Rest()) && bits <= old(bits)
      ensures var n := old(bits) - bits; m < n <= MAX_BITS && n <= |old(Rest())| && Rest() == old(Rest())[n..]
    {
      hide Lookup, Table, Usable, Pow2, Bits, Decode, Stream, IsFirst, IsDecoded, SecondLevelNext, Buffer, Rest, Valid,
           IsLink;
      BufferFirst();
      ghost var b, rest := Buffer(), Rest();
      here := FastFirst(table, at, root, c, w);
      ghost var total: nat := here.bits;
      ghost var second := false;
      while SecondLevelNext(here)
        invariant Valid() && total <= |b| && bits == |b| - total && total <= |rest| && Rest() == rest[total..]
        invariant if second then Lookup(w, c.root, b) == Found(here.op, here.val, total) && !SecondLevelNext(here)
                  else IsFirst(w, c, b, here) && total == here.bits && SecondLevelNext(here) == IsLink(here)
                       && Buffer() == b[total..]
        decreases if second then 0 else 1
      {
        here := FastSecond(table, at, here, c, w, b);
        total := total + here.bits;
        second := true;
      }
      if !second { FirstOnly(w, c, b, here); }
      UsableFits(c.lens);
      LookupInside(w, c, b);
      InBuffer(w, c, b, rest, here, total, m);
    }

    lemma BufferFirst()
      requires Valid()
      ensures Buffer() <= Rest() && next <= |input|
    {
    }

    /** Whole bytes that are held given back to the input, when not more of them than have come from it since `from`. */
    method GiveBack(ghost from: nat, ghost all: seq<bool>)
      requires Valid() && from <= next && bits / 8 <= next - from && |Rest()| <= |all|
               && Rest() == all[|all| - |Rest()|..]
      requires |all| >= 8 * (|input| - from) && all[|all| - 8 * (|input| - from)..] == Stream(input[from..])
      modifies this`next, this`hold, this`bits
      ensures Valid() && bits < 8 && from <= next && Rest() == old(Rest())
    {
      hide Bits, Pow2, Stream, LowPart, HighPart;
      ghost var b, rest := Buffer(), Rest();
      var len := bits / 8;
      RestLength();
      Returned(input, from, next, len, b, rest, all);
      LowKept(hold, bits, bits - 8 * len);
      next := next - len;
      bits := bits - 8 * len;
      hold := LowPart(hold, bits);
    }
  }

  /** The test for a second level: neither a literal, nor a base, nor one of the rest. */
  predicate SecondLevelNext(e: Entry) { e.op != 0 && e.op / 16 % 2 == 0 && e.op / 64 % 2 == 0 }

  lemma LeafTests(kind: Kind, x: nat, n: nat)
    ensures !SecondLevelNext(Leaf(kind, x, n))
  {
  }

  /** What is found passes none of the tests for a second level. */
  lemma FoundTests(w: seq<Entry>, c: Coding, b: seq<bool>, e: Entry, total: nat)
    requires Table(w, c) && Usable(c.lens) && |b| >= MAX_BITS && Lookup(w, c.root, b) == Found(e.op, e.val, total)
    ensures !SecondLevelNext(e) && total <= |b|
  {
    hide Lookup, Table, Usable, Decode, Leaf, SecondLevelNext;
    UsableFits(c.lens);
    LookupInside(w, c, b);
    LookupDecodes(w, c, b);
    BufferParts(c, b, Entry(e.op, e.bits, e.val), total);
    match Decode(c.lens, b) {
      case Symbol(x, rest) => LeafTests(c.kind, x, e.bits);
      case Invalid => InvalidTests(e);
      case More =>
    }
  }

  lemma InvalidTests(e: Entry)
    ensures e.op == 64 ==> !SecondLevelNext(e)
  {
  }

  lemma LinkTests(w: seq<Entry>, c: Coding, b: seq<bool>, here: Entry)
    requires Table(w, c) && Usable(c.lens) && |b| >= MAX_BITS && IsFirst(w, c, b, here)
    ensures SecondLevelNext(here) == IsLink(here) && here.bits <= |b|
  {
    hide Lookup, Table, Usable, IsFirst, SecondLevelNext, IsLink;
    if IsLink(here) {
      LinkSecond(here);
      SecondIs(w, c, b, here);
      UsableFits(c.lens);
      LookupInside(w, c, b);
    } else {
      FirstOnly(w, c, b, here);
      FoundTests(w, c, b, here, here.bits);
    }
  }

  lemma LinkSecond(e: Entry)
    requires IsLink(e)
    ensures SecondLevelNext(e)
  {
  }

  /** The index of the second level, when the bits of the first have been dropped. */
  lemma SubAfter(b: seq<bool>, last: Entry)
    requires last.bits <= |b|
    ensures SubIndex(b, last) == FromBits(Ahead(b[last.bits..], last.op))
  {
    assert Ahead(b, last.bits + last.op)[last.bits..] == Ahead(b[last.bits..], last.op);
  }

  /** What is given back is what the input has there. */
  lemma Returned(input: seq<Octet>, from: nat, next: nat, len: nat, b: seq<bool>, rest: seq<bool>, all: seq<bool>)
    requires from <= next - len && next <= |input| && rest == b + Stream(input[next..]) && 8 * len <= |b|
             && |rest| <= |all|
    requires rest == all[|all| - |rest|..] && |all| >= 8 * (|input| - from)
             && all[|all| - 8 * (|input| - from)..] == Stream(input[from..])
    ensures rest == b[..|b| - 8 * len] + Stream(input[next - len..])
  {
    hide Stream;
    var a, d, e := input[from..next - len], input[next - len..next], input[next..];
    StreamSize(a);
    StreamSize(d);
    StreamSize(e);
    StreamSize(input[from..]);
    assert input[next - len..] == d + e && input[from..] == a + (d + e);
    StreamConcat(d, e);
    StreamConcat(a, d + e);
    var k := |Stream(d + e)|;
    assert Stream(input[from..])[|a| * 8..] == Stream(d + e);
    assert all[|all| - k..] == all[|all| - 8 * (|input| - from)..][|a| * 8..];
    assert rest[|rest| - k..] == all[|all| - k..];
    assert rest[..|rest| - k] == b[..|b| - 8 * len];
  }

  lemma LowKept(hold: nat, bits: nat, n: nat)
    requires hold < Pow2(bits) && n <= bits
    ensures LowPart(hold, n) < Pow2(n) && Bits(LowPart(hold, n), n) == Bits(hold, bits)[..n]
  {
    hide LowPart;
    LowBelow(hold, n);
    BitsSplit(hold, n, 0);
    Dropped(hold, bits, n);
  }

  // -- Facts about the two levels ---------------------------------------------------------------------------------

  /** `here` is the entry of the first level for stream s. */
  ghost predicate IsFirst(w: seq<Entry>, c: Coding, s: seq<bool>, here: Entry)
  {
    var i := FromBits(Ahead(s, c.root));
    i < |w| && w[i] == here
  }

  lemma UsableFits(lens: seq<nat>)
    requires Usable(lens)
    ensures Subscribed(lens)
  {
  }

  /** The first level alone, when it is too long or no link. */
  lemma FirstIs(w: seq<Entry>, c: Coding, s: seq<bool>, here: Entry)
    requires Table(w, c) && Usable(c.lens) && FromBits(Ahead(s, c.root)) < |w| && w[FromBits(Ahead(s, c.root))] == here
    ensures IsFirst(w, c, s, here) && here.bits <= Lookup(w, c.root, s).total
  {
    hide Table, FromBits, Ahead, SubIndex, Usable, IsLink;
    UsableFits(c.lens);
    LookupInside(w, c, s);
  }

  lemma FirstOnly(w: seq<Entry>, c: Coding, s: seq<bool>, here: Entry)
    requires IsFirst(w, c, s, here) && !IsLink(here)
    ensures Lookup(w, c.root, s) == Found(here.op, here.val, here.bits)
  {
  }

  lemma NoLinks(w: seq<Entry>, c: Coding, s: seq<bool>, here: Entry)
    requires Table(w, c) && Usable(c.lens) && IsFirst(w, c, s, here) && forall x | 0 <= x < |c.lens| ::
             c.lens[x] <= c.root
    ensures !IsLink(here)
  {
    hide Table, FromBits, Ahead, SubIndex, Usable, IsLink, Lookup;
    UsableFits(c.lens);
    LookupInside(w, c, s);
  }

  lemma SecondIs(w: seq<Entry>, c: Coding, s: seq<bool>, last: Entry)
    requires Table(w, c) && Usable(c.lens) && IsFirst(w, c, s, last) && IsLink(last)
    ensures last.bits == c.root && last.val + SubIndex(s, last) < |w|
    ensures var e := w[last.val + SubIndex(s, last)]; Lookup(w, c.root, s) == Found(e.op, e.val, last.bits + e.bits)
  {
    hide Table, FromBits, Ahead, SubIndex, Usable, IsLink;
    UsableFits(c.lens);
    LookupInside(w, c, s);
  }

  /** More input does not change the first level. */
  lemma FirstStays(w: seq<Entry>, c: Coding, s: seq<bool>, t: seq<bool>, last: Entry)
    requires IsFirst(w, c, s, last) && s <= t && c.root <= |s|
    ensures IsFirst(w, c, t, last)
  {
    assert Ahead(s, c.root) == Ahead(t, c.root);
  }

  /** The stream s starts with a symbol, or is invalid, as the entry `here` says; `rest` follows. */
  ghost predicate IsDecoded(c: Coding, s: seq<bool>, here: Entry, rest: seq<bool>)
  {
    match Decode(c.lens, s)
    case Symbol(x, after) => x < |c.lens| && here == Leaf(c.kind, x, here.bits) && rest == after
    case Invalid => here.op == 64 && here.val == 0 && |s| >= 1 && rest == s[1..]
    case More => false
  }

  /** Nor does what is decoded depend on what is still to come. */
  lemma DecodedAhead(c: Coding, s: seq<bool>, here: Entry, rest: seq<bool>, f: seq<bool>)
    requires Usable(c.lens) && IsDecoded(c, s, here, rest)
    ensures IsDecoded(c, s + f, here, rest + f)
  {
    hide Usable, Decode, Leaf;
    DecodeAhead(c.lens, s, f);
    if s != [] { assert (s + f)[1..] == s[1..] + f; }
  }

  lemma SymbolLonger(lens: seq<nat>, s: seq<bool>, m: nat)
    requires Usable(lens) && m <= |s| && Decode(lens, s[..m]).More?
    ensures Decode(lens, s).Symbol? ==> lens[Decode(lens, s).x] > m
    ensures Decode(lens, s).Invalid? ==> m == 0
  {
    hide CodeWord, Usable, Full, Decode;
    match Decode(lens, s) {
      case Symbol(x, rest) =>
        DecodeStarts(lens, s);
        MoreNone(lens, s[..m], x);
        if lens[x] <= m { StartsShort(lens, s, m, x); }
      case Invalid => MoreEmpty(lens, s, s[..m]);
      case More =>
    }
  }

  lemma DecodeRest(lens: seq<nat>, s: seq<bool>)
    requires Decode(lens, s).Symbol?
    ensures |s| == lens[Decode(lens, s).x] + |Decode(lens, s).rest|
  {
    SymbolStarts(lens, s);
    hide CodeWord;
  }

  lemma DecodeStarts(lens: seq<nat>, s: seq<bool>)
    requires Decode(lens, s).Symbol?
    ensures Starts(lens, s, Decode(lens, s).x)
  {
    SymbolStarts(lens, s);
    hide CodeWord;
  }

  lemma MoreEmpty(lens: seq<nat>, s: seq<bool>, t: seq<bool>)
    requires Decode(lens, s).Invalid? && Decode(lens, t).More?
    ensures t == []
  {
    hide CodeWord, Full;
  }

  lemma MoreNone(lens: seq<nat>, t: seq<bool>, x: nat)
    requires Decode(lens, t).More?
    ensures !Starts(lens, t, x)
  {
    hide CodeWord;
  }

  lemma StartsShort(lens: seq<nat>, s: seq<bool>, m: nat, x: nat)
    requires Starts(lens, s, x) && m <= |s| && lens[x] <= m
    ensures Starts(lens, s[..m], x)
  {
    hide CodeWord;
  }

  /** A lookup within the buffer b, with more of the stream to come; nothing was known m bits earlier. */
  lemma InBuffer(w: seq<Entry>, c: Coding, b: seq<bool>, all: seq<bool>, here: Entry, total: nat, m: nat)
    requires Table(w, c) && Usable(c.lens) && b <= all && total <= |b|
             && Lookup(w, c.root, b) == Found(here.op, here.val, total)
    requires m <= |b| && (m > 0 ==> Decode(c.lens, b[..m]).More?)
    ensures IsDecoded(c, all, here, all[total..]) && (m > 0 ==> total > m) && 1 <= total
  {
    hide Table, Usable, Lookup, Leaf;
    LookupDecodes(w, c, b);
    assert all == b + all[|b|..];
    DecodeAhead(c.lens, b, all[|b|..]);
    if m > 0 { SymbolLonger(c.lens, b, m); }
    BufferParts(c, b, here, total);
    UsableFits(c.lens);
    LookupInside(w, c, b);
  }

  lemma BufferParts(c: Coding, b: seq<bool>, here: Entry, total: nat)
    ensures match Decode(c.lens, b)
            case Symbol(x, rest) => x < |c.lens| && Found(here.op, here.val, total) == FoundFor(c, x)
              ==> here == Leaf(c.kind, x, here.bits) && total == c.lens[x]
            case _ => true
  {
    match Decode(c.lens, b) {
      case Symbol(x, rest) => LeafParts(c.kind, x, here.bits);
      case _ =>
    }
  }
}
