/** The bit buffer of trees.c: send_bits, bi_flush and bi_windup.  The output is a sequence of bytes; the bits of a byte
    are sent least significant first. */
module BitWriter {
  import opened Kraft
  import opened GenCodes

  const BUF_SIZE: nat := 16

  // -- Shifts and bits ------------------------------------------------------------------------------------------

  /** v << n */
  function Shl(v: nat, n: nat): nat { if n == 0 then v else 2 * Shl(v, n - 1) }

  /** v >> n */
  function Shr(v: nat, n: nat): nat { if n == 0 then v else Shr(v / 2, n - 1) }

  lemma {:induction false} BitsOfSum(a: nat, n: nat, b: nat, m: nat)
    requires a < Pow2(n)
    ensures Bits(a + Shl(b, n), n + m) == Bits(a, n) + Bits(b, m) && Shr(a + Shl(b, n), n) == b
    decreases n
  {
    if n > 0 { BitsOfSum(a / 2, n - 1, b, m); }
  }

  lemma {:induction false} BitsLow(a: nat, b: nat, n: nat)
    ensures Bits(a + Shl(b, n), n) == Bits(a, n)
    decreases n
  {
    if n > 0 { BitsLow(a / 2, b, n - 1); }
  }

  lemma {:induction false} BitsRest(v: nat, n: nat, m: nat)
    ensures Bits(v, n + m) == Bits(v, n) + Bits(Shr(v, n), m)
    decreases n
  {
    if n > 0 { BitsRest(v / 2, n - 1, m); }
  }

  lemma {:induction false} ShrTwice(v: nat, n: nat, m: nat)
    ensures Shr(v, n + m) == Shr(Shr(v, n), m)
    decreases n
  {
    if n > 0 { ShrTwice(v / 2, n - 1, m); }
  }

  lemma {:induction false} ShrFits(v: nat, n: nat, k: nat)
    requires v < Pow2(n) && k <= n
    ensures Shr(v, k) < Pow2(n - k)
    decreases k
  {
    if k > 0 { ShrFits(v / 2, n - 1, k - 1); }
  }

  lemma {:induction false} SumFits(a: nat, n: nat, b: nat, m: nat)
    requires a < Pow2(n) && b < Pow2(m)
    ensures a + Shl(b, n) < Pow2(n + m)
    decreases n
  {
    if n > 0 { SumFits(a / 2, n - 1, b, m); }
  }

  lemma Shr4(v: nat)
    ensures Shr(v, 4) == v / 16
  {
    assert Shr(v, 4) == Shr(v / 2, 3) && Shr(v / 2, 3) == Shr(v / 2 / 2, 2)
           && Shr(v / 2 / 2, 2) == Shr(v / 2 / 2 / 2, 1);
    assert Shr(v / 2 / 2 / 2, 1) == Shr(v / 2 / 2 / 2 / 2, 0);
  }

  lemma Shl8(v: nat)
    ensures Shl(v, 8) == 256 * v && Shr(v, 8) == v / 256
  {
    assert Shl(v, 8) == 2 * Shl(v, 7) && Shl(v, 7) == 2 * Shl(v, 6) && Shl(v, 6) == 2 * Shl(v, 5)
           && Shl(v, 5) == 2 * Shl(v, 4);
    assert Shl(v, 4) == 2 * Shl(v, 3) && Shl(v, 3) == 2 * Shl(v, 2) && Shl(v, 2) == 2 * Shl(v, 1)
           && Shl(v, 1) == 2 * Shl(v, 0);
    ShrTwice(v, 4, 4);
    Shr4(v);
    Shr4(v / 16);
  }

  lemma {:induction false} ShlTwice(v: nat, n: nat, m: nat)
    ensures Shl(v, n + m) == Shl(Shl(v, n), m)
    decreases m
  {
    if m > 0 { ShlTwice(v, n, m - 1); }
  }

  lemma Shl16(v: nat)
    ensures Shl(v, 16) == 65536 * v
  {
    ShlTwice(v, 8, 8);
    Shl8(v);
    Shl8(256 * v);
  }

  /** The bits of a sequence of bytes. */
  function Flat(bytes: seq<nat>): seq<bool> {
    if bytes == [] then [] else Flat(bytes[..|bytes| - 1]) + Bits(bytes[|bytes| - 1], 8)
  }

  lemma FlatAppend(bytes: seq<nat>, b: nat)
    ensures Flat(bytes + [b]) == Flat(bytes) + Bits(b, 8)
  {
    assert (bytes + [b])[..|bytes|] == bytes;
  }

  lemma Byte(v: nat)
    ensures Bits(v % 256, 8) == Bits(v, 8) && v % 256 < 256
  {
    Shl8(v / 256);
    BitsLow(v % 256, v / 256, 8);
    assert v == v % 256 + 256 * (v / 256);
  }

  lemma TwoBytes(v: nat)
    ensures Bits(v % 256, 8) + Bits(v / 256, 8) == Bits(v, 16)
  {
    Byte(v);
    BitsRest(v, 8, 8);
    Shl8(v);
    hide Bits, Shr, Shl;
  }

  /** put_short. */
  function Short(bytes: seq<nat>, v: nat): seq<nat> { bytes + [v % 256] + [v / 256] }

  lemma FlatShort(bytes: seq<nat>, v: nat)
    ensures Flat(Short(bytes, v)) == Flat(bytes) + Bits(v, 16)
  {
    TwoBytes(v);
    hide Bits;
    FlatPair(bytes, v % 256, v / 256);
  }

  lemma FlatPair(bytes: seq<nat>, a: nat, b: nat)
    ensures Flat(bytes + [a] + [b]) == Flat(bytes) + (Bits(a, 8) + Bits(b, 8))
  {
    FlatAppend(bytes, a);
    FlatAppend(bytes + [a], b);
    hide Bits, Flat;
  }

  // -- send_bits ------------------------------------------------------------------------------------------------

  lemma LowBits(v: nat)
    ensures Ush(v) < 0x10000 && Bits(Ush(v), 16) == Bits(v, 16)
  {
    hide Bits, Shl;
    Shl16(v / 0x10000);
    assert v == v % 0x10000 + 0x10000 * (v / 0x10000);
    BitsLow(v % 0x10000, v / 0x10000, 16);
  }

  /** The buffer with a value put on top: its low 16 bits, and the rest of the value. */
  lemma Overflows(buf: nat, valid: nat, value: nat, length: nat)
    requires valid <= 16 && buf < Pow2(valid) && length <= 16 && value < Pow2(length) && valid + length > 16
    ensures var low := Ush(buf + Shl(value, valid)); var high := Shr(value, 16 - valid);
      && low < 0x10000 && high < Pow2(valid + length - 16)
      && Bits(buf, valid) + Bits(value, length) == Bits(low, 16) + Bits(high, valid + length - 16)
  {
    var all := buf + Shl(value, valid);
    BitsOfSum(buf, valid, value, length);
    BitsRest(all, 16, valid + length - 16);
    ShrTwice(all, valid, 16 - valid);
    LowBits(all);
    ShrFits(value, length, 16 - valid);
    hide Bits, Shr, Shl, Pow2, Ush;
  }

  lemma StaysWithin(buf: nat, valid: nat, value: nat, length: nat)
    requires buf < Pow2(valid) && value < Pow2(length)
    ensures buf + Shl(value, valid) < Pow2(valid + length)
    ensures Bits(buf, valid) + Bits(value, length) == Bits(buf + Shl(value, valid), valid + length)
  {
    BitsOfSum(buf, valid, value, length);
    SumFits(buf, valid, value, length);
  }

  lemma FirstByte(v: nat, n: nat)
    requires v < Pow2(n) && 8 <= n
    ensures Bits(v, n) == Bits(v % 256, 8) + Bits(v / 256, n - 8) && v / 256 < Pow2(n - 8)
  {
    Shl8(v);
    Byte(v);
    BitsRest(v, 8, n - 8);
    ShrFits(v, n, 8);
    hide Bits, Shr, Shl, Pow2;
  }

  predicate AllBytes(bytes: seq<nat>) { forall i | 0 <= i < |bytes| :: bytes[i] < 256 }

  lemma ShortBytes(bytes: seq<nat>, v: nat)
    requires AllBytes(bytes) && v < 0x10000
    ensures AllBytes(Short(bytes, v))
  {
  }

  lemma BufferShort(v: nat, n: nat)
    requires v < Pow2(n) && n <= 16
    ensures v < 0x10000
  {
    Pow2Monotone(n, 16);
    assert Pow2(4) == 16 && Pow2(8) == 16 * Pow2(4) && Pow2(12) == 16 * Pow2(8) && Pow2(16) == 16 * Pow2(12);
  }

  class Writer {
    var biBuf: nat
    var biValid: nat
    var pending: seq<nat>

    ghost predicate Valid()
      reads this
    {
      biValid <= BUF_SIZE && biBuf < Pow2(biValid) && AllBytes(pending)
    }

    /** Everything sent so far. */
    ghost function Stream(): seq<bool>
      reads this
    {
      Flat(pending) + Bits(biBuf, biValid)
    }

    /** _tr_init. */
    constructor ()
      ensures Valid() && Stream() == [] && biValid == 0
    {
      biBuf, biValid, pending := 0, 0, [];
    }

    /** send_bits; "or" of values without common bits is written as a sum. */
    method SendBits(value: nat, length: nat)
      requires Valid() && length <= 16 && value < Pow2(length)
      modifies this
      ensures Valid() && Stream() == old(Stream()) + Bits(value, length)
    {
      hide Bits, Pow2, Flat, Shl, Shr, Short, AllBytes;
      ghost var before, bits := Flat(pending), Bits(biBuf, biValid);
      if biValid + length > BUF_SIZE {
        Overflows(biBuf, biValid, value, length);
        biBuf := Ush(biBuf + Shl(value, biValid));
        FlatShort(pending, biBuf);
        ShortBytes(pending, biBuf);
        pending := Short(pending, biBuf);
        biBuf := Shr(value, BUF_SIZE - biValid);
        biValid := biValid + length - BUF_SIZE;
      } else {
        StaysWithin(biBuf, biValid, value, length);
        biBuf := biBuf + Shl(value, biValid);
        biValid := biValid + length;
      }
      assert before + bits + Bits(value, length) == before + (bits + Bits(value, length));
    }

    /** bi_flush: at most 7 bits stay in the buffer, nothing is added. */
    method Flush()
      requires Valid()
      modifies this
      ensures Valid() && Stream() == old(Stream()) && biValid < 8 && (old(biValid) == 0 ==> biValid == 0)
    {
      hide Bits, Shr, Shl, Flat, Pow2, Short, AllBytes;
      BufferShort(biBuf, biValid);
      NoBits();
      ghost var before := Flat(pending);
      if biValid == 16 {
        FlatShort(pending, biBuf);
        ShortBytes(pending, biBuf);
        pending := Short(pending, biBuf);
        biBuf, biValid := 0, 0;
      } else if biValid >= 8 {
        FirstByte(biBuf, biValid);
        FlatAppend(pending, biBuf % 256);
        OneMoreByte(pending, biBuf % 256);
        ghost var low := Bits(biBuf % 256, 8);
        pending := pending + [biBuf % 256];
        biBuf, biValid := biBuf / 256, biValid - 8;
        assert before + low + Bits(biBuf, biValid) == before + (low + Bits(biBuf, biValid));
      }
    }

    /** put_short, when no bits are held. */
    method PutShort(v: nat)
      requires Valid() && biValid == 0 && v < 0x10000
      modifies this`pending
      ensures Valid() && biValid == 0 && Stream() == old(Stream()) + Bits(v, 16)
    {
      ShortBytes(pending, v);
      FlatShort(pending, v);
      pending := Short(pending, v);
    }

    /** Bytes copied to the output. */
    method PutBytes(bytes: seq<nat>)
      requires Valid() && biValid == 0 && AllBytes(bytes)
      modifies this`pending
      ensures Valid() && biValid == 0 && Stream() == old(Stream()) + Flat(bytes) && pending == old(pending) + bytes
    {
      FlatConcat(pending, bytes);
      pending := pending + bytes;
    }

    /** bi_windup: zero bits up to the next byte. */
    method WindUp()
      requires Valid()
      modifies this
      ensures Valid() && biValid == 0 && |Stream()| % 8 == 0 && |Stream()| < |old(Stream())| + 8
      ensures old(Stream()) <= Stream() && forall i | |old(Stream())| <= i < |Stream()| :: !Stream()[i]
    {
      hide Bits, Flat, Pow2, Short, AllBytes;
      FlatLength(pending);
      BufferShort(biBuf, biValid);
      NoBits();
      if biValid > 8 {
        PadBits(biBuf, biValid, 16);
        FlatShort(pending, biBuf);
        ShortBytes(pending, biBuf);
        FlatLength(Short(pending, biBuf));
        pending := Short(pending, biBuf);
      } else if biValid > 0 {
        PadBits(biBuf, biValid, 8);
        Byte(biBuf);
        FlatAppend(pending, biBuf % 256);
        OneMoreByte(pending, biBuf % 256);
        FlatLength(pending + [biBuf % 256]);
        pending := pending + [biBuf % 256];
      }
      biBuf, biValid := 0, 0;
    }
  }

  lemma NoBits()
    ensures Bits(0, 0) == [] && 0 < Pow2(0)
  {
  }

  lemma OneMoreByte(bytes: seq<nat>, v: nat)
    requires AllBytes(bytes) && v < 256
    ensures AllBytes(bytes + [v])
  {
  }

  lemma {:induction false} FlatConcat(a: seq<nat>, b: seq<nat>)
    ensures Flat(a + b) == Flat(a) + Flat(b)
    decreases |b|
  {
    hide Bits;
    if b == [] {
      assert a + b == a;
    } else {
      FlatConcat(a, b[..|b| - 1]);
      assert (a + b)[..|a + b| - 1] == a + b[..|b| - 1];
    }
  }

  lemma {:induction false} FlatLength(bytes: seq<nat>)
    ensures |Flat(bytes)| == 8 * |bytes|
  {
    if bytes != [] { FlatLength(bytes[..|bytes| - 1]); }
  }

  lemma {:induction false} PadBits(v: nat, n: nat, m: nat)
    requires v < Pow2(n) && n <= m
    ensures Bits(v, n) <= Bits(v, m) && forall i | n <= i < m :: !Bits(v, m)[i]
    decreases m
  {
    if n > 0 {
      PadBits(v / 2, n - 1, m - 1);
      assert Bits(v, m) == [v % 2 == 1] + Bits(v / 2, m - 1) && Bits(v, n) == [v % 2 == 1] + Bits(v / 2, n - 1);
      forall i | n <= i < m ensures !Bits(v, m)[i] { assert Bits(v, m)[i] == Bits(v / 2, m - 1)[i - 1]; }
    } else if m > 0 {
      PadBits(0, 0, m - 1);
      forall i | 0 <= i < m ensures !Bits(v, m)[i] { if i > 0 { assert Bits(v, m)[i] == Bits(0, m - 1)[i - 1]; } }
    }
  }
}
