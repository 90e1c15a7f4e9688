/** The tables of crc32.c and the loops that use them: one byte or one word of the buffer at a time, loaded least or
    most significant byte first, they all compute the CRC of section 8 of RFC 1952. */
module CrcTables {
  import opened Crc32
  import opened CrcCombine

  // -- Bytes of a word ------------------------------------------------------------------------------------------

  function Wide(b: Byte): Word { b as Word }

  function Index(b: Byte): (i: nat)
    ensures i < 256
  {
    b as nat
  }

  function ByteOf(n: nat): Byte
    requires n < 256
  {
    n as Byte
  }

  function Byte0(c: Word): Byte { (c & 0xff) as Byte }

  function Byte1(c: Word): Byte { ((c >> 8) & 0xff) as Byte }

  function Byte2(c: Word): Byte { ((c >> 16) & 0xff) as Byte }

  function Byte3(c: Word): Byte { (c >> 24) as Byte }

  function Right(c: Word): Word { c >> 8 }

  function Left(c: Word): Word { c << 8 }

  /** ZSWAP32 */
  function Swap(q: Word): Word
  {
    ((q >> 24) & 0xff) + ((q >> 8) & 0xff00) + ((q & 0xff00) << 8) + ((q & 0xff) << 24)
  }

  /** Four bytes loaded as a word, least or most significant first. */
  function Little(a: Byte, b: Byte, c: Byte, d: Byte): Word
  {
    Wide(a) | (Wide(b) << 8) | (Wide(c) << 16) | (Wide(d) << 24)
  }

  function Big(a: Byte, b: Byte, c: Byte, d: Byte): Word
  {
    (Wide(a) << 24) | (Wide(b) << 16) | (Wide(c) << 8) | Wide(d)
  }

  /** The entry of table `k` for `b`: the CRC of the byte followed by `k` zero bytes. */
  function Entry(k: nat, b: Byte): Word { Steps(Wide(b), 8 * (k + 1)) }

  ghost predicate Tables(t: array2<Word>)
    reads t
  {
    t.Length0 == 8 && t.Length1 == 256
    && (forall k, n :: 0 <= k < 4 && 0 <= n < 256 ==> t[k, n] == Entry(k, ByteOf(n)))
    && (forall k, n :: 4 <= k < 8 && 0 <= n < 256 ==> t[k, n] == Swap(Entry(k - 4, ByteOf(n))))
  }

  lemma IndexByte(b: Byte)
    ensures (b as nat) as Byte == b
  {
  }

  lemma TableAt(t: array2<Word>, k: nat, b: Byte)
    requires Tables(t) && k < 4
    ensures t.Length0 == 8 && t.Length1 == 256
    ensures t[k, Index(b)] == Entry(k, b) && t[k + 4, Index(b)] == Swap(Entry(k, b))
  {
    IndexByte(b);
    hide Swap, Entry;
    assert t[k + 4, Index(b)] == Swap(Entry(k + 4 - 4, b));
  }

  // -- One byte -------------------------------------------------------------------------------------------------

  function High(c: Word): Word { c & 0xffffff00 }

  lemma SplitBits(c: Word)
    ensures c == (((c & 0xff) as Byte) as Word) ^ (c & 0xffffff00)
  {
  }

  lemma SplitLow(c: Word)
    ensures c == Xor(Wide(Byte0(c)), High(c))
  {
    SplitBits(c);
  }

  lemma HighBits(c: Word)
    ensures !Odd(High(c)) && !Odd(Half(High(c))) && !Odd(Half(Half(High(c)))) && !Odd(Half(Half(Half(High(c)))))
  {
  }

  lemma HighNibble(c: Word)
    ensures var h := Nibble(High(c)); !Odd(h) && !Odd(Half(h)) && !Odd(Half(Half(h))) && !Odd(Half(Half(Half(h))))
  {
  }

  lemma FourClear(c: Word)
    requires !Odd(c) && !Odd(Half(c)) && !Odd(Half(Half(c))) && !Odd(Half(Half(Half(c))))
    ensures Steps(c, 4) == Nibble(c)
  {
    HalfFour(c);
    hide Half, Odd;
    assert Steps(c, 4) == Steps(Half(c), 3) == Steps(Half(Half(c)), 2) == Steps(Half(Half(Half(c))), 1);
    assert Steps(Half(Half(Half(c))), 1) == Steps(Half(Half(Half(Half(c)))), 0);
  }

  lemma HighRight(c: Word)
    ensures Nibble(Nibble(High(c))) == Right(c)
  {
  }

  /** A word whose low byte is clear is only shifted. */
  lemma StepsHigh(c: Word)
    ensures Steps(High(c), 8) == Right(c)
  {
    hide Steps, Nibble, High, Half, Odd, Right;
    var h := High(c);
    HighBits(c);
    HighNibble(c);
    FourClear(h);
    FourClear(Nibble(h));
    StepsAdd(h, 4, 4);
    HighRight(c);
  }

  /** What is shifted out first, and the rest. */
  lemma ByteOut(c: Word, n: nat)
    ensures Steps(c, 8 + n) == Xor(Steps(Wide(Byte0(c)), 8 + n), Steps(Right(c), n))
  {
    hide Steps, Byte0, Right, High, Wide, Xor;
    SplitLow(c);
    StepsLinear(Wide(Byte0(c)), High(c), 8 + n);
    StepsAdd(High(c), 8, n);
    StepsHigh(c);
  }

  /** The step of DO1: one table entry and a shift. */
  lemma OneByte(c: Word)
    ensures Steps(c, 8) == Xor(Entry(0, Byte0(c)), Right(c))
  {
    hide Byte0, Right, Xor, Steps;
    ByteOut(c, 0);
    StepsNone(Right(c));
  }

  lemma RightBits(c: Word)
    ensures Right(Right(Right(Right(c)))) == 0
    ensures Byte1(c) == Byte0(Right(c)) && Byte2(c) == Byte0(Right(Right(c)))
            && Byte3(c) == Byte0(Right(Right(Right(c))))
  {
  }

  /** The step of DOLIT4: four table entries. */
  lemma FourBytes(c: Word)
    ensures Steps(c, 32) == Xor(Xor(Xor(Entry(3, Byte0(c)), Entry(2, Byte1(c))), Entry(1, Byte2(c))),
                                Entry(0, Byte3(c)))
  {
    RightBits(c);
    hide Byte0, Byte1, Byte2, Byte3, Right, Xor, Steps;
    var c1 := Right(c);
    var c2 := Right(c1);
    var c3 := Right(c2);
    ByteOut(c, 24);
    ByteOut(c1, 16);
    ByteOut(c2, 8);
    ByteOut(c3, 0);
    StepsZero(0);
    var x, y, z, w := Entry(3, Byte0(c)), Entry(2, Byte1(c)), Entry(1, Byte2(c)), Entry(0, Byte3(c));
    XorZero(w);
    XorAssoc(y, z, w);
    XorAssoc(x, y, Xor(z, w));
    XorAssoc(Xor(x, y), z, w);
  }

  // -- Four bytes of the buffer ---------------------------------------------------------------------------------

  lemma ByteUpBits(y: Word)
    requires y & 0xff000000 == 0
    ensures (y << 8) & 0xffffff00 == y << 8 && (y << 8) >> 8 == y
  {
  }

  function Short(y: Word): bool { y & 0xff000000 == 0 }

  /** A byte added after eight steps could have been added before, eight bits higher. */
  lemma AddBefore(x: Word, y: Word)
    requires Short(y)
    ensures Xor(Steps(x, 8), y) == Steps(Xor(x, Left(y)), 8)
  {
    LeftClear(y);
    hide Steps, Xor, Left, High, Right;
    StepsHigh(Left(y));
    StepsLinear(x, Left(y), 8);
  }

  lemma LeftClear(y: Word)
    requires Short(y)
    ensures High(Left(y)) == Left(y) && Right(Left(y)) == y
  {
    ByteUpBits(y);
  }

  lemma LittleBits(a: Byte, b: Byte, c: Byte, d: Byte)
    ensures Little(a, b, c, d) == Xor(Wide(a), Left(Xor(Wide(b), Left(Xor(Wide(c), Left(Wide(d)))))))
  {
  }

  lemma ShortBits(b: Byte, c: Byte, d: Byte)
    ensures Short(Wide(d)) && Short(Xor(Wide(c), Left(Wide(d))))
            && Short(Xor(Wide(b), Left(Xor(Wide(c), Left(Wide(d))))))
  {
  }

  /** Four bytes are the little-endian word they make, added at once. */
  lemma WordIn(crc: Word, a: Byte, b: Byte, c: Byte, d: Byte)
    ensures Update(Update(Update(Update(crc, Wide(a)), Wide(b)), Wide(c)), Wide(d))
            == Steps(Xor(crc, Little(a, b, c, d)), 32)
  {
    LittleBits(a, b, c, d);
    ShortBits(b, c, d);
    hide Little, Wide, Xor, Left, Steps, Short;
    var wa, wb, wc, wd := Wide(a), Wide(b), Wide(c), Wide(d);
    var cd := Xor(wc, Left(wd));
    var bcd := Xor(wb, Left(cd));
    var s1 := Update(crc, wa);
    var s2 := Update(s1, wb);
    var s3 := Update(s2, wc);
    AddBefore(Xor(s2, wc), wd);
    XorAssoc(s2, wc, Left(wd));
    AddBefore(Xor(s1, wb), cd);
    XorAssoc(s1, wb, Left(cd));
    AddBefore(Xor(crc, wa), bcd);
    XorAssoc(crc, wa, Left(bcd));
    var c0 := Xor(crc, Little(a, b, c, d));
    StepsAdd(c0, 8, 24);
    StepsAdd(Steps(c0, 8), 8, 16);
    StepsAdd(Steps(Steps(c0, 8), 8), 8, 8);
  }

  lemma RunOne(c: Word, buf: seq<Byte>, i: nat)
    requires i < |buf|
    ensures Run(c, buf[..i + 1]) == Update(Run(c, buf[..i]), Wide(buf[i]))
  {
    hide Update;
    assert buf[..i + 1][..i] == buf[..i];
  }

  lemma RunFour(c: Word, buf: seq<Byte>, i: nat)
    requires i + 4 <= |buf|
    ensures Run(c, buf[..i + 4]) == Steps(Xor(Run(c, buf[..i]), Little(buf[i], buf[i + 1], buf[i + 2], buf[i + 3])), 32)
  {
    hide Run, Update, Steps, Xor, Little;
    RunOne(c, buf, i);
    RunOne(c, buf, i + 1);
    RunOne(c, buf, i + 2);
    RunOne(c, buf, i + 3);
    WordIn(Run(c, buf[..i]), buf[i], buf[i + 1], buf[i + 2], buf[i + 3]);
  }

  // -- Swapped words --------------------------------------------------------------------------------------------

  function SwapOr(q: Word): Word
  {
    ((q >> 24) & 0xff) | ((q >> 8) & 0xff00) | ((q & 0xff00) << 8) | ((q & 0xff) << 24)
  }

  lemma SwapIsOr(q: Word)
    ensures Swap(q) == SwapOr(q)
  {
  }

  lemma SwapOrXor(a: Word, b: Word)
    ensures SwapOr(Xor(a, b)) == Xor(SwapOr(a), SwapOr(b))
  {
  }

  lemma SwapXor(a: Word, b: Word)
    ensures Swap(Xor(a, b)) == Xor(Swap(a), Swap(b))
  {
    hide Swap, Xor, SwapOr;
    SwapIsOr(Xor(a, b));
    SwapIsOr(a);
    SwapIsOr(b);
    SwapOrXor(a, b);
  }

  lemma SwapOrBits(c: Word)
    ensures SwapOr(SwapOr(c)) == c && SwapOr(Right(c)) == Left(SwapOr(c)) && SwapOr(Ones()) == Ones()
    ensures Byte0(SwapOr(c)) == Byte3(c) && Byte1(SwapOr(c)) == Byte2(c)
    ensures Byte2(SwapOr(c)) == Byte1(c) && Byte3(SwapOr(c)) == Byte0(c)
  {
  }

  lemma SwapBytes(c: Word)
    ensures Swap(Swap(c)) == c && Swap(Right(c)) == Left(Swap(c)) && Swap(Ones()) == Ones()
    ensures Byte0(Swap(c)) == Byte3(c) && Byte1(Swap(c)) == Byte2(c)
    ensures Byte2(Swap(c)) == Byte1(c) && Byte3(Swap(c)) == Byte0(c)
  {
    SwapOrBits(c);
    hide Swap, SwapOr, Right, Left, Ones, Byte0, Byte1, Byte2, Byte3;
    SwapIsOr(c);
    SwapIsOr(SwapOr(c));
    SwapIsOr(Right(c));
    SwapIsOr(Ones());
  }

  lemma SwapNot(c: Word)
    ensures Swap(Not(c)) == Not(Swap(c)) && Swap(Swap(c)) == c
  {
    hide Swap, Xor, Ones;
    SwapBytes(c);
    SwapXor(c, Ones());
  }

  lemma SwapLittle(a: Byte, b: Byte, c: Byte, d: Byte)
    ensures Swap(Little(a, b, c, d)) == Big(a, b, c, d)
  {
    hide Swap, Little, Big;
    SwapIsOr(Little(a, b, c, d));
    LittleOr(a, b, c, d);
  }

  lemma LittleOr(a: Byte, b: Byte, c: Byte, d: Byte)
    ensures SwapOr(Little(a, b, c, d)) == Big(a, b, c, d)
  {
  }

  lemma ByteXor(c: Word, b: Byte)
    ensures Byte0(Xor(c, Wide(b))) == Byte0(c) ^ b && Right(Xor(c, Wide(b))) == Right(c)
  {
  }

  // -- The steps of the code ------------------------------------------------------------------------------------

  function MixLow(c: Word, b: Byte): Byte { Byte0(c) ^ b }

  function MixHigh(c: Word, b: Byte): Byte { Byte3(c) ^ b }

  /** DO1, and the byte loops of crc32_little. */
  method OneLittle(t: array2<Word>, c: Word, b: Byte) returns (r: Word)
    requires Tables(t)
    ensures r == Update(c, Wide(b))
  {
    ByteXor(c, b);
    hide Tables, Steps, Entry, Byte0, Right, Xor, Wide;
    TableAt(t, 0, MixLow(c, b));
    r := Xor(t[0, Index(MixLow(c, b))], Right(c));
    OneByte(Xor(c, Wide(b)));
  }

  /** DOLIT4 */
  method FourLittle(t: array2<Word>, crc: Word, w: Word) returns (r: Word)
    requires Tables(t)
    ensures r == Steps(Xor(crc, w), 32)
  {
    hide Tables, Steps, Entry, Byte0, Byte1, Byte2, Byte3, Xor;
    var c := Xor(crc, w);
    TableAt(t, 3, Byte0(c));
    TableAt(t, 2, Byte1(c));
    TableAt(t, 1, Byte2(c));
    TableAt(t, 0, Byte3(c));
    FourBytes(c);
    r := Xor(Xor(Xor(t[3, Index(Byte0(c))], t[2, Index(Byte1(c))]), t[1, Index(Byte2(c))]), t[0, Index(Byte3(c))]);
  }

  /** The byte loops of crc32_big: `c` holds the register `s` byte-swapped. */
  method OneBig(t: array2<Word>, c: Word, b: Byte, ghost s: Word) returns (r: Word)
    requires Tables(t) && c == Swap(s)
    ensures r == Swap(Update(s, Wide(b)))
  {
    ByteXor(s, b);
    hide Tables, Steps, Entry, Byte0, Byte1, Byte2, Byte3, Right, Left, Xor, Wide, Swap;
    SwapBytes(s);
    TableAt(t, 0, MixHigh(c, b));
    r := Xor(t[4, Index(MixHigh(c, b))], Left(c));
    OneByte(Xor(s, Wide(b)));
    SwapXor(Entry(0, MixLow(s, b)), Right(s));
  }

  /** DOBIG4 */
  method FourBig(t: array2<Word>, crc: Word, w: Word, ghost s: Word, ghost u: Word) returns (r: Word)
    requires Tables(t) && crc == Swap(s) && w == Swap(u)
    ensures r == Swap(Steps(Xor(s, u), 32))
  {
    hide Tables, Steps, Entry, Byte0, Byte1, Byte2, Byte3, Xor, Swap;
    var c := Xor(crc, w);
    ghost var d := Xor(s, u);
    SwapXor(s, u);
    SwapBytes(d);
    TableAt(t, 0, Byte0(c));
    TableAt(t, 1, Byte1(c));
    TableAt(t, 2, Byte2(c));
    TableAt(t, 3, Byte3(c));
    r := Xor(Xor(Xor(t[4, Index(Byte0(c))], t[5, Index(Byte1(c))]), t[6, Index(Byte2(c))]), t[7, Index(Byte3(c))]);
    FourBytes(d);
    Reversed(Entry(3, Byte0(d)), Entry(2, Byte1(d)), Entry(1, Byte2(d)), Entry(0, Byte3(d)));
  }

  lemma Reversed(x: Word, y: Word, z: Word, w: Word)
    ensures Swap(Xor(Xor(Xor(x, y), z), w)) == Xor(Xor(Xor(Swap(w), Swap(z)), Swap(y)), Swap(x))
  {
    hide Swap, Xor;
    SwapXor(x, y);
    SwapXor(Xor(x, y), z);
    SwapXor(Xor(Xor(x, y), z), w);
    var sx, sy, sz, sw := Swap(x), Swap(y), Swap(z), Swap(w);
    XorComm(sx, sy);
    XorComm(Xor(sy, sx), sz);
    XorComm(Xor(sz, Xor(sy, sx)), sw);
    XorAssoc(sz, sy, sx);
    XorAssoc(sw, Xor(sz, sy), sx);
    XorAssoc(sw, sz, sy);
  }

  // -- The tables -----------------------------------------------------------------------------------------------

  function Power(n: nat): (p: nat)
    requires n < 14
    ensures p < 32
  {
    match n
    case 0 => 0
    case 1 => 1
    case 2 => 2
    case 3 => 4
    case 4 => 5
    case 5 => 7
    case 6 => 8
    case 7 => 10
    case 8 => 11
    case 9 => 12
    case 10 => 16
    case 11 => 22
    case 12 => 23
    case 13 => 26
  }

  /** The polynomial with its first `n` powers set. */
  function PolyOf(n: nat): Word
    requires n <= 14
    decreases n
  {
    if n == 0 then 0 else PolyOf(n - 1) | Unit(31 - Power(n - 1))
  }

  lemma PolyFrom(n: nat)
    requires n < 14
    ensures PolyOf(n + 1) == PolyOf(n) | Unit(31 - Power(n))
  {
  }

  /** The powers listed in make_crc_table are those of the constant 0xedb88320. */
  lemma PolyIs()
    ensures PolyOf(14) == Poly()
  {
    UnitLiterals();
    hide PolyOf, Up;
    PolyFrom(0); PolyFrom(1); PolyFrom(2); PolyFrom(3); PolyFrom(4); PolyFrom(5); PolyFrom(6);
    PolyFrom(7); PolyFrom(8); PolyFrom(9); PolyFrom(10); PolyFrom(11); PolyFrom(12); PolyFrom(13);
    PolyNone();
  }

  lemma PolyNone()
    ensures PolyOf(0) == 0
  {
  }

  /** One entry of the later tables from the entry before. */
  lemma NextEntry(k: nat, b: Byte)
    ensures Entry(k + 1, b) == Xor(Entry(0, Byte0(Entry(k, b))), Right(Entry(k, b)))
  {
    hide Steps, Xor, Right, Byte0, Wide;
    StepsAdd(Wide(b), 8 * (k + 1), 8);
    OneByte(Entry(k, b));
  }

  ghost predicate FirstTable(t: array2<Word>)
    reads t
    requires t.Length0 == 8 && t.Length1 == 256
  {
    forall n :: 0 <= n < 256 ==> t[0, n] == Entry(0, ByteOf(n))
  }

  lemma FirstAt(t: array2<Word>, b: Byte)
    requires t.Length0 == 8 && t.Length1 == 256 && FirstTable(t)
    ensures t[0, Index(b)] == Entry(0, b)
  {
    IndexByte(b);
    hide Entry;
  }

  /** Column `n` of tables 1 to 7, of which those up to `k` and `k + 4` are done. */
  ghost predicate Column(t: array2<Word>, n: nat, k: nat)
    reads t
    requires t.Length0 == 8 && t.Length1 == 256 && n < 256 && k <= 4
  {
    (forall j :: 1 <= j < k ==> t[j, n] == Entry(j, ByteOf(n)))
    && (forall j :: 4 <= j < k + 4 ==> t[j, n] == Swap(Entry(j - 4, ByteOf(n))))
  }

  method FirstEntry(poly: Word, b: Byte) returns (c: Word)
    requires poly == Poly()
    ensures c == Entry(0, b)
  {
    hide Half, Odd, Xor, Wide, Poly;
    c := Wide(b);
    for k := 0 to 8
      invariant Steps(c, 8 - k) == Entry(0, b)
    {
      NextStep(c, 7 - k);
      c := if Odd(c) then Xor(poly, Half(c)) else Half(c);
    }
    StepsNone(c);
  }

  lemma NextStep(c: Word, n: nat)
    ensures Steps(c, n + 1) == Steps(Step(c), n)
  {
  }

  /** The polynomial, from its terms. */
  method MakePoly() returns (poly: Word)
    ensures poly == Poly()
  {
    hide Poly, Unit, Power;
    poly := 0;
    for n: nat := 0 to 14
      invariant poly == PolyOf(n)
    {
      poly := poly | Unit(31 - Power(n));
    }
    PolyIs();
  }

  method MakeFirst(t: array2<Word>)
    requires t.Length0 == 8 && t.Length1 == 256
    modifies t
    ensures FirstTable(t)
  {
    hide Entry, ByteOf, Poly;
    var poly := MakePoly();
    for n := 0 to 256
      invariant forall j :: 0 <= j < n ==> t[0, j] == Entry(0, ByteOf(j))
    {
      t[0, n] := FirstEntry(poly, ByteOf(n));
    }
  }

  method MakeColumn(t: array2<Word>, n: nat)
    requires t.Length0 == 8 && t.Length1 == 256 && n < 256 && FirstTable(t)
    modifies t
    ensures forall j :: 0 <= j < 256 ==> t[0, j] == old(t[0, j])
    ensures forall k, j :: 0 <= k < 8 && 0 <= j < 256 && j != n ==> t[k, j] == old(t[k, j])
    ensures Column(t, n, 4)
  {
    hide Swap, Xor, Right, Byte0, Entry, ByteOf;
    var b := ByteOf(n);
    var c := t[0, n];
    t[4, n] := Swap(c);
    for k: nat := 1 to 4
      invariant c == Entry(k - 1, b)
      invariant FirstTable(t) && forall j :: 0 <= j < 256 ==> t[0, j] == old(t[0, j])
      invariant forall k, j :: 0 <= k < 8 && 0 <= j < 256 && j != n ==> t[k, j] == old(t[k, j])
      invariant Column(t, n, k)
    {
      NextEntry(k - 1, b);
      FirstAt(t, Byte0(c));
      c := Xor(t[0, Index(Byte0(c))], Right(c));
      t[k, n] := c;
      t[k + 4, n] := Swap(c);
    }
  }

  /** make_crc_table */
  method MakeCrcTable(t: array2<Word>)
    requires t.Length0 == 8 && t.Length1 == 256
    modifies t
    ensures Tables(t)
  {
    hide Swap, Entry, ByteOf;
    MakeFirst(t);
    for n := 0 to 256
      invariant FirstTable(t) && forall m :: 0 <= m < n ==> Column(t, m, 4)
    {
      label before:
      MakeColumn(t, n);
      forall m | 0 <= m < n
        ensures Column(t, m, 4)
      {
        assert old@before(Column(t, m, 4));
      }
    }
    forall k, n | 0 <= k < 4 && 0 <= n < 256
      ensures t[k, n] == Entry(k, ByteOf(n))
    {
      assert Column(t, n, 4);
    }
    forall k, n | 4 <= k < 8 && 0 <= n < 256
      ensures t[k, n] == Swap(Entry(k - 4, ByteOf(n)))
    {
      assert Column(t, n, 4);
    }
  }

  // -- The buffers ----------------------------------------------------------------------------------------------

  /** The loop over single bytes from `i` to `n`, on an ordinary register. */
  method LittleBytes(t: array2<Word>, crc: Word, buf: array<Byte>, i: nat, n: nat, ghost start: Word) returns (c: Word)
    requires Tables(t) && i <= n <= buf.Length && crc == Run(start, buf[..i])
    ensures c == Run(start, buf[..n])
  {
    hide Tables, Run, Wide;
    c := crc;
    for j := i to n
      invariant c == Run(start, buf[..j])
    {
      c := OneLittle(t, c, buf[j]);
      RunOne(start, buf[..], j);
      assert buf[..][..j] == buf[..j] && buf[..][..j + 1] == buf[..j + 1];
    }
  }

  method LittleWord(t: array2<Word>, crc: Word, buf: array<Byte>, i: nat, ghost start: Word) returns (c: Word)
    requires Tables(t) && i + 4 <= buf.Length && crc == Run(start, buf[..i])
    ensures c == Run(start, buf[..i + 4])
  {
    hide Tables, Run, Little, Steps, Xor;
    c := FourLittle(t, crc, Little(buf[i], buf[i + 1], buf[i + 2], buf[i + 3]));
    RunFour(start, buf[..], i);
    assert buf[..][..i] == buf[..i] && buf[..][..i + 4] == buf[..i + 4];
  }

  method BigBytes(t: array2<Word>, crc: Word, buf: array<Byte>, i: nat, n: nat, ghost start: Word) returns (c: Word)
    requires Tables(t) && i <= n <= buf.Length && crc == Swap(Run(start, buf[..i]))
    ensures c == Swap(Run(start, buf[..n]))
  {
    hide Tables, Run, Wide, Swap;
    c := crc;
    for j := i to n
      invariant c == Swap(Run(start, buf[..j]))
    {
      c := OneBig(t, c, buf[j], Run(start, buf[..j]));
      RunOne(start, buf[..], j);
      assert buf[..][..j] == buf[..j] && buf[..][..j + 1] == buf[..j + 1];
    }
  }

  method BigWord(t: array2<Word>, crc: Word, buf: array<Byte>, i: nat, ghost start: Word) returns (c: Word)
    requires Tables(t) && i + 4 <= buf.Length && crc == Swap(Run(start, buf[..i]))
    ensures c == Swap(Run(start, buf[..i + 4]))
  {
    hide Tables, Run, Little, Big, Steps, Xor, Swap;
    SwapLittle(buf[i], buf[i + 1], buf[i + 2], buf[i + 3]);
    c := FourBig(t, crc, Big(buf[i], buf[i + 1], buf[i + 2], buf[i + 3]),
                 Run(start, buf[..i]), Little(buf[i], buf[i + 1], buf[i + 2], buf[i + 3]));
    RunFour(start, buf[..], i);
    assert buf[..][..i] == buf[..i] && buf[..][..i + 4] == buf[..i + 4];
  }

  /** crc32_little */
  method CrcLittle(t: array2<Word>, crc: Word, buf: array<Byte>, address: nat) returns (r: Word)
    requires Tables(t) && address < 4
    ensures r == Continue(crc, buf[..])
  {
    hide Tables, Run;
    var c := Not(crc);
    ghost var start := c;
    var i := 0;
    RunNone(start, buf[..0]);
    while i < buf.Length && (address + i) % 4 != 0
      invariant i <= buf.Length && c == Run(start, buf[..i])
    {
      c := LittleBytes(t, c, buf, i, i + 1, start);
      i := i + 1;
    }
    while buf.Length - i >= 32
      invariant i <= buf.Length && c == Run(start, buf[..i])
    {
      for k := 0 to 8
        invariant c == Run(start, buf[..i + 4 * k])
      {
        c := LittleWord(t, c, buf, i + 4 * k, start);
      }
      i := i + 32;
    }
    while buf.Length - i >= 4
      invariant i <= buf.Length && c == Run(start, buf[..i])
    {
      c := LittleWord(t, c, buf, i, start);
      i := i + 4;
    }
    c := LittleBytes(t, c, buf, i, buf.Length, start);
    assert buf[..buf.Length] == buf[..];
    r := Not(c);
  }

  /** crc32_big */
  method CrcBig(t: array2<Word>, crc: Word, buf: array<Byte>, address: nat) returns (r: Word)
    requires Tables(t) && address < 4
    ensures r == Continue(crc, buf[..])
  {
    hide Tables, Run, Swap, Xor;
    var c := Not(Swap(crc));
    SwapNot(crc);
    ghost var start := Not(crc);
    var i := 0;
    RunNone(start, buf[..0]);
    while i < buf.Length && (address + i) % 4 != 0
      invariant i <= buf.Length && c == Swap(Run(start, buf[..i]))
    {
      c := BigBytes(t, c, buf, i, i + 1, start);
      i := i + 1;
    }
    while buf.Length - i >= 32
      invariant i <= buf.Length && c == Swap(Run(start, buf[..i]))
    {
      for k := 0 to 8
        invariant c == Swap(Run(start, buf[..i + 4 * k]))
      {
        c := BigWord(t, c, buf, i + 4 * k, start);
      }
      i := i + 32;
    }
    while buf.Length - i >= 4
      invariant i <= buf.Length && c == Swap(Run(start, buf[..i]))
    {
      c := BigWord(t, c, buf, i, start);
      i := i + 4;
    }
    c := BigBytes(t, c, buf, i, buf.Length, start);
    assert buf[..buf.Length] == buf[..];
    SwapNot(c);
    SwapNot(Run(start, buf[..]));
    r := Swap(Not(c));
  }

  lemma RunNone(c: Word, buf: seq<Byte>)
    requires buf == []
    ensures Run(c, buf) == c
  {
  }

  /** crc32_z: `byFour` says whether the word loops are compiled in, `little` what the test of the byte order finds. */
  method CrcOf(t: array2<Word>, crc: Word, buf: array?<Byte>, address: nat, byFour: bool, little: bool)
      returns (r: Word)
    requires Tables(t) && address < 4
    ensures r == if buf == null then 0 else Continue(crc, buf[..])
  {
    hide Tables, Run, Xor;
    if buf == null { return 0; }
    if byFour {
      if little {
        r := CrcLittle(t, crc, buf, address);
      } else {
        r := CrcBig(t, crc, buf, address);
      }
      return;
    }
    var c := Not(crc);
    ghost var start := c;
    var i := 0;
    RunNone(start, buf[..0]);
    while buf.Length - i >= 8
      invariant i <= buf.Length && c == Run(start, buf[..i])
    {
      c := LittleBytes(t, c, buf, i, i + 8, start);
      i := i + 8;
    }
    c := LittleBytes(t, c, buf, i, buf.Length, start);
    assert buf[..buf.Length] == buf[..];
    r := Not(c);
  }
}
