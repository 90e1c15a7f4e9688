/** The checksum of a concatenation from the checksums of its parts: shifting zeros through the register is a matrix
    over GF(2), and squaring the matrix doubles the number of zeros (crc32.c). */
module CrcCombine {
  import opened Crc32

  function Double(c: Word): Word { c << 1 }

  function Bit(c: Word): Word { if Odd(c) then 1 else 0 }

  function Top(c: Word): bool { c & 0x80000000 != 0 }

  /** `v` shifted down and up by `n`. */
  function Down(v: Word, n: nat): Word
    decreases n
  {
    if n == 0 then v else Down(Half(v), n - 1)
  }

  function Up(v: Word, n: nat): Word
    decreases n
  {
    if n == 0 then v else Double(Up(v, n - 1))
  }

  /** The word with only bit `n` set. */
  function Unit(n: nat): Word { Up(1, n) }

  /** The product of a matrix, given by its columns, and a vector. */
  function Times(mat: seq<Word>, vec: Word): Word
    decreases |mat|
  {
    if mat == [] then 0 else Xor(if Odd(vec) then mat[0] else 0, Times(mat[1..], Half(vec)))
  }

  /** `mat` is the operator that shifts `k` zero bits through the register. */
  ghost predicate Shifts(mat: seq<Word>, k: nat)
  {
    |mat| == 32 && forall n :: 0 <= n < 32 ==> mat[n] == Steps(Unit(n), k)
  }

  lemma ShiftsAt(mat: seq<Word>, k: nat, n: nat)
    requires Shifts(mat, k) && n < 32
    ensures |mat| == 32 && mat[n] == Steps(Unit(n), k)
  {
  }

  // -- Words ----------------------------------------------------------------------------------------------------

  lemma DoubleBits(a: Word, b: Word)
    ensures (a ^ b) << 1 == (a << 1) ^ (b << 1)
  {
  }

  lemma DoubleXor(a: Word, b: Word)
    ensures Double(Xor(a, b)) == Xor(Double(a), Double(b))
  {
    DoubleBits(a, b);
  }

  lemma LowBits(v: Word)
    ensures v & 1 == 1 ==> v == 1 ^ ((v >> 1) << 1)
    ensures v & 1 != 1 ==> v == (v >> 1) << 1
  {
  }

  lemma LowXor(v: Word)
    ensures Odd(v) ==> v == Xor(1, Double(Half(v)))
    ensures !Odd(v) ==> v == Double(Half(v))
  {
    LowBits(v);
  }

  lemma BitDouble(v: Word)
    ensures v == Xor(Bit(v), Double(Half(v)))
  {
    hide Xor, Double, Half, Odd;
    LowXor(v);
    XorZero(Double(Half(v)));
  }

  lemma DoubledBits(v: Word)
    ensures (v << 1) & 1 != 1
    ensures v & 0x80000000 == 0 ==> (v << 1) >> 1 == v
  {
  }

  lemma DoubleHalf(v: Word)
    ensures !Odd(Double(v)) && (!Top(v) ==> Half(Double(v)) == v)
  {
    DoubledBits(v);
  }

  lemma OddHalf(v: Word)
    ensures Odd(0) == false && Half(0) == 0 && Double(0) == 0
  {
  }

  lemma {:induction false} UpZero(n: nat)
    ensures Up(0, n) == 0
  {
    OddHalf(0);
    hide Double;
    if n > 0 { UpZero(n - 1); }
  }

  lemma {:induction false} UpXor(a: Word, b: Word, n: nat)
    ensures Up(Xor(a, b), n) == Xor(Up(a, n), Up(b, n))
  {
    hide Double, Xor;
    if n > 0 {
      UpXor(a, b, n - 1);
      DoubleXor(Up(a, n - 1), Up(b, n - 1));
    }
  }

  lemma {:induction false} UpDouble(v: Word, n: nat)
    ensures Up(Double(v), n) == Up(v, n + 1)
  {
    hide Double;
    if n > 0 { UpDouble(v, n - 1); }
  }

  lemma {:induction false} DownAdd(v: Word, n: nat, m: nat)
    ensures Down(v, n + m) == Down(Down(v, n), m)
    decreases n
  {
    hide Half;
    if n > 0 { DownAdd(Half(v), n - 1, m); }
  }

  lemma HalfFour(v: Word)
    ensures Half(Half(Half(Half(v)))) == v >> 4
  {
  }

  lemma DownFour(v: Word)
    ensures Down(v, 4) == v >> 4
  {
    hide Half;
    HalfFour(v);
    assert Down(v, 4) == Down(Half(v), 3) == Down(Half(Half(v)), 2) == Down(Half(Half(Half(v))), 1);
  }

  function Nibble(v: Word): Word { v >> 4 }

  lemma AllNibbles(v: Word)
    ensures Nibble(Nibble(Nibble(Nibble(Nibble(Nibble(Nibble(Nibble(v)))))))) == 0
  {
  }

  lemma DownNibble(v: Word, n: nat)
    ensures Down(v, 4 + n) == Down(Nibble(v), n)
  {
    DownFour(v);
    DownAdd(v, 4, n);
  }

  lemma DownAll(v: Word)
    ensures Down(v, 32) == 0
  {
    hide Nibble, Down;
    AllNibbles(v);
    var a := Nibble(Nibble(v));
    var b := Nibble(Nibble(a));
    var c := Nibble(Nibble(b));
    DownNibble(v, 28);
    DownNibble(Nibble(v), 24);
    DownNibble(a, 20);
    DownNibble(Nibble(a), 16);
    DownNibble(b, 12);
    DownNibble(Nibble(b), 8);
    DownNibble(c, 4);
    DownNibble(Nibble(c), 0);
    NotDown(Nibble(Nibble(c)));
  }

  lemma NotDown(v: Word)
    ensures Down(v, 0) == v
  {
  }

  // -- Matrices -------------------------------------------------------------------------------------------------

  lemma {:induction false} TimesZero(mat: seq<Word>)
    ensures Times(mat, 0) == 0
    decreases |mat|
  {
    OddHalf(0);
    hide Half, Odd, Xor;
    if mat != [] {
      TimesZero(mat[1..]);
      XorZero(0);
    }
  }

  /** The columns of a shifting operator from `i` on, applied to what is left of a vector after `i` halvings. */
  lemma {:induction false} TimesSuffix(mat: seq<Word>, k: nat, i: nat, v: Word)
    requires Shifts(mat, k) && i <= 32 && Down(v, 32 - i) == 0
    ensures Times(mat[i..], v) == Steps(Up(v, i), k)
    decreases 32 - i
  {
    hide Half, Odd, Xor, Double, Shifts, Steps;
    if i == 32 {
      assert mat[i..] == [] by { ShiftsAt(mat, k, 0); }
      UpZero(i);
      StepsZero(k);
    } else {
      ShiftsAt(mat, k, i);
      assert mat[i..][1..] == mat[i + 1..];
      assert Down(v, 32 - i) == Down(Half(v), 31 - i);
      TimesSuffix(mat, k, i + 1, Half(v));
      var low, high := Up(Bit(v), i), Up(Double(Half(v)), i);
      UpDouble(Half(v), i);
      BitDouble(v);
      UpXor(Bit(v), Double(Half(v)), i);
      StepsLinear(low, high, k);
      UpZero(i);
      StepsZero(k);
    }
  }

  /** The operator does shift `k` zero bits through the register, whatever the register holds. */
  lemma TimesShifts(mat: seq<Word>, k: nat, v: Word)
    requires Shifts(mat, k)
    ensures Times(mat, v) == Steps(v, k)
  {
    hide Times, Steps, Down;
    DownAll(v);
    ShiftsAt(mat, k, 0);
    TimesSuffix(mat, k, 0, v);
    assert mat[0..] == mat;
  }

  /** Squaring the operator doubles the number of zeros. */
  lemma SquareShifts(square: seq<Word>, mat: seq<Word>, k: nat)
    requires Shifts(mat, k) && |square| == 32
    requires forall n :: 0 <= n < 32 ==> square[n] == Times(mat, mat[n])
    ensures Shifts(square, 2 * k)
  {
    hide Times, Steps;
    forall n | 0 <= n < 32
      ensures square[n] == Steps(Unit(n), 2 * k)
    {
      ShiftsAt(mat, k, n);
      TimesShifts(mat, k, mat[n]);
      StepsAdd(Unit(n), k, k);
    }
  }

  lemma UnitLiterals()
    ensures Unit(0) == 0x1 && Unit(1) == 0x2 && Unit(2) == 0x4 && Unit(3) == 0x8
    ensures Unit(4) == 0x10 && Unit(5) == 0x20 && Unit(6) == 0x40 && Unit(7) == 0x80
    ensures Unit(8) == 0x100 && Unit(9) == 0x200 && Unit(10) == 0x400 && Unit(11) == 0x800
    ensures Unit(12) == 0x1000 && Unit(13) == 0x2000 && Unit(14) == 0x4000 && Unit(15) == 0x8000
    ensures Unit(16) == 0x10000 && Unit(17) == 0x20000 && Unit(18) == 0x40000 && Unit(19) == 0x80000
    ensures Unit(20) == 0x100000 && Unit(21) == 0x200000 && Unit(22) == 0x400000 && Unit(23) == 0x800000
    ensures Unit(24) == 0x1000000 && Unit(25) == 0x2000000 && Unit(26) == 0x4000000 && Unit(27) == 0x8000000
    ensures Unit(28) == 0x10000000 && Unit(29) == 0x20000000 && Unit(30) == 0x40000000 && Unit(31) == 0x80000000
  {
    assert Unit(0) == 0x1 && Unit(1) == 0x2 && Unit(2) == 0x4 && Unit(3) == 0x8;
    assert Unit(4) == 0x10 && Unit(5) == 0x20 && Unit(6) == 0x40 && Unit(7) == 0x80;
    assert Unit(8) == 0x100 && Unit(9) == 0x200 && Unit(10) == 0x400 && Unit(11) == 0x800;
    assert Unit(12) == 0x1000 && Unit(13) == 0x2000 && Unit(14) == 0x4000 && Unit(15) == 0x8000;
    assert Unit(16) == 0x10000 && Unit(17) == 0x20000 && Unit(18) == 0x40000 && Unit(19) == 0x80000;
    assert Unit(20) == 0x100000 && Unit(21) == 0x200000 && Unit(22) == 0x400000 && Unit(23) == 0x800000;
    assert Unit(24) == 0x1000000 && Unit(25) == 0x2000000 && Unit(26) == 0x4000000 && Unit(27) == 0x8000000;
    assert Unit(28) == 0x10000000 && Unit(29) == 0x20000000 && Unit(30) == 0x40000000;
    assert Unit(31) == 0x80000000;
  }

  lemma UnitTops()
    ensures forall n :: 0 <= n < 31 ==> !Top(Unit(n))
  {
    UnitLiterals();
    hide Up;
  }

  /** The matrix crc32_combine_ starts from is the operator for one zero bit. */
  lemma OneBit(odd: seq<Word>)
    requires |odd| == 32 && odd[0] == Poly()
    requires forall n :: 1 <= n < 32 ==> odd[n] == Unit(n - 1)
    ensures Shifts(odd, 1)
  {
    UnitTops();
    FirstColumn();
    hide Poly, Top, Double, Half, Odd, Xor;
    forall n | 0 <= n < 32
      ensures odd[n] == Steps(Unit(n), 1)
    {
      assert Steps(Unit(n), 1) == Steps(Step(Unit(n)), 0) == Step(Unit(n));
      if n > 0 {
        assert Unit(n) == Double(Unit(n - 1));
        DoubleHalf(Unit(n - 1));
      }
    }
  }

  lemma FirstColumn()
    ensures Step(Unit(0)) == Poly()
  {
  }

  // -- The code -------------------------------------------------------------------------------------------------

  /** gf2_matrix_times */
  method Gf2MatrixTimes(mat: array<Word>, vec: Word) returns (sum: Word)
    requires mat.Length == 32
    ensures sum == Times(mat[..], vec)
  {
    hide Half, Odd, Xor;
    sum := 0;
    var v, i := vec, 0;
    DownAll(v);
    XorZero(Times(mat[..], vec));
    assert mat[0..] == mat[..];
    while v != 0
      invariant 0 <= i <= 32 && Down(v, 32 - i) == 0
      invariant Xor(sum, Times(mat[i..], v)) == Times(mat[..], vec)
      decreases 32 - i
    {
      assert mat[i..][1..] == mat[i + 1..];
      ghost var rest := Times(mat[i + 1..], Half(v));
      XorZero(rest);
      XorAssoc(sum, mat[i], rest);
      if Odd(v) { sum := Xor(sum, mat[i]); }
      v := Half(v);
      i := i + 1;
    }
    TimesZero(mat[i..]);
    XorZero(sum);
  }

  /** gf2_matrix_square */
  method Gf2MatrixSquare(square: array<Word>, mat: array<Word>, ghost k: nat)
    requires square.Length == 32 && mat.Length == 32 && square != mat && Shifts(mat[..], k)
    modifies square
    ensures mat[..] == old(mat[..]) && Shifts(square[..], 2 * k)
  {
    hide Shifts, Times;
    for n := 0 to 32
      invariant mat[..] == old(mat[..])
      invariant forall j :: 0 <= j < n ==> square[j] == Times(mat[..], mat[j])
    {
      square[n] := Gf2MatrixTimes(mat, mat[n]);
    }
    SquareShifts(square[..], mat[..], k);
  }

  /** One more binary digit of the length used up. */
  lemma NextDigit(c: Word, d: Word, k: nat, n: nat)
    requires d == if n % 2 == 1 then Steps(c, 2 * k) else c
    ensures Steps(d, 2 * (2 * k) * (n / 2)) == Steps(c, 2 * k * n)
  {
    hide Steps;
    var m := 2 * k;
    if n % 2 == 1 {
      assert n == 1 + 2 * (n / 2);
      assert m * n == m + 2 * m * (n / 2) by { Digit(m, n / 2, n); }
      StepsAdd(c, m, 2 * m * (n / 2));
    } else {
      assert n == 2 * (n / 2);
    }
  }

  lemma Digit(m: int, h: int, n: int)
    requires n == 1 + 2 * h
    ensures m * n == m + 2 * m * h
  {
  }

  /** One turn of the loop's two halves: `to` becomes the square of `from` and is applied for a digit 1. */
  method Apply(to: array<Word>, from: array<Word>, crc: Word, len: nat, ghost k: nat) returns (c: Word)
    requires to.Length == 32 && from.Length == 32 && to != from && Shifts(from[..], k)
    modifies to
    ensures Shifts(to[..], 2 * k) && from[..] == old(from[..])
    ensures Steps(c, 2 * (2 * k) * (len / 2)) == Steps(crc, 2 * k * len)
  {
    hide Shifts, Times, Steps;
    Gf2MatrixSquare(to, from, k);
    c := crc;
    if len % 2 == 1 {
      c := Gf2MatrixTimes(to, crc);
      TimesShifts(to[..], 2 * k, crc);
    }
    NextDigit(crc, c, k, len);
  }

  /** crc32_combine_ */
  method Combine(crc1: Word, crc2: Word, len2: int) returns (crc: Word)
    ensures len2 <= 0 ==> crc == crc1
    ensures len2 > 0 ==> crc == Xor(Steps(crc1, 8 * len2), crc2)
    ensures forall a: seq<Byte>, b: seq<Byte> :: crc1 == Crc(a) && crc2 == Crc(b) && len2 == |b| ==> crc == Crc(a + b)
  {
    hide Shifts, Times, Steps, Poly, Double, Xor, Run, Continue;
    if len2 <= 0 {
      forall a: seq<Byte>, b: seq<Byte> | crc1 == Crc(a) && crc2 == Crc(b) && len2 == |b|
        ensures crc1 == Crc(a + b)
      {
        assert a + b == a;
      }
      return crc1;
    }
    var even, odd := new Word[32], new Word[32];
    odd[0] := Poly();
    var row: Word := 1;
    for n := 1 to 32
      invariant odd[0] == Poly() && row == Unit(n - 1)
      invariant forall j :: 1 <= j < n ==> odd[j] == Unit(j - 1)
    {
      odd[n] := row;
      row := Double(row);
    }
    OneBit(odd[..]);
    Gf2MatrixSquare(even, odd, 1);
    Gf2MatrixSquare(odd, even, 2);
    crc := crc1;
    var len: nat := len2;
    ghost var k: nat := 4;
    while true
      invariant even != odd && even.Length == 32 && odd.Length == 32 && fresh(even) && fresh(odd)
      invariant len > 0 && Shifts(odd[..], k) && Steps(crc, 2 * k * len) == Steps(crc1, 8 * len2)
      decreases len
    {
      crc := Apply(even, odd, crc, len, k);
      len := len / 2;
      k := 2 * k;
      if len == 0 { break; }
      crc := Apply(odd, even, crc, len, k);
      len := len / 2;
      k := 2 * k;
      if len == 0 { break; }
    }
    StepsNone(crc);
    ghost var shifted := crc;
    crc := Xor(crc, crc2);
    forall a: seq<Byte>, b: seq<Byte> | crc1 == Crc(a) && crc2 == Crc(b) && len2 == |b|
      ensures crc == Crc(a + b)
    {
      CombineIs(a, b);
    }
  }
}
