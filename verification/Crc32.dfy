/** The CRC of section 8 of RFC 1952, one bit at a time: the shift register is linear over exclusive-or, which is what
    the tables and matrices of crc32.c rest on. */
module Crc32 {
  type Word = bv32
  type Byte = bv8

  // -- Words ----------------------------------------------------------------------------------------------------

  function Xor(a: Word, b: Word): Word { a ^ b }

  function Half(c: Word): Word { c >> 1 }

  function Odd(c: Word): bool { c & 1 == 1 }

  function Ones(): Word { 0xffffffff }

  function Not(c: Word): Word { Xor(c, Ones()) }

  lemma XorComm(x: Word, y: Word)
    ensures Xor(x, y) == Xor(y, x)
  {
  }

  lemma AssocBits(x: Word, y: Word, z: Word)
    ensures (x ^ y) ^ z == x ^ (y ^ z)
  {
  }

  lemma XorAssoc(x: Word, y: Word, z: Word)
    ensures Xor(Xor(x, y), z) == Xor(x, Xor(y, z))
  {
    AssocBits(x, y, z);
  }

  lemma XorZero(x: Word)
    ensures Xor(x, 0) == x && Xor(0, x) == x
  {
  }

  lemma XorSame(x: Word)
    ensures Xor(x, x) == 0
  {
  }

  /** (x + y) + (x + z) = y + z */
  lemma XorCancels(x: Word, y: Word, z: Word)
    ensures Xor(Xor(x, y), Xor(x, z)) == Xor(y, z)
  {
    hide Xor;
    XorComm(x, y);
    XorAssoc(y, x, Xor(x, z));
    XorAssoc(x, x, z);
    XorSame(x);
    XorZero(z);
  }

  lemma HalfBits(a: Word, b: Word)
    ensures (a ^ b) >> 1 == (a >> 1) ^ (b >> 1)
  {
  }

  lemma HalfXor(a: Word, b: Word)
    ensures Half(Xor(a, b)) == Xor(Half(a), Half(b))
  {
    HalfBits(a, b);
  }

  lemma OddBits(a: Word, b: Word)
    ensures a & 1 == 1 && b & 1 == 1 ==> (a ^ b) & 1 != 1
    ensures a & 1 == 1 && b & 1 != 1 ==> (a ^ b) & 1 == 1
    ensures a & 1 != 1 && b & 1 == 1 ==> (a ^ b) & 1 == 1
    ensures a & 1 != 1 && b & 1 != 1 ==> (a ^ b) & 1 != 1
  {
  }

  lemma OddXor(a: Word, b: Word)
    ensures Odd(Xor(a, b)) == (Odd(a) != Odd(b))
  {
    OddBits(a, b);
  }

  // -- The shift register ---------------------------------------------------------------------------------------

  /** The polynomial, lowest power in the most significant bit. */
  function Poly(): Word { 0xedb88320 }

  /** One bit. */
  function Step(c: Word): Word { if Odd(c) then Xor(Poly(), Half(c)) else Half(c) }

  function Steps(c: Word, n: nat): Word
    decreases n
  {
    if n == 0 then c else Steps(Step(c), n - 1)
  }

  /** One byte. */
  function Update(c: Word, b: Word): Word { Steps(Xor(c, b), 8) }

  function Run(c: Word, buf: seq<Byte>): Word
    decreases |buf|
  {
    if buf == [] then c else Update(Run(c, buf[..|buf| - 1]), buf[|buf| - 1] as Word)
  }

  /** The CRC of a buffer that continues one with the given CRC, and of a whole buffer. */
  function Continue(crc: Word, buf: seq<Byte>): Word { Not(Run(Not(crc), buf)) }

  function Crc(buf: seq<Byte>): Word { Continue(0, buf) }

  lemma StepLinear(a: Word, b: Word)
    ensures Step(Xor(a, b)) == Xor(Step(a), Step(b))
  {
    hide Half, Odd, Poly, Xor;
    HalfXor(a, b);
    OddXor(a, b);
    var p, x, y := Poly(), Half(a), Half(b);
    if Odd(a) && Odd(b) {
      XorCancels(p, x, y);
    } else if Odd(a) {
      XorAssoc(p, x, y);
    } else if Odd(b) {
      XorAssoc(p, x, y);
      XorComm(p, x);
      XorAssoc(x, p, y);
    }
  }

  lemma {:induction false} StepsLinear(a: Word, b: Word, n: nat)
    ensures Steps(Xor(a, b), n) == Xor(Steps(a, n), Steps(b, n))
    decreases n
  {
    hide Step, Xor;
    if n > 0 {
      StepLinear(a, b);
      StepsLinear(Step(a), Step(b), n - 1);
    }
  }

  lemma {:induction false} StepsAdd(c: Word, n: nat, m: nat)
    ensures Steps(c, n + m) == Steps(Steps(c, n), m)
    decreases n
  {
    hide Step;
    if n > 0 { StepsAdd(Step(c), n - 1, m); }
  }

  lemma StepsNone(c: Word)
    ensures Steps(c, 0) == c
  {
  }

  lemma ZeroStep()
    ensures Step(0) == 0
  {
  }

  lemma {:induction false} StepsZero(n: nat)
    ensures Steps(0, n) == 0
  {
    ZeroStep();
    hide Step;
    if n > 0 { StepsZero(n - 1); }
  }

  /** A run from any state is the state shifted through as many zeros, plus the run from zero. */
  lemma {:induction false} RunSplits(c: Word, buf: seq<Byte>)
    ensures Run(c, buf) == Xor(Steps(c, 8 * |buf|), Run(0, buf))
    decreases |buf|
  {
    hide Step, Xor;
    if buf == [] {
      XorZero(c);
    } else {
      var n := |buf| - 1;
      RunSplits(c, buf[..n]);
      hide Steps;
      var x, y, b := Steps(c, 8 * n), Run(0, buf[..n]), buf[n] as Word;
      XorAssoc(x, y, b);
      StepsLinear(x, Xor(y, b), 8);
      StepsAdd(c, 8 * n, 8);
    }
  }

  lemma {:induction false} RunConcat(c: Word, a: seq<Byte>, b: seq<Byte>)
    ensures Run(c, a + b) == Run(Run(c, a), b)
    decreases |b|
  {
    hide Update;
    if b == [] {
      assert a + b == a;
    } else {
      var n := |b| - 1;
      assert (a + b)[..|a + b| - 1] == a + b[..n];
      RunConcat(c, a, b[..n]);
    }
  }

  lemma NotXor(x: Word, y: Word)
    ensures Not(Xor(x, y)) == Xor(Not(x), y) == Xor(x, Not(y)) && Not(Not(x)) == x && Xor(Not(x), Not(y)) == Xor(x, y)
  {
    hide Xor, Ones;
    var o := Ones();
    XorAssoc(x, y, o);
    XorComm(y, o);
    XorAssoc(x, o, y);
    XorAssoc(x, o, o);
    XorSame(o);
    XorZero(x);
    XorComm(x, o);
    XorCancels(o, x, y);
  }

  /** The CRC of the whole from those of its parts: the first shifted through as many zero bytes as the second has. */
  lemma CombineIs(a: seq<Byte>, b: seq<Byte>)
    ensures Crc(a + b) == Xor(Steps(Crc(a), 8 * |b|), Crc(b))
  {
    hide Update, Steps, Xor, Not;
    var ones, ra, n := Not(0), Run(Not(0), a), 8 * |b|;
    RunConcat(ones, a, b);
    RunSplits(ra, b);
    RunSplits(ones, b);
    // Crc(a) == ra + ones
    NotXor(ra, 0);
    XorZero(ra);
    XorZero(ones);
    XorComm(ra, ones);
    StepsLinear(ra, ones, n);
    var x, y, z := Steps(ra, n), Steps(ones, n), Run(0, b);
    NotXor(y, z);
    NotXor(x, z);
    XorCancels(y, x, Not(z));
    XorComm(x, y);
  }
}
