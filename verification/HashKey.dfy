/** UPDATE_HASH of deflate.c: the key of three bytes in a row, kept up byte by byte. */
module HashKey {
  import opened Kraft
  import W = BitWriter
  import A = Adler32

  type Octet = A.Octet

  /** hash_bits, and how far the key is shifted for a byte: far enough that three bytes push out what came before. */
  datatype Hash = Hash(bits: nat, shift: nat)

  predicate Suits(k: Hash) { 8 <= k.bits && k.bits <= 3 * k.shift }

  /** What deflateInit2_ makes of memLevel. */
  function HashFor(memLevel: nat): (k: Hash)
    ensures 1 <= memLevel ==> Suits(k)
  {
    Hash(memLevel + 7, (memLevel + 7 + 2) / 3)
  }

  /** The low n bits of the exclusive-or. */
  function LowXor(x: nat, y: nat, n: nat): nat {
    if n == 0 then 0 else (if x % 2 == y % 2 then 0 else 1) + 2 * LowXor(x / 2, y / 2, n - 1)
  }

  /** UPDATE_HASH */
  function Update(k: Hash, h: nat, c: Octet): nat { LowXor(W.Shl(h, k.shift), c, k.bits) }

  /** The key of a string of three bytes. */
  function Key(k: Hash, a: Octet, b: Octet, c: Octet): nat { Update(k, Update(k, Update(k, 0, a), b), c) }

  lemma {:induction false} XorBelow(x: nat, y: nat, n: nat)
    ensures LowXor(x, y, n) < Pow2(n)
    decreases n
  {
    if n > 0 { XorBelow(x / 2, y / 2, n - 1); }
  }

  lemma UpdateBelow(k: Hash, h: nat, c: Octet)
    ensures Update(k, h, c) < Pow2(k.bits)
  {
    XorBelow(W.Shl(h, k.shift), c, k.bits);
  }

  lemma {:induction false} XorCancels(x: nat, c: nat, d: nat, n: nat)
    requires c < Pow2(n) && d < Pow2(n) && LowXor(x, c, n) == LowXor(x, d, n)
    ensures c == d
    decreases n
  {
    if n > 0 { XorCancels(x / 2, c / 2, d / 2, n - 1); }
  }

  lemma ByteFits(k: Hash, c: Octet)
    requires Suits(k)
    ensures c < Pow2(k.bits)
  {
    Pow2Monotone(8, k.bits);
    assert Pow2(4) == 16 && Pow2(8) == 16 * Pow2(4);
  }

  /** Equal keys, and the first two bytes equal: so is the third. */
  lemma KeyThird(k: Hash, a: Octet, b: Octet, c: Octet, d: Octet)
    requires Suits(k) && Key(k, a, b, c) == Key(k, a, b, d)
    ensures c == d
  {
    hide Pow2, LowXor, W.Shl;
    ByteFits(k, c);
    ByteFits(k, d);
    XorCancels(W.Shl(Update(k, Update(k, 0, a), b), k.shift), c, d, k.bits);
  }

  /** The low m bits are the same. */
  predicate Agree(x: nat, y: nat, m: nat) { m == 0 || (x % 2 == y % 2 && Agree(x / 2, y / 2, m - 1)) }

  lemma {:induction false} AgreeShl(x: nat, y: nat, m: nat, n: nat)
    requires Agree(x, y, m)
    ensures Agree(W.Shl(x, n), W.Shl(y, n), m + n)
    decreases n
  {
    if n > 0 {
      AgreeShl(x, y, m, n - 1);
      assert W.Shl(x, n) / 2 == W.Shl(x, n - 1) && W.Shl(y, n) / 2 == W.Shl(y, n - 1);
    }
  }

  lemma {:induction false} AgreeXor(x: nat, y: nat, c: nat, n: nat, m: nat)
    requires Agree(x, y, m)
    ensures Agree(LowXor(x, c, n), LowXor(y, c, n), m) && (n <= m ==> LowXor(x, c, n) == LowXor(y, c, n))
    decreases n
  {
    if n > 0 {
      if m > 0 {
        AgreeXor(x / 2, y / 2, c / 2, n - 1, m - 1);
        assert LowXor(x, c, n) / 2 == LowXor(x / 2, c / 2, n - 1) && LowXor(y, c, n) / 2 == LowXor(y / 2, c / 2, n - 1);
      }
    } else {
      AgreeSelf(0, m);
    }
  }

  lemma {:induction false} AgreeSelf(x: nat, m: nat)
    ensures Agree(x, x, m)
    decreases m
  {
    if m > 0 { AgreeSelf(x / 2, m - 1); }
  }

  lemma AgreeUpdate(k: Hash, x: nat, y: nat, c: Octet, m: nat)
    requires Agree(x, y, m)
    ensures Agree(Update(k, x, c), Update(k, y, c), m + k.shift)
            && (k.bits <= m + k.shift ==> Update(k, x, c) == Update(k, y, c))
  {
    hide W.Shl, LowXor, Agree;
    AgreeShl(x, y, m, k.shift);
    AgreeXor(W.Shl(x, k.shift), W.Shl(y, k.shift), c, k.bits, m + k.shift);
  }

  /** What came before makes no difference once three bytes have been taken in. */
  lemma KeyRolls(k: Hash, h: nat, a: Octet, b: Octet, c: Octet)
    requires Suits(k)
    ensures Update(k, Update(k, Update(k, h, a), b), c) == Key(k, a, b, c)
  {
    assert Agree(h, 0, 0);
    hide Update, Agree;
    AgreeUpdate(k, h, 0, a, 0);
    AgreeUpdate(k, Update(k, h, a), Update(k, 0, a), b, k.shift);
    AgreeUpdate(k, Update(k, Update(k, h, a), b), Update(k, Update(k, 0, a), b), c, 2 * k.shift);
  }

  // -- The running key ------------------------------------------------------------------------------------------

  /** ins_h has taken in the bytes a and b last. */
  ghost predicate Covers(k: Hash, h: nat, a: Octet, b: Octet) { exists g: nat :: Update(k, Update(k, g, a), b) == h }

  /** One more byte: the key of the last three. */
  lemma CoversNext(k: Hash, h: nat, a: Octet, b: Octet, c: Octet)
    requires Suits(k) && Covers(k, h, a, b)
    ensures Update(k, h, c) == Key(k, a, b, c) && Covers(k, Update(k, h, c), b, c)
  {
    hide Update, Key;
    var g: nat :| Update(k, Update(k, g, a), b) == h;
    KeyRolls(k, g, a, b, c);
    assert Update(k, Update(k, Update(k, g, a), b), c) == Update(k, h, c);
  }

  lemma {:induction false} ShlZero(n: nat)
    ensures W.Shl(0, n) == 0
  {
    if n > 0 { ShlZero(n - 1); }
  }

  lemma {:induction false} XorZero(c: nat, n: nat)
    requires c < Pow2(n)
    ensures LowXor(0, c, n) == c
    decreases n
  {
    if n > 0 { XorZero(c / 2, n - 1); }
  }

  /** Started anew with two bytes. */
  lemma CoversFirst(k: Hash, a: Octet, b: Octet)
    requires Suits(k)
    ensures Covers(k, Update(k, a, b), a, b)
  {
    hide Pow2, W.Shl, LowXor;
    ByteFits(k, a);
    ShlZero(k.shift);
    XorZero(a, k.bits);
    assert Update(k, 0, a) == a;
    hide Update;
    assert Update(k, Update(k, 0, a), b) == Update(k, a, b);
  }
}
