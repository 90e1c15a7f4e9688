/** The Adler-32 checksum of section 2.2 of RFC 1950 and the code that defers its divisions (adler32.c). */
module Adler32 {
  type Octet = x: int | 0 <= x < 256

  /** The largest prime below 65536, the length of a block summed without dividing, and the values of an unsigned word.
      */
  const BASE: nat := 65521
  const NMAX: nat := 5552
  const VALUES: nat := 0x1_0000_0000

  /** Two sums of 16 bits as one checksum, and the sums of a checksum. */
  function Pack(low: nat, high: nat): nat { low + high * 65536 }

  function Low(adler: nat): (r: nat)
    ensures r < 65536
  {
    adler % 65536
  }

  function High(adler: nat): (r: nat)
    ensures r < 65536
  {
    adler / 65536 % 65536
  }

  /** The definition: both sums are reduced after every byte. */
  function Sums(a: nat, s: nat, buf: seq<Octet>): (nat, nat)
    decreases |buf|
  {
    if buf == [] then (a % BASE, s % BASE)
    else
      AddByte(Sums(a, s, buf[..|buf| - 1]), buf[|buf| - 1])
  }

  function AddByte(p: (nat, nat), b: Octet): (nat, nat)
  {
    var x := (p.0 + b) % BASE;
    (x, (p.1 + x) % BASE)
  }

  function Checksum(adler: nat, buf: seq<Octet>): nat
  {
    var p := Sums(Low(adler), High(adler), buf);
    Pack(p.0, p.1)
  }

  function Adler(buf: seq<Octet>): nat { Checksum(1, buf) }

  // -- Sums that are never reduced ------------------------------------------------------------------------------

  function RawLow(a: nat, buf: seq<Octet>): nat
    decreases |buf|
  {
    if buf == [] then a else RawLow(a, buf[..|buf| - 1]) + buf[|buf| - 1]
  }

  function RawHigh(a: nat, s: nat, buf: seq<Octet>): nat
    decreases |buf|
  {
    if buf == [] then s else RawHigh(a, s, buf[..|buf| - 1]) + RawLow(a, buf)
  }

  lemma ModAdd(x: nat, y: nat)
    ensures (x % BASE + y) % BASE == (x + y) % BASE && (x + y % BASE) % BASE == (x + y) % BASE
  {
  }

  lemma {:induction false} SumsRaw(a: nat, s: nat, buf: seq<Octet>)
    ensures Sums(a, s, buf) == (RawLow(a, buf) % BASE, RawHigh(a, s, buf) % BASE)
    decreases |buf|
  {
    hide AddByte;
    if buf != [] {
      var init, b := buf[..|buf| - 1], buf[|buf| - 1];
      SumsRaw(a, s, init);
      AddRaw(RawLow(a, init), RawHigh(a, s, init), b);
    }
  }

  lemma AddRaw(low: nat, high: nat, b: Octet)
    ensures AddByte((low % BASE, high % BASE), b) == ((low + b) % BASE, (high + (low + b)) % BASE)
  {
    ModAdd(low, b);
    ModAdd(high, low + b);
    ModAdd(high % BASE, low + b);
  }

  lemma SumsNone(a: nat, s: nat)
    ensures Sums(a % BASE, s % BASE, []) == (a % BASE, s % BASE)
  {
  }

  /** The definition may be continued from reduced sums. */
  lemma {:induction false} SumsConcat(a: nat, s: nat, x: seq<Octet>, y: seq<Octet>)
    ensures var p := Sums(a, s, x); Sums(p.0, p.1, y) == Sums(a, s, x + y)
    decreases |y|
  {
    hide AddByte, RawLow, RawHigh;
    if y == [] {
      assert x + y == x;
      SumsRaw(a, s, x);
      SumsNone(RawLow(a, x), RawHigh(a, s, x));
      assert y == [];
    } else {
      assert (x + y)[..|x + y| - 1] == x + y[..|y| - 1];
      SumsConcat(a, s, x, y[..|y| - 1]);
    }
  }

  lemma {:induction false} RawBounds(a: nat, s: nat, buf: seq<Octet>)
    ensures a <= RawLow(a, buf) <= a + 255 * |buf|
    ensures 2 * RawHigh(a, s, buf) <= 2 * s + 2 * |buf| * a + 255 * (|buf| * (|buf| + 1))
    decreases |buf|
  {
    if buf != [] {
      var n := |buf| - 1;
      RawBounds(a, s, buf[..n]);
      assert 2 * (n + 1) * a == 2 * n * a + 2 * a;
      assert (n + 1) * (n + 2) == n * (n + 1) + 2 * (n + 1);
    }
  }

  lemma Monotone(n: nat, m: nat, a: nat)
    requires n <= m && a < 65536
    ensures n * a <= m * 65535 && n * (n + 1) <= m * (m + 1)
  {
    assert n * a <= n * 65535;
    assert n * (n + 1) <= m * (n + 1) <= m * (m + 1);
  }

  /** No sum of a block leaves an unsigned word of 32 bits, not even from sums of 16 bits that are not reduced. */
  lemma BlockFits(a: nat, s: nat, buf: seq<Octet>)
    requires a < 65536 && s < 65536 && |buf| <= NMAX
    ensures RawLow(a, buf) < VALUES && RawHigh(a, s, buf) < VALUES
  {
    hide RawLow, RawHigh;
    RawBounds(a, s, buf);
    Monotone(|buf|, NMAX, a);
    Regroup(|buf|, a);
  }

  lemma RawOne(a: nat, s: nat, buf: seq<Octet>, i: nat)
    requires i < |buf|
    ensures RawLow(a, buf[..i + 1]) == RawLow(a, buf[..i]) + buf[i]
    ensures RawHigh(a, s, buf[..i + 1]) == RawHigh(a, s, buf[..i]) + RawLow(a, buf[..i + 1])
  {
    assert buf[..i + 1][..i] == buf[..i];
  }

  // -- Reductions without division ------------------------------------------------------------------------------

  /** CHOP: 65536 leaves 15. */
  function Chop(a: nat): nat { a % 65536 + (a / 65536 * 16 - a / 65536) }

  function Once(a: nat): nat { if a >= BASE then a - BASE else a }

  /** The macros MOD28, MOD and MOD63, with and without NO_DIVIDE. */
  function Mod28(divide: bool, a: nat): nat { if divide then a % BASE else Once(Chop(a)) }

  function Mod(divide: bool, a: nat): nat { if divide then a % BASE else Once(Chop(Chop(a))) }

  function Fold(a: nat): nat
  {
    var tmp := a / VALUES;
    a % VALUES + (tmp * 256 - tmp * 32 + tmp)
  }

  function Mod63(divide: bool, a: nat): nat { if divide then a % BASE else Once(Chop(Chop(Fold(a)))) }

  lemma Unique(x: nat, r: nat, k: nat)
    requires x == r + k * BASE && r < BASE
    ensures x % BASE == r
  {
  }

  lemma SameMod(x: nat, y: nat, k: nat)
    requires x == y + k * BASE
    ensures x % BASE == y % BASE
  {
    var q, r := y / BASE, y % BASE;
    assert x == r + (q + k) * BASE;
    Unique(x, r, q + k);
  }

  lemma ChopMod(a: nat)
    ensures Chop(a) % BASE == a % BASE
  {
    assert a == Chop(a) + (a / 65536) * BASE;
    SameMod(a, Chop(a), a / 65536);
  }

  lemma FoldMod(a: nat)
    ensures Fold(a) % BASE == a % BASE
  {
    var tmp := a / VALUES;
    assert a == Fold(a) + (65551 * tmp) * BASE;
    SameMod(a, Fold(a), 65551 * tmp);
  }

  lemma OnceMod(a: nat)
    requires a < 2 * BASE
    ensures Once(a) == a % BASE
  {
    if a >= BASE { Unique(a, a - BASE, 1); }
  }

  lemma ChopBound(a: nat, n: nat)
    requires a < 65536 * n
    ensures n > 0 && Chop(a) < 65536 + 15 * (n - 1)
  {
    var q := a / 65536;
    assert n > 0 && q <= n - 1;
  }

  /** The shifts and additions that replace a division compute its remainder. */
  lemma ModIs(divide: bool, a: nat)
    ensures a < VALUES ==> Mod(divide, a) == a % BASE
    ensures a < 0x1000_0000 ==> Mod28(divide, a) == a % BASE
    ensures a < 0x8000_0000_0000_0000 ==> Mod63(divide, a) == a % BASE
  {
    hide Once, Chop, Fold;
    if !divide {
      if a < VALUES {
        ChopBound(a, 65536);
        ChopBound(Chop(a), 16);
        ChopMod(a);
        ChopMod(Chop(a));
        OnceMod(Chop(Chop(a)));
      }
      if a < 0x1000_0000 {
        ChopBound(a, 4096);
        ChopMod(a);
        OnceMod(Chop(a));
      }
      if a < 0x8000_0000_0000_0000 {
        var f := Fold(a);
        FoldBound(a);
        FoldMod(a);
        ChopBound(f, 0x80_0000);
        ChopBound(Chop(f), 2048);
        ChopMod(f);
        ChopMod(Chop(f));
        OnceMod(Chop(Chop(f)));
      }
    }
  }

  lemma FoldBound(a: nat)
    requires a < 0x8000_0000_0000_0000
    ensures Fold(a) < 65536 * 0x80_0000
  {
  }

  // -- adler32_z ------------------------------------------------------------------------------------------------

  /** Unsigned addition of 32 bits. */
  function Add(a: nat, b: nat): nat { (a + b) % VALUES }

  lemma AddSmall(a: nat, b: nat)
    requires a + b < VALUES
    ensures Add(a, b) == a + b
  {
  }

  /** The additions of DO1 for the bytes from `i` to `n`, in a block that starts at `from` with sums `a` and `s`. */
  method Block(buf: array<Octet>, from: nat, n: nat, a: nat, s: nat) returns (low: nat, high: nat)
    requires a < 65536 && s < 65536 && from <= n <= buf.Length && n - from <= NMAX
    ensures low == RawLow(a, buf[from..n]) && high == RawHigh(a, s, buf[from..n])
  {
    hide RawLow, RawHigh, Add;
    low, high := a, s;
    RawNone(a, s, buf[from..from]);
    for i := from to n
      invariant low == RawLow(a, buf[from..i]) && high == RawHigh(a, s, buf[from..i])
    {
      ghost var block := buf[from..n];
      assert block[..i - from] == buf[from..i] && block[..i + 1 - from] == buf[from..i + 1];
      RawOne(a, s, block, i - from);
      BlockFits(a, s, buf[from..i + 1]);
      AddSmall(low, buf[i]);
      low := Add(low, buf[i]);
      AddSmall(high, low);
      high := Add(high, low);
    }
  }

  lemma RawNone(a: nat, s: nat, buf: seq<Octet>)
    requires buf == []
    ensures RawLow(a, buf) == a && RawHigh(a, s, buf) == s
  {
  }

  /** The sums after one more block, from those before it. */
  lemma BlockSums(a: nat, s: nat, buf: seq<Octet>, i: nat, n: nat)
    requires i <= n <= |buf|
    ensures var p := Sums(a, s, buf[..i]);
            Sums(a, s, buf[..n]) == (RawLow(p.0, buf[i..n]) % BASE, RawHigh(p.0, p.1, buf[i..n]) % BASE)
  {
    hide Sums, RawLow, RawHigh;
    var p := Sums(a, s, buf[..i]);
    SumsConcat(a, s, buf[..i], buf[i..n]);
    assert buf[..i] + buf[i..n] == buf[..n];
    SumsRaw(p.0, p.1, buf[i..n]);
  }

  /** A checksum continued by a single byte is reduced by subtraction, once for each sum. */
  predicate OneByteFails(adler: nat, buf: seq<Octet>)
  {
    |buf| == 1 && High(adler) + Once(Low(adler) + buf[0]) >= 2 * BASE
  }

  lemma PackUnique(a: nat, s: nat, b: nat, t: nat)
    requires a < 65536 && b < 65536 && Pack(a, s) == Pack(b, t)
    ensures a == b && s == t
  {
  }

  /** The sums of a single byte are right unless the second would need two subtractions. */
  lemma OneByte(adler: nat, buf: seq<Octet>)
    requires |buf| == 1
    ensures var low := Once(Low(adler) + buf[0]); var high := Once(High(adler) + low);
            low < BASE && (Pack(low, high) == Checksum(adler, buf) <==> !OneByteFails(adler, buf))
  {
    hide Low, High, Pack;
    var a, s := Low(adler), High(adler);
    var low := Once(a + buf[0]);
    var high := Once(s + low);
    SumsRaw(a, s, buf);
    assert buf[..0] == [];
    assert RawLow(a, buf) == a + buf[0];
    assert RawHigh(a, s, buf) == s + a + buf[0];
    OnceMod(a + buf[0]);
    ModAdd(s, a + buf[0]);
    if s + low < 2 * BASE {
      OnceMod(s + low);
    } else {
      var p := Sums(a, s, buf);
      if Pack(low, high) == Pack(p.0, p.1) { PackUnique(low, high, p.0, p.1); }
    }
  }

  /** The exception happens: the second sum of this checksum is not reduced, and one byte more takes two moduli off. */
  lemma OneByteDoesFail()
    ensures var adler, low := 65535 * 65536 + 65500, 65510;
            OneByteFails(adler, [10]) && Once(Low(adler) + 10) == low && Once(High(adler) + low) == 65524
            && Checksum(adler, [10]) == Pack(low, 3) != Pack(low, 65524)
  {
    var adler, buf: seq<Octet> := 65535 * 65536 + 65500, [10];
    assert Low(adler) == 65500 && High(adler) == 65535;
    assert buf[..0] == [];
    assert Sums(65500, 65535, []) == (65500, 14);
    OneByte(adler, buf);
  }

  lemma ShortFits(a: nat, s: nat, buf: seq<Octet>)
    requires a < 65536 && s < 65536 && |buf| <= 16
    ensures RawLow(a, buf) < 2 * BASE && RawHigh(a, s, buf) < 0x1000_0000
  {
    hide RawLow, RawHigh;
    RawBounds(a, s, buf);
    Monotone(|buf|, 16, a);
    Regroup(|buf|, a);
  }

  lemma Regroup(n: nat, a: nat)
    ensures 2 * n * a == 2 * (n * a)
  {
  }

  /** A few bytes: the first sum needs no division. */
  method Short(buf: array<Octet>, at: nat, len: nat, a: nat, s: nat, divide: bool) returns (low: nat, high: nat)
    requires at + len <= buf.Length && len < 16 && a < 65536 && s < 65536
    ensures (low, high) == Sums(a, s, buf[at..at + len])
  {
    hide Sums, RawLow, RawHigh, Mod28, Once;
    ghost var all := buf[at..at + len];
    low, high := Block(buf, at, at + len, a, s);
    SumsRaw(a, s, all);
    ShortFits(a, s, all);
    OnceMod(low);
    ModIs(divide, high);
    low, high := Once(low), Mod28(divide, high);
  }

  /** adler32_z of `len` bytes from `at`: equal to the definition from every checksum, reduced or not, but for the case
      above. */
  method AdlerOf(adler: nat, buf: array?<Octet>, at: nat, len: nat, divide: bool) returns (r: nat)
    requires adler < VALUES && (buf != null ==> at + len <= buf.Length)
    ensures buf == null ==> r == 1
    ensures buf != null ==> (r == Checksum(adler, buf[at..at + len]) <==> !OneByteFails(adler, buf[at..at + len]))
  {
    hide Sums, RawLow, RawHigh, Low, High, Mod, Mod28, Once, Pack;
    var low, high: nat := Low(adler), High(adler);
    if buf == null { return 1; }
    ghost var a, s, all := low, high, buf[at..at + len];
    if len == 1 {
      low := Once(low + buf[at]);
      high := Once(high + low);
      OneByte(adler, all);
      return Pack(low, high);
    }
    if len < 16 {
      low, high := Short(buf, at, len, low, high, divide);
      return Pack(low, high);
    }
    var i := 0;
    while len - i >= NMAX
      invariant i <= len && low < 65536 && high < 65536
      invariant i == 0 ==> low == a && high == s
      invariant i > 0 ==> (low, high) == Sums(a, s, all[..i])
    {
      low, high := NextBlock(buf, at, i, i + NMAX, low, high, divide, all, a, s);
      i := i + NMAX;
    }
    if i < len {
      low, high := NextBlock(buf, at, i, len, low, high, divide, all, a, s);
    }
    assert all[..len] == all;
    r := Pack(low, high);
  }

  /** A checksum that is reduced may be continued by any buffer, and stays reduced. */
  lemma ReducedContinues(a: nat, s: nat, buf: seq<Octet>)
    requires a < BASE && s < BASE
    ensures !OneByteFails(Pack(a, s), buf) && Pack(a, s) < VALUES
  {
    PackParts(a, s);
    hide Low, High, Pack;
    if |buf| == 1 { OnceMod(a + buf[0]); }
  }

  lemma AdlerNone()
    ensures Adler([]) == 1
  {
    SumsOne();
  }

  /** The checksum of a buffer continued. */
  lemma AdlerContinues(x: seq<Octet>, y: seq<Octet>)
    ensures Checksum(Adler(x), y) == Adler(x + y)
    ensures !OneByteFails(Adler(x), y) && Adler(x) < VALUES
  {
    hide Sums, Low, High, Pack;
    SumsOne();
    SumsRaw(1, 0, x);
    var (p, q) := Sums(1, 0, x);
    PackParts(p, q);
    SumsConcat(1, 0, x, y);
    ReducedContinues(p, q, y);
  }

  method NextBlock(buf: array<Octet>, at: nat, i: nat, n: nat, a: nat, s: nat, divide: bool, ghost all: seq<Octet>,
                   ghost a0: nat, ghost s0: nat)
    returns (low: nat, high: nat)
    requires a < 65536 && s < 65536 && i < n <= |all| && n - i <= NMAX && at + |all| <= buf.Length
             && all == buf[at..at + |all|]
    requires if i == 0 then a == a0 && s == s0 else (a, s) == Sums(a0, s0, all[..i])
    ensures low < BASE && high < BASE && (low, high) == Sums(a0, s0, all[..n])
  {
    hide Sums, RawLow, RawHigh, Mod;
    low, high := Block(buf, at + i, at + n, a, s);
    assert buf[at + i..at + n] == all[i..n];
    BlockFits(a, s, all[i..n]);
    ModIs(divide, low);
    ModIs(divide, high);
    low, high := Mod(divide, low), Mod(divide, high);
    if i == 0 {
      assert all[0..n] == all[..n];
      SumsRaw(a, s, all[..n]);
    } else {
      BlockSums(a0, s0, all, i, n);
    }
  }

  // -- adler32_combine_ -----------------------------------------------------------------------------------------

  function CombineLow(a1: nat, a2: nat): nat { Once(Once(a1 + (a2 + BASE - 1))) }

  function CombineHigh(sum2: nat): nat { Once(if sum2 >= 2 * BASE then sum2 - 2 * BASE else sum2) }

  function Mul(x: nat, y: nat): nat { x * y }

  function Remainder(len2: nat, divide: bool): (rem: nat)
    requires len2 < 0x8000_0000_0000_0000
    ensures rem == len2 % BASE
  {
    ModIs(divide, len2);
    Mod63(divide, len2)
  }

  /** adler32_combine_: a negative length gives the invalid checksum, as a clue. */
  function Combine(adler1: nat, adler2: nat, len2: int, divide: bool): nat
    requires len2 < 0x8000_0000_0000_0000
  {
    if len2 < 0 then 0xffff_ffff
    else
      var rem := Remainder(len2, divide);
      var sum2 := Mod(divide, Mul(rem, Low(adler1)));
      Pack(CombineLow(Low(adler1), Low(adler2)), CombineHigh(sum2 + High(adler1) + High(adler2) + BASE - rem))
  }

  /** The sums from any start, from the sums of the buffer alone. */
  lemma {:induction false} RawShift(a: nat, s: nat, y: seq<Octet>)
    ensures RawLow(a, y) + 1 == a + RawLow(1, y)
    ensures RawHigh(a, s, y) + |y| == s + |y| * a + RawHigh(1, 0, y)
    decreases |y|
  {
    if y != [] {
      RawShift(a, s, y[..|y| - 1]);
      assert |y| * a == (|y| - 1) * a + a;
    }
  }

  lemma LowCombines(p: nat, raw: nat)
    requires p < BASE && raw >= 1
    ensures CombineLow(p, raw % BASE) == (p + raw - 1) % BASE
  {
    var u, k := raw % BASE, raw / BASE;
    var sum := p + (u + BASE - 1);
    if k == 0 {
      SameMod(sum, p + raw - 1, 1);
    } else {
      SameMod(p + raw - 1, sum, k - 1);
    }
    if sum < BASE {
    } else if sum < 2 * BASE {
      Unique(sum, sum - BASE, 1);
    } else {
      Unique(sum, sum - 2 * BASE, 2);
    }
  }

  lemma Times(x: nat, k: nat, p: nat)
    ensures (x + k * BASE) * p == x * p + k * p * BASE
  {
    assert (x + k * BASE) * p == x * p + (k * BASE) * p;
    assert (k * BASE) * p == (k * p) * BASE;
  }

  lemma HighCombines(n: nat, p: nat, q: nat, raw: nat, t: nat)
    requires q < BASE && t + n == q + n * p + raw
    ensures CombineHigh(Mul(n % BASE, p) % BASE + q + raw % BASE + BASE - n % BASE) == t % BASE
  {
    var rem, k := n % BASE, n / BASE;
    var m, j := rem * p, rem * p / BASE;
    var total := m % BASE + q + raw % BASE + BASE - rem;
    Times(rem, k, p);
    assert n == rem + k * BASE;
    // t - total is a multiple of BASE
    var d := k * p + j + raw / BASE - 1 - k;
    assert t == total + d * BASE by {
      assert n * p == m + k * p * BASE;
      assert m == m % BASE + j * BASE;
      assert raw == raw % BASE + raw / BASE * BASE;
      assert d * BASE == k * p * BASE + j * BASE + raw / BASE * BASE - BASE - k * BASE;
    }
    if d >= 0 { SameMod(t, total, d); } else { SameMod(total, t, -d); }
    var once := if total >= 2 * BASE then total - 2 * BASE else total;
    SameMod(total, once, if total >= 2 * BASE then 2 else 0);
    OnceMod(once);
  }

  lemma PackParts(low: nat, high: nat)
    requires low < 65536 && high < 65536
    ensures Low(Pack(low, high)) == low && High(Pack(low, high)) == high && Pack(low, high) < VALUES
  {
  }

  /** The checksum of a concatenation, from those of its parts and the length of the second. */
  lemma CombineConcat(adler: nat, x: seq<Octet>, y: seq<Octet>, divide: bool)
    requires |y| < 0x8000_0000_0000_0000
    ensures Combine(Checksum(adler, x), Adler(y), |y|, divide) == Checksum(adler, x + y)
  {
    hide Sums, RawLow, RawHigh, Low, High, Pack, Mod, Mod63, Mul, CombineLow, CombineHigh;
    var a, s := Low(adler), High(adler);
    SumsRaw(a, s, x);
    var (p, q) := Sums(a, s, x);
    SumsConcat(a, s, x, y);
    SumsRaw(p, q, y);
    SumsOne();
    SumsRaw(1, 0, y);
    PackParts(p, q);
    var raw, high := RawLow(1, y), RawHigh(1, 0, y);
    PackParts(raw % BASE, high % BASE);
    RawShift(p, q, y);
    RawBounds(1, 0, y);
    LowCombines(p, raw);
    HighCombines(|y|, p, q, high, RawHigh(p, q, y));
    Product(|y| % BASE, p);
    ModIs(divide, Mul(|y| % BASE, p));
  }

  lemma MulMonotone(x: nat, y: nat, z: nat)
    requires x <= y
    ensures Mul(x, z) <= Mul(y, z)
  {
  }

  lemma MulComm(x: nat, y: nat)
    ensures Mul(x, y) == Mul(y, x)
  {
  }

  lemma Product(r: nat, p: nat)
    requires r < BASE && p < BASE
    ensures Mul(r, p) < VALUES
  {
    MulMonotone(r, 65520, p);
    MulMonotone(p, 65520, 65520);
    MulComm(65520, p);
  }

  lemma SumsOne()
    ensures Low(1) == 1 && High(1) == 0
  {
  }
}
