/** Arithmetic modulo a positive number. */
module Congruence {
  ghost predicate Cong(a: int, b: int, m: nat) { m > 0 && (a - b) % m == 0 }

  lemma ModUnique(x: int, m: nat, q: int, r: int)
    requires m > 0 && x == m * q + r && 0 <= r < m
    ensures x / m == q && x % m == r
  {
    var d := x / m - q;
    assert x == m * (x / m) + x % m;
    assert m * d == r - x % m by { assert m * (x / m) - m * q == m * d; }
    assert d >= 1 ==> m * d >= m;
    assert d <= -1 ==> m * d <= 0 - m;
  }

  lemma MultipleMod(m: nat, q: int)
    requires m > 0
    ensures (m * q) % m == 0 && (m * q) / m == q
  {
    ModUnique(m * q, m, q, 0);
  }

  lemma SumMod(x: int, y: int, m: nat)
    requires m > 0 && x % m == 0 && y % m == 0
    ensures (x + y) % m == 0 && (x - y) % m == 0
  {
    var p, q := x / m, y / m;
    assert x == m * p && y == m * q;
    assert x + y == m * (p + q) && x - y == m * (p - q);
    MultipleMod(m, p + q);
    MultipleMod(m, p - q);
  }

  lemma CongTrans(a: int, b: int, c: int, m: nat)
    requires Cong(a, b, m) && Cong(b, c, m)
    ensures Cong(a, c, m)
  {
    SumMod(a - b, b - c, m);
  }

  lemma CongSym(a: int, b: int, m: nat)
    requires Cong(a, b, m)
    ensures Cong(b, a, m)
  {
    SumMod(0, a - b, m);
  }

  lemma CongMod(a: int, m: nat)
    requires m > 0
    ensures 0 <= a % m < m && Cong(a % m, a, m)
  {
    assert a % m - a == m * -(a / m);
    MultipleMod(m, -(a / m));
  }

  /** Two congruent numbers less than the modulus apart are equal. */
  lemma CongClose(a: int, b: int, m: nat)
    requires Cong(a, b, m) && 0 - m < a - b < m
    ensures a == b
  {
    var d := a - b;
    if 0 <= d { ModUnique(d, m, 0, d); } else { ModUnique(d, m, -1, d + m); }
  }

  lemma CongShift(a: int, b: int, k: int, m: nat)
    requires Cong(a, b, m)
    ensures Cong(a + k, b + k, m)
  {
  }

  /** Congruence modulo a multiple of m is congruence modulo m. */
  lemma CongDivides(a: int, b: int, m: nat, big: nat)
    requires m > 0 && big % m == 0 && Cong(a, b, big)
    ensures Cong(a, b, m)
  {
    var q, k := (a - b) / big, big / m;
    assert a - b == big * q && big == m * k;
    assert (m * k) * q == m * (k * q);
    MultipleMod(m, k * q);
  }
}
