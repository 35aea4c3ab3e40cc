/** Minimum and maximum, division with remainder, and positions in a row of equal parts. */
module Arithmetic {

  function Max(a: int, b: int): int {
    if a > b then a else b
  }

  function Min(a: int, b: int): int {
    if a < b then a else b
  }

  function Abs(a: int): int {
    if a < 0 then -a else a
  }

  // ---------------------------------------------------------------------------------------
  // Parts of the same size

  /** Where part `i` starts. */
  function Start(size: nat, i: nat): nat {
    if i == 0 then 0 else Start(size, i - 1) + size
  }

  lemma {:induction false} StartIs(size: nat, i: nat)
    ensures Start(size, i) == i * size
  {
    if i > 0 {
      StartIs(size, i - 1);
      assert i * size == (i - 1) * size + size;
    }
  }

  lemma {:induction false} StartsGrow(size: nat, i: nat, n: nat)
    requires i < n
    ensures Start(size, i) + size <= Start(size, n)
    decreases n
  {
    if i < n - 1 { StartsGrow(size, i, n - 1); }
  }

  // ---------------------------------------------------------------------------------------
  // Products and remainders

  lemma Multiple(m: nat, k: nat)
    requires k >= 1
    ensures m * k >= m
  {
    assert m * k == m + m * (k - 1);
  }

  lemma Difference(m: nat, a: nat, b: nat)
    ensures m * (a - b) == m * a - m * b
  {
  }

  lemma Remainder(x: nat, m: nat, q: nat, r: nat)
    requires m > 0 && x == m * q + r && r < m
    ensures x / m == q && x % m == r
  {
    var a := x / m;
    assert x == m * a + x % m;
    if a < q {
      Difference(m, q, a);
      Multiple(m, q - a);
    } else if q < a {
      Difference(m, a, q);
      Multiple(m, a - q);
    }
  }

  lemma AddMultiple(x: nat, c: nat, k: nat)
    requires c > 0
    ensures (c * k + x) % c == x % c
  {
    var u := x / c;
    assert x == c * u + x % c;
    assert c * (k + u) == c * k + c * u;
    Remainder(c * k + x, c, k + u, x % c);
  }

  lemma Associative(a: nat, b: nat, c: nat)
    ensures a * b * c == a * (b * c)
  {
  }

  /** Reducing modulo a multiple of `c` first does not change the remainder modulo `c`. */
  lemma ModOfMod(a: nat, w: nat, i: nat, c: nat)
    requires c > 0 && w > 0 && w % c == 0
    ensures (a % w + i) % c == (a + i) % c
  {
    var t, q := w / c, a / w;
    assert w == c * t && a == w * q + a % w;
    Associative(c, t, q);
    AddMultiple(a % w + i, c, t * q);
  }

  lemma Monotone(a: nat, b: nat, k: nat)
    requires a <= b
    ensures a * k <= b * k
  {
    assert (b - a) * k >= 0;
    assert b * k == a * k + (b - a) * k;
  }

  lemma ModDistinct(a: nat, j: nat, k: nat, c: nat)
    requires j < k < j + c
    ensures (a + j) % c != (a + k) % c
  {
    var u, v := (a + j) / c, (a + k) / c;
    assert a + j == c * u + (a + j) % c && a + k == c * v + (a + k) % c;
    Difference(c, v, u);
    if v > u { Multiple(c, v - u); } else if u > v { Difference(c, u, v); }
  }
}
