/** Division and remainder by a variable divisor: the few facts the models below need. */
module Arith {

  lemma Distribute(a: int, b: int, m: int)
    ensures (a + b) * m == a * m + b * m
  {}

  lemma DivMod(x: int, m: int)
    requires 0 < m
    ensures x == (x / m) * m + x % m && 0 <= x % m < m
  {}

  lemma MulAtLeast(k: int, m: int)
    requires 0 < m
    ensures k >= 1 ==> k * m >= m
    ensures k <= -1 ==> k * m <= -m
  {
    if k >= 1 { assert (k - 1) * m >= 0; Distribute(k - 1, 1, m); }
    if k <= -1 { assert (-k - 1) * m >= 0; Distribute(-k - 1, 1, m); assert (-k) * m == -(k * m); }
  }

  /** A quotient and a remainder in range determine `/` and `%`. */
  lemma DivModUnique(x: int, m: int, q: int, r: int)
    requires 0 <= r < m && x == q * m + r
    ensures x / m == q && x % m == r
  {
    DivMod(x, m);
    Distribute(q - x / m, x / m, m);
    MulAtLeast(q - x / m, m);
  }

  /** Adding d to a number or to its remainder reaches the same remainder. */
  lemma ShiftMod(t: int, d: int, m: int)
    requires 0 < m
    ensures (t + d) % m == (t % m + d) % m
    ensures (t + d) / m == t / m + (t % m + d) / m
  {
    DivMod(t, m);
    DivMod(t % m + d, m);
    var p := (t % m + d) / m;
    Distribute(t / m, p, m);
    DivModUnique(t + d, m, t / m + p, (t % m + d) % m);
  }

  /** Remainder and quotient of a number below twice the divisor. */
  lemma ModOnce(x: int, m: int)
    requires 0 <= x < 2 * m
    ensures x % m == if x < m then x else x - m
    ensures x / m == if x < m then 0 else 1
  {
    if x < m { DivModUnique(x, m, 0, x); } else { DivModUnique(x, m, 1, x - m); }
  }

  /** A remainder by a multiple of b keeps the remainder by b. */
  lemma ModMultiple(x: int, a: int, b: int, m: int)
    requires 0 < a && 0 < b && m == a * b
    ensures 0 < m && x % m % b == x % b
  {
    MulAtLeast(a, b);
    DivMod(x, m);
    DivMod(x % m, b);
    var q, p := x / m, x % m / b;
    assert q * m == q * a * b;
    Distribute(q * a, p, b);
    DivModUnique(x, b, q * a + p, x % m % b);
  }
}
