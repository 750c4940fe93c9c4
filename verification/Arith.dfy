/** Machine arithmetic shared by the models: C's truncating division, 32-bit wrap-around,
    and the few facts about floor division that the sample clocks rest on. */
module Arith {

  const TWO32: int := 0x1_0000_0000

  /** Conversion to UINT32. */
  function UInt32(x: int): nat {
    x % TWO32
  }

  /** Conversion to INT32. */
  function Int32(x: int): int {
    if x % TWO32 < 0x8000_0000 then x % TWO32 else x % TWO32 - TWO32
  }

  /** C's signed division: truncation toward zero. */
  function TruncDiv(a: int, b: int): int
    requires b > 0
  {
    if a >= 0 then a / b else -((-a) / b)
  }

  function Pow2(n: nat): (r: nat)
    ensures r > 0
  {
    if n == 0 then 1 else 2 * Pow2(n - 1)
  }

  lemma MulMono(a: int, b: int, k: int)
    requires a <= b && k >= 0
    ensures a * k <= b * k
  {
    assert (b - a) * k >= 0;
  }

  lemma MulCancel(a: int, b: int, k: int)
    requires k > 0 && a * k < b * k
    ensures a < b
  {
    if a >= b {
      MulMono(b, a, k);
    }
  }

  /** a * k and b * k lie less than k apart only when a == b. */
  lemma MulNear(a: int, b: int, k: int)
    requires k > 0 && -k < a * k - b * k < k
    ensures a == b
  {
    assert (a + 1) * k == a * k + k;
    assert (b + 1) * k == b * k + k;
    MulCancel(a, b + 1, k);
    MulCancel(b, a + 1, k);
  }

  lemma DivBounds(a: int, b: int)
    requires b > 0
    ensures a / b * b <= a < a / b * b + b
  {
    assert a == b * (a / b) + a % b;
  }

  lemma DivIs(a: int, b: int, q: int)
    requires b > 0
    requires q * b <= a < q * b + b
    ensures a / b == q
  {
    DivBounds(a, b);
    MulNear(a / b, q, b);
  }

  lemma ModIs(a: int, b: int, q: int)
    requires b > 0
    requires q * b <= a < q * b + b
    ensures a % b == a - q * b
  {
    DivIs(a, b, q);
    assert a == b * (a / b) + a % b;
  }

  /** Counting on modulo m: the remainder goes up by one or starts again. */
  lemma ModNext(a: int, m: int)
    requires m > 0
    ensures (a + 1) % m == if a % m + 1 == m then 0 else a % m + 1
    ensures (a % m + 1) % m == (a + 1) % m
  {
    var q, r := a / m, a % m;
    DivBounds(a, m);
    ModIs(a, m, q);
    if r + 1 == m {
      assert (q + 1) * m == q * m + m;
      ModIs(a + 1, m, q + 1);
      ModIs(m, m, 1);
    } else {
      ModIs(a + 1, m, q);
      ModIs(r + 1, m, 0);
    }
  }

  lemma ModShift(a: int, k: int, b: int)
    requires b > 0
    ensures (a + k * b) % b == a % b
  {
    var q := a / b;
    DivBounds(a, b);
    assert (q + k) * b == q * b + k * b;
    ModIs(a, b, q);
    ModIs(a + k * b, b, q + k);
  }

  /** Adding k whole divisors adds k to the quotient. */
  lemma DivShift(a: int, k: int, b: int)
    requires b > 0
    ensures (a + k * b) / b == a / b + k
  {
    DivBounds(a, b);
    var q := a / b;
    assert (q + k) * b == q * b + k * b;
    DivIs(a + k * b, b, q + k);
  }

  lemma DivMono(a: int, c: int, b: int)
    requires b > 0 && a <= c
    ensures a / b <= c / b
  {
    DivBounds(a, b);
    DivBounds(c, b);
    assert (c / b + 1) * b == c / b * b + b;
    MulCancel(a / b, c / b + 1, b);
  }

  lemma DivByLess(a: nat, p: int, q: int)
    requires 0 < q <= p
    ensures 0 <= a / p <= a / q
  {
    DivMono(0, a, p);
    DivBounds(a, p);
    DivBounds(a, q);
    assert q * (a / p) <= p * (a / p) by {
      MulMono(q, p, a / p);
    }
    assert (a / q + 1) * q == a / q * q + q;
    MulCancel(a / p, a / q + 1, q);
  }

  /** Halving and dividing by p, in either order. */
  lemma DivTwice(a: int, p: int)
    requires p > 0
    ensures a / (2 * p) == a / p / 2
    ensures a / (2 * p) == a / 2 / p
  {
    DivBounds(a, p);
    var q := a / p;
    assert q / 2 * (2 * p) == q / 2 * 2 * p;
    MulMono(q / 2 * 2, q, p);
    MulMono(q, q / 2 * 2 + 1, p);
    assert (q / 2 * 2 + 1) * p == q / 2 * 2 * p + p;
    DivIs(a, 2 * p, q / 2);
    var h, k := a / 2, a / 2 / p;
    DivBounds(h, p);
    assert k * (2 * p) == 2 * (k * p);
    DivIs(a, 2 * p, k);
  }

  /** Shifting right by one more place, before or after. */
  lemma ShiftNext(a: int, n: nat)
    ensures a / Pow2(n + 1) == a / Pow2(n) / 2
    ensures a / Pow2(n + 1) == a / 2 / Pow2(n)
  {
    DivTwice(a, Pow2(n));
  }

  /** q is num / den, cut toward zero. */
  predicate Truncates(q: int, num: int, den: int) {
    if num >= 0 then q * den <= num < (q + 1) * den else (q - 1) * den < num <= q * den
  }

  lemma TruncDivIs(a: int, b: int)
    requires b > 0
    ensures Truncates(TruncDiv(a, b), a, b)
  {
    if a >= 0 {
      DivBounds(a, b);
    } else {
      DivBounds(-a, b);
      var d := (-a) / b;
      assert (-d - 1) * b == -(d * b) - b && (-d) * b == -(d * b);
    }
  }

  lemma TruncDivMono(a: int, c: int, b: int)
    requires b > 0 && a <= c
    ensures TruncDiv(a, b) <= TruncDiv(c, b)
  {
    if a >= 0 {
      DivMono(a, c, b);
    } else {
      DivBounds(-a, b);
      assert (-a) / b >= 0 by {
        DivMono(0, -a, b);
      }
      if c < 0 {
        DivMono(-c, -a, b);
      } else {
        DivMono(0, c, b);
      }
    }
  }
}
