/** Facts about remainders that the ring buffer and the resampler share. */
module Arith {

  lemma {:induction false} ModAddMultiple(a: nat, c: nat, j: nat)
    requires c > 0
    ensures (a + c * j) % c == a % c
    decreases j
  {
    if j > 0 {
      ModAddMultiple(a, c, j - 1);
      assert a + c * j == (a + c * (j - 1)) + c;
      ModStep(a + c * (j - 1), c);
    }
  }

  lemma ModStep(a: nat, c: nat)
    requires c > 0
    ensures (a + c) % c == a % c
  {
    assert a + c == c * (a / c + 1) + a % c;
    DivModUnique(a + c, c, a / c + 1, a % c);
  }

  lemma MultipleBounds(c: nat, d: int)
    ensures d >= 1 ==> c * d >= c
    ensures d <= -1 ==> c * d <= -(c as int)
  {
    if d >= 1 {
      assert c * d == c + c * (d - 1);
    } else if d <= -1 {
      assert c * d == -(c as int) + c * (d + 1);
    }
  }

  lemma DivModUnique(x: int, c: nat, q: int, r: int)
    requires c > 0 && x == c * q + r && 0 <= r < c
    ensures x / c == q && x % c == r
  {
    var d := x / c - q;
    assert x == c * (x / c) + x % c;
    assert c * (x / c) - c * q == c * d;
    MultipleBounds(c, d);
  }

  /** Two indices less than `c` apart never share a slot. */
  lemma ModDistinct(a: nat, b: nat, c: nat)
    requires c > 0 && a < b < a + c
    ensures a % c != b % c
  {
    var d := b / c - a / c;
    assert a == c * (a / c) + a % c && b == c * (b / c) + b % c;
    assert c * (b / c) - c * (a / c) == c * d;
    MultipleBounds(c, d);
  }

  lemma RegroupProduct(c: nat, m: nat, q: nat)
    ensures (c * m) * q == c * (m * q)
  {
  }

  /** Wrapping a counter at a multiple of `c` does not move its slot. */
  lemma ModOfMod(x: nat, w: nat, c: nat)
    requires c > 0 && w > 0 && w % c == 0
    ensures (x % w) % c == x % c
  {
    var m, q, r := w / c, x / w, x % w;
    assert x == w * q + r;
    assert w == c * m;
    RegroupProduct(c, m, q);
    ModAddMultiple(r, c, m * q);
  }

  /** Counters less than `w` apart that agree modulo `w` are equal. */
  lemma ModInjective(a: nat, b: nat, w: nat)
    requires w > 0 && a <= b < a + w && a % w == b % w
    ensures a == b
  {
    if a < b {
      ModDistinct(a, b, w);
    }
  }

  /** Wrapping subtraction recovers the distance of two counters less than `w` apart. */
  lemma WrappedDistance(a: nat, b: nat, w: nat)
    requires w > 0 && a <= b < a + w
    ensures (b % w - a % w) % w == b - a
  {
    var qa, qb := a / w, b / w;
    assert a == w * qa + a % w && b == w * qb + b % w;
    assert b % w - a % w == w * (qa - qb) + (b - a) by {
      assert w * (qa - qb) == w * qa - w * qb;
    }
    DivModUnique(b % w - a % w, w, qa - qb, b - a);
  }

  lemma WrappedAdd(a: nat, d: nat, w: nat)
    requires w > 0
    ensures (a % w + d) % w == (a + d) % w
  {
    assert a + d == (a % w + d) + w * (a / w);
    ModAddMultiple(a % w + d, w, a / w);
  }

  // ---------------------------------------------------------------- powers of two and masks

  function Pow2(k: nat): (r: nat)
    ensures r > 0
  {
    if k == 0 then 1 else 2 * Pow2(k - 1)
  }

  lemma {:induction false} Pow2Divides(j: nat, k: nat)
    requires j <= k
    ensures Pow2(k) % Pow2(j) == 0
    decreases k
  {
    if j < k {
      Pow2Divides(j, k - 1);
      var m := Pow2(k - 1) / Pow2(j);
      assert Pow2(k) == Pow2(j) * (2 * m) + 0;
      DivModUnique(Pow2(k), Pow2(j), 2 * m, 0);
    } else {
      DivModUnique(Pow2(k), Pow2(k), 1, 0);
    }
  }

  lemma {:induction false} Pow2Monotone(j: nat, k: nat)
    requires j <= k
    ensures Pow2(j) <= Pow2(k)
    decreases k
  {
    if j < k {
      Pow2Monotone(j, k - 1);
    }
  }

  lemma {:induction false} Pow2Sum(j: nat, k: nat)
    ensures Pow2(j + k) == Pow2(j) * Pow2(k)
    decreases k
  {
    if k > 0 {
      Pow2Sum(j, k - 1);
      RegroupProduct(2, Pow2(j), Pow2(k - 1));
    }
  }

  ghost predicate PowerOfTwo(n: nat) {
    exists k: nat :: k <= 64 && n == Pow2(k)
  }

  /** Bitwise conjunction of natural numbers, digit by binary digit. */
  function BitAnd(x: nat, y: nat): (r: nat)
    ensures r <= y
  {
    if x == 0 || y == 0 then 0
    else (if x % 2 == 1 && y % 2 == 1 then 1 else 0) + 2 * BitAnd(x / 2, y / 2)
  }

  lemma DoubledRemainder(x: nat, half: nat)
    requires half > 0
    ensures x % (2 * half) == 2 * ((x / 2) % half) + x % 2
  {
    var q, r := (x / 2) / half, (x / 2) % half;
    assert x == 2 * (x / 2) + x % 2 && x / 2 == half * q + r;
    assert 2 * (half * q) == (2 * half) * q;
    DivModUnique(x, 2 * half, q, 2 * r + x % 2);
  }

  /** `x & (2^k - 1)` is the remainder by `2^k`: the ring's mask picks the slot of a counter. */
  lemma {:induction false} MaskIsMod(x: nat, k: nat)
    ensures BitAnd(x, Pow2(k) - 1) == x % Pow2(k)
    decreases k
  {
    if k > 0 {
      var half := Pow2(k - 1);
      MaskIsMod(x / 2, k - 1);
      DoubledRemainder(x, half);
      HalfOfMask(half);
      MaskStep(x, half);
    }
  }

  lemma HalfOfMask(half: nat)
    requires half > 0
    ensures (2 * half - 1) / 2 == half - 1 && (2 * half - 1) % 2 == 1
  {
  }

  lemma MaskStep(x: nat, half: nat)
    requires half > 0
    ensures BitAnd(x, 2 * half - 1) == 2 * BitAnd(x / 2, half - 1) + x % 2
  {
    HalfOfMask(half);
  }
}
