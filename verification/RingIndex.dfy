/** Bit arithmetic of the ring: `position & mask` and the rounding of a capacity to a power of two. */
module RingIndex {

  function Pow2(k: nat): (r: nat)
    ensures r >= 1
  {
    if k == 0 then 1 else 2 * Pow2(k - 1)
  }

  ghost predicate IsPow2(n: nat) {
    exists k: nat :: Pow2(k) == n
  }

  function BitAnd(x: nat, y: nat): nat {
    if x == 0 || y == 0 then 0 else (if x % 2 == 1 && y % 2 == 1 then 1 else 0) + 2 * BitAnd(x / 2, y / 2)
  }

  function BitOr(x: nat, y: nat): nat
    decreases x + y
  {
    if x == 0 then y
    else if y == 0 then x
    else (if x % 2 + y % 2 > 0 then 1 else 0) + 2 * BitOr(x / 2, y / 2)
  }

  function ShiftRight(x: nat, k: nat): nat {
    if k == 0 then x else ShiftRight(x / 2, k - 1)
  }

  /** The slot of a position: `position & mask`. */
  function Index(position: nat, capacity: nat): nat
    requires capacity > 0
  {
    BitAnd(position, capacity - 1)
  }

  lemma MultipleGrows(e: int, d: nat)
    ensures e >= 1 ==> e * d >= d
  {
  }

  lemma MultipleBelow(e: int, d: int)
    requires d >= 0
    requires -d < e * d && e * d < d
    ensures e == 0
  {
    MultipleGrows(e, d);
    MultipleGrows(-e, d);
    assert (-e) * d == -(e * d);
  }

  lemma DivModUnique(x: nat, d: nat, q: nat, r: nat)
    requires x == q * d + r && r < d
    ensures x / d == q && x % d == r
  {
    assert (q - x / d) * d == x % d - r;
    MultipleBelow(q - x / d, d);
  }

  lemma DoubleModulo(x: nat, h: nat)
    requires h > 0
    ensures x % (2 * h) == 2 * (x / 2 % h) + x % 2
  {
    var q, r := x / 2 / h, x / 2 % h;
    assert q * h + r == x / 2;
    assert q * (2 * h) == 2 * (q * h);
    DivModUnique(x, 2 * h, q, 2 * r + x % 2);
  }

  lemma AndWithOddMask(x: nat, h: nat)
    requires h > 0
    ensures BitAnd(x, 2 * h - 1) == x % 2 + 2 * BitAnd(x / 2, h - 1)
  {
    assert (2 * h - 1) / 2 == h - 1 && (2 * h - 1) % 2 == 1;
  }

  lemma AndStep(x: nat, h: nat)
    requires h > 0 && BitAnd(x / 2, h - 1) == x / 2 % h
    ensures BitAnd(x, 2 * h - 1) == x % (2 * h)
  {
    AndWithOddMask(x, h);
    DoubleModulo(x, h);
  }

  lemma {:induction false} AndWithMaskIsModulo(x: nat, k: nat)
    ensures BitAnd(x, Pow2(k) - 1) == x % Pow2(k)
  {
    if k == 0 {
      assert x % 1 == 0;
    } else {
      AndWithMaskIsModulo(x / 2, k - 1);
      AndStep(x, Pow2(k - 1));
    }
  }

  /** Masking with `capacity - 1` is the remainder modulo a power-of-two capacity. */
  lemma IndexIsModulo(position: nat, capacity: nat)
    requires IsPow2(capacity)
    ensures Index(position, capacity) == position % capacity
    ensures Index(position, capacity) < capacity
  {
    var k: nat :| Pow2(k) == capacity;
    AndWithMaskIsModulo(position, k);
  }

  /** On the first lap a position is its own slot. */
  lemma FirstLapSlot(p: nat, capacity: nat)
    requires IsPow2(capacity) && p < capacity
    ensures Index(p, capacity) == p
  {
    IndexIsModulo(p, capacity);
    DivModUnique(p, capacity, 0, p);
  }

  lemma ModuloGap(p: nat, q: nat, d: nat)
    requires d > 0 && p % d == q % d
    ensures q - p == (q / d - p / d) * d
  {
    assert p == p / d * d + p % d;
    assert q == q / d * d + q % d;
  }

  /** Two different positions less than one lap apart never share a slot. */
  lemma WithinLapDistinct(p: nat, q: nat, capacity: nat)
    requires IsPow2(capacity)
    requires p < q < p + capacity
    ensures Index(p, capacity) != Index(q, capacity)
  {
    IndexIsModulo(p, capacity);
    IndexIsModulo(q, capacity);
    if p % capacity == q % capacity {
      ModuloGap(p, q, capacity);
      MultipleBelow(q / capacity - p / capacity, capacity);
    }
  }

  lemma AddModulo(p: nat, d: nat)
    requires d > 0
    ensures (p + d) % d == p % d
  {
    assert p == p / d * d + p % d;
    assert (p / d + 1) * d == p / d * d + d;
    DivModUnique(p + d, d, p / d + 1, p % d);
  }

  /** One lap later a position comes back to the same slot. */
  lemma NextLapSameSlot(p: nat, capacity: nat)
    requires IsPow2(capacity)
    ensures Index(p + capacity, capacity) == Index(p, capacity)
  {
    IndexIsModulo(p, capacity);
    IndexIsModulo(p + capacity, capacity);
    AddModulo(p, capacity);
  }

  // ---- rounding up to a power of two ----

  /** `x | x >> 1`, `| >> 2`, ... `| >> 16`, as `New` does after decrementing the capacity. */
  function Smear(x: nat): nat {
    var a := BitOr(x, ShiftRight(x, 1));
    var b := BitOr(a, ShiftRight(a, 2));
    var c := BitOr(b, ShiftRight(b, 4));
    var d := BitOr(c, ShiftRight(c, 8));
    BitOr(d, ShiftRight(d, 16))
  }

  lemma {:induction false} ShiftOfOnes(n: nat, k: nat)
    requires k <= n
    ensures ShiftRight(Pow2(n) - 1, k) == Pow2(n - k) - 1
  {
    if k > 0 {
      ShiftOfOnes(n - 1, k - 1);
    }
  }

  lemma {:induction false} ShiftTwice(x: nat, j: nat, k: nat)
    ensures ShiftRight(ShiftRight(x, j), k) == ShiftRight(x, j + k)
  {
    if j > 0 {
      ShiftTwice(x / 2, j - 1, k);
    }
  }

  lemma {:induction false} ShiftZero(k: nat)
    ensures ShiftRight(0, k) == 0
  {
    if k > 0 { ShiftZero(k - 1); }
  }

  lemma {:induction false} ShiftOfOr(x: nat, y: nat, k: nat)
    ensures ShiftRight(BitOr(x, y), k) == BitOr(ShiftRight(x, k), ShiftRight(y, k))
  {
    if x == 0 || y == 0 {
      ShiftZero(k);
    } else if k > 0 {
      ShiftOfOr(x / 2, y / 2, k - 1);
    }
  }

  lemma DoubleProduct(v: nat, h: nat)
    ensures 2 * (v * h) == v * (2 * h)
  {
  }

  lemma OnesJoined(a: nat, b: nat)
    requires a >= 1
    ensures (a - 1) * b + b - 1 == a * b - 1
  {
  }

  /** Or-ing `j` ones in keeps the high part and fills the low `j` bits. */
  lemma {:induction false} OrOnes(u: nat, j: nat)
    ensures BitOr(u, Pow2(j) - 1) == ShiftRight(u, j) * Pow2(j) + Pow2(j) - 1
  {
    if j > 0 {
      var h := Pow2(j - 1);
      if u == 0 {
        ShiftZero(j);
      } else {
        OrOnes(u / 2, j - 1);
        assert (Pow2(j) - 1) / 2 == h - 1 && (Pow2(j) - 1) % 2 == 1;
        DoubleProduct(ShiftRight(u / 2, j - 1), h);
      }
    }
  }

  lemma {:induction false} Pow2Sum(a: nat, b: nat)
    ensures Pow2(a + b) == Pow2(a) * Pow2(b)
  {
    if a > 0 {
      Pow2Sum(a - 1, b);
    }
  }

  /** The top `j` of the `n` bits of `x` are ones (all of them when `j >= n`). */
  ghost predicate TopOnes(x: nat, n: nat, j: nat) {
    && ShiftRight(x, n) == 0
    && (if j <= n then ShiftRight(x, n - j) == Pow2(j) - 1 else x == Pow2(n) - 1)
  }

  lemma SmearStepInside(x: nat, n: nat, j: nat)
    requires TopOnes(x, n, j) && j >= 1 && 2 * j <= n
    ensures ShiftRight(BitOr(x, ShiftRight(x, j)), n - 2 * j) == Pow2(2 * j) - 1
  {
    var i := n - 2 * j;
    ShiftOfOr(x, ShiftRight(x, j), i);
    ShiftTwice(x, j, i);
    ShiftTwice(x, i, j);
    OnesCompleted(ShiftRight(x, i), j, j);
  }

  lemma ShiftOfTopOnes(x: nat, n: nat, j: nat)
    requires j <= n < 2 * j && ShiftRight(x, n - j) == Pow2(j) - 1
    ensures ShiftRight(x, j) == Pow2(n - j) - 1
  {
    ShiftTwice(x, n - j, 2 * j - n);
    ShiftOfOnes(j, 2 * j - n);
    assert n - j + (2 * j - n) == j;
  }

  lemma OnesCompleted(x: nat, j: nat, k: nat)
    requires ShiftRight(x, k) == Pow2(j) - 1
    ensures BitOr(x, Pow2(k) - 1) == Pow2(j + k) - 1
  {
    OrOnes(x, k);
    Pow2Sum(j, k);
    OnesJoined(Pow2(j), Pow2(k));
  }

  lemma SmearStep(x: nat, n: nat, j: nat)
    requires TopOnes(x, n, j) && j >= 1
    ensures TopOnes(BitOr(x, ShiftRight(x, j)), n, 2 * j)
  {
    ShiftOfOr(x, ShiftRight(x, j), n);
    ShiftTwice(x, j, n);
    ShiftTwice(x, n, j);
    ShiftZero(j);
    if 2 * j <= n {
      SmearStepInside(x, n, j);
    } else if j <= n {
      ShiftOfTopOnes(x, n, j);
      OnesCompleted(x, j, n - j);
    } else {
      ShiftTwice(x, n, j - n);
      ShiftZero(j - n);
      assert n + (j - n) == j;
    }
  }

  lemma SmearStepTo(x: nat, n: nat, j: nat, k: nat, y: nat)
    requires TopOnes(x, n, j) && j >= 1 && k == 2 * j && y == BitOr(x, ShiftRight(x, j))
    ensures TopOnes(y, n, k)
  {
    SmearStep(x, n, j);
  }

  lemma SmearTwoSteps(x: nat, n: nat, j: nat, y: nat, z: nat)
    requires TopOnes(x, n, j) && j >= 1 && y == BitOr(x, ShiftRight(x, j)) && z == BitOr(y, ShiftRight(y, 2 * j))
    ensures TopOnes(z, n, 4 * j)
  {
    SmearStepTo(x, n, j, 2 * j, y);
    SmearStepTo(y, n, 2 * j, 4 * j, z);
  }

  /** Every `x` has an exact bit length. */
  lemma {:induction false} BitLength(x: nat) returns (n: nat)
    requires x > 0
    ensures n >= 1 && Pow2(n - 1) <= x < Pow2(n)
    ensures ShiftRight(x, n - 1) == 1 && ShiftRight(x, n) == 0
  {
    if x == 1 {
      n := 1;
      assert ShiftRight(1, 1) == ShiftRight(0, 0);
    } else {
      var m := BitLength(x / 2);
      n := m + 1;
    }
  }

  lemma {:induction false} Pow2Grows(a: nat, b: nat)
    requires a <= b
    ensures Pow2(a) <= Pow2(b)
    decreases b
  {
    if a < b {
      Pow2Grows(a, b - 1);
    }
  }

  lemma SmearFillsUp(x: nat) returns (n: nat)
    requires 1 <= x < 65536
    ensures Smear(x) == Pow2(n) - 1 && n >= 1 && Pow2(n - 1) <= x < Pow2(n)
  {
    n := BitLength(x);
    assert n <= 16 by {
      assert Pow2(16) == 65536;
      if n > 16 { Pow2Grows(16, n - 1); }
    }
    var a := BitOr(x, ShiftRight(x, 1));
    var b := BitOr(a, ShiftRight(a, 2));
    var c := BitOr(b, ShiftRight(b, 4));
    var d := BitOr(c, ShiftRight(c, 8));
    assert Pow2(1) == 2;
    SmearTwoSteps(x, n, 1, a, b);
    SmearTwoSteps(b, n, 4, c, d);
    SmearStepTo(d, n, 16, 32, BitOr(d, ShiftRight(d, 16)));
  }

  /** The rounding of `New`: the least power of two that is not below the capacity. */
  lemma SmearRoundsUp(capacity: nat)
    requires 2 <= capacity <= 65536
    ensures IsPow2(Smear(capacity - 1) + 1) && capacity <= Smear(capacity - 1) + 1
    ensures forall k: nat :: capacity <= Pow2(k) ==> Smear(capacity - 1) + 1 <= Pow2(k)
  {
    var n := SmearFillsUp(capacity - 1);
    forall k: nat | capacity <= Pow2(k)
      ensures Pow2(n) <= Pow2(k)
    {
      if k < n { Pow2Grows(k, n - 1); } else { Pow2Grows(n, k); }
    }
  }
}
