/** Machine integers as subsets of the mathematical integers, and the two bitwise operators
    the program uses, defined bit by bit. */
module Numbers {
  type u8 = x: int | 0 <= x < 0x100
  type u16 = x: int | 0 <= x < 0x1_0000
  type u32 = x: int | 0 <= x < 0x1_0000_0000
  type u64 = x: int | 0 <= x < 0x1_0000_0000_0000_0000
  type i32 = x: int | -0x8000_0000 <= x < 0x8000_0000
  type i64 = x: int | -0x8000_0000_0000_0000 <= x < 0x8000_0000_0000_0000

  const TWO64: int := 0x1_0000_0000_0000_0000

  /** Conversion to an unsigned 64-bit integer: reduction modulo 2^64. */
  function Wrap64(x: int): u64 {
    x % TWO64
  }

  /** Wrapping early or late is the same. */
  lemma WrapAdd(x: int, y: int)
    ensures Wrap64(Wrap64(x) + y) == Wrap64(x + y)
  {
  }

  /** Two bytes, the more significant first. */
  function Be16(hi: u8, lo: u8): u16 {
    hi * 256 + lo
  }

  function Min(a: int, b: int): int {
    if a < b then a else b
  }

  function Max(a: int, b: int): int {
    if a < b then b else a
  }

  function Pow2(k: nat): nat
    ensures Pow2(k) >= 1
  {
    if k == 0 then 1 else 2 * Pow2(k - 1)
  }

  function And(a: nat, b: nat): nat {
    if a == 0 then 0
    else (if a % 2 == 1 && b % 2 == 1 then 1 else 0) + 2 * And(a / 2, b / 2)
  }

  function Xor(a: nat, b: nat): nat
    decreases a + b
  {
    if a == 0 && b == 0 then 0
    else (if a % 2 != b % 2 then 1 else 0) + 2 * Xor(a / 2, b / 2)
  }

  lemma MulLeft(a: nat, b: nat, m: nat)
    requires a <= b
    ensures a * m <= b * m
  {
  }

  /** Quotient and remainder are unique. */
  lemma DivModUnique(x: nat, m: nat, q: nat, r: nat)
    requires m > 0 && r < m && x == q * m + r
    ensures x / m == q && x % m == r
  {
    var q1, r1 := x / m, x % m;
    assert x == q1 * m + r1;
    if q1 < q {
      MulLeft(q1 + 1, q, m);
    } else if q < q1 {
      MulLeft(q + 1, q1, m);
    }
  }

  /** The low bit and the remainder of the half determine the remainder modulo 2m. */
  lemma HalveModulus(x: nat, m: nat)
    requires m > 0
    ensures x % (2 * m) == x % 2 + 2 * ((x / 2) % m)
  {
    var y := x / 2;
    var q, r := y / m, y % m;
    assert y == q * m + r;
    assert q * (2 * m) == 2 * (q * m);
    DivModUnique(x, 2 * m, q, 2 * r + x % 2);
  }

  lemma AndOddMask(x: nat, m: nat)
    requires m > 0
    ensures And(x, 2 * m - 1) == x % 2 + 2 * And(x / 2, m - 1)
  {
    assert (2 * m - 1) / 2 == m - 1 && (2 * m - 1) % 2 == 1;
  }

  /** A mask of k one bits keeps the remainder modulo 2^k. */
  lemma {:induction false} MaskIsMod(x: nat, k: nat)
    ensures And(x, Pow2(k) - 1) == x % Pow2(k)
    decreases k
  {
    if k == 0 {
      AndZero(x);
    } else {
      var m := Pow2(k - 1);
      MaskIsMod(x / 2, k - 1);
      HalveModulus(x, m);
      AndOddMask(x, m);
    }
  }

  lemma {:induction false} AndZero(x: nat)
    ensures And(x, 0) == 0
  {
    if x > 0 {
      AndZero(x / 2);
    }
  }

  lemma SuccessorMod(j: nat, n: nat)
    requires n > 0
    ensures (j % n + 1) % n == (j + 1) % n
  {
    MaskedSum(j, 1, n);
  }

  /** Stepping a masked index is the same as masking the stepped index. */
  lemma MaskedSuccessor(j: nat, k: nat)
    ensures And(j % Pow2(k) + 1, Pow2(k) - 1) == (j + 1) % Pow2(k)
  {
    MaskIsMod(j % Pow2(k) + 1, k);
    SuccessorMod(j, Pow2(k));
  }

  lemma LapSameSlot(i: nat, n: nat)
    requires n > 0
    ensures (i + n) % n == i % n
  {
    DivModUnique(i + n, n, i / n + 1, i % n);
  }

  /** Adding a masked index and an offset, then masking, masks their sum. */
  lemma MaskedSum(h: nat, j: nat, n: nat)
    requires n > 0
    ensures (h % n + j) % n == (h + j) % n
  {
    var s := h % n + j;
    var q := s / n;
    assert s == q * n + s % n;
    assert h == (h / n) * n + h % n;
    assert h + j == (h / n + q) * n + s % n;
    DivModUnique(h + j, n, h / n + q, s % n);
  }

  lemma SmallMod(x: nat, n: nat)
    requires x < n
    ensures x % n == x
  {
    DivModUnique(x, n, 0, x);
  }

  /** The distance between two masked indices is the distance between the indices. */
  lemma MaskedDistance(h: nat, t: nat, n: nat)
    requires h <= t < h + n
    ensures (t % n - h % n + n) % n == t - h
  {
    var a, d := h % n, t - h;
    MaskedSum(h, d, n);
    SmallMod(d, n);
    if a + d < n {
      SmallMod(a + d, n);
      LapSameSlot(d, n);
    } else {
      DivModUnique(a + d, n, 1, a + d - n);
    }
  }

  /** Indices less than one lap apart fall on different slots. */
  lemma SlotsDiffer(i: nat, j: nat, n: nat)
    requires i < j < i + n
    ensures i % n != j % n
  {
    MaskedDistance(i, j, n);
    DivModUnique(n, n, 1, 0);
  }
}
