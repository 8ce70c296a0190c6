/** Which bin holds a chunk of a given size. */
module BinIndex {
  const MIN_LARGE_SIZE := 256
  const LAST_BIN := 95

  function Pow2(n: nat): (r: nat)
    ensures r > 0
  {
    if n == 0 then 1 else 2 * Pow2(n - 1)
  }

  /** The position of the highest set bit. */
  function Log2(x: nat): nat
    requires x > 0
  {
    if x == 1 then 0 else 1 + Log2(x / 2)
  }

  /** Four bins for every doubling: the position of the highest bit of size / 256,
      refined by the two bits below it. */
  function LargebinIndex(size: nat): nat
    requires size >= MIN_LARGE_SIZE
  {
    if size / 256 >= 0x10000 then LAST_BIN
    else
      var m := Log2(size / 256);
      32 + 4 * m + (size / Pow2(m + 6)) % 4
  }

  function BinIndex(size: int): int {
    if size < MIN_LARGE_SIZE then size / 8 else LargebinIndex(size)
  }

  // ---------------------------------------------------------------- monotonicity

  lemma {:induction false} Log2Bounds(x: nat)
    requires x > 0
    ensures Pow2(Log2(x)) <= x < 2 * Pow2(Log2(x))
  {
    if x > 1 {
      Log2Bounds(x / 2);
    }
  }

  lemma {:induction false} Pow2Monotone(a: nat, b: nat)
    requires a <= b
    ensures Pow2(a) <= Pow2(b)
  {
    if a < b {
      Pow2Monotone(a, b - 1);
    }
  }

  lemma Log2Unique(x: nat, m: nat)
    requires x > 0 && Pow2(m) <= x < 2 * Pow2(m)
    ensures Log2(x) == m
  {
    Log2Bounds(x);
    var l := Log2(x);
    Pow2Monotone(if l < m then l + 1 else m, m);
    Pow2Monotone(if m < l then m + 1 else l, l);
  }

  lemma Pow2Six(m: nat)
    ensures Pow2(m + 6) == 64 * Pow2(m)
  {
    assert Pow2(m + 2) == 4 * Pow2(m);
    assert Pow2(m + 4) == 4 * Pow2(m + 2);
  }

  /** Bin 32 + 4m + j is the interval [(4 + j) 2^(m+6), (5 + j) 2^(m+6)). */
  lemma LargebinInterval(size: nat, m: nat, j: nat)
    requires m <= 15 && j < 4
    requires (4 + j) * Pow2(m + 6) <= size < (5 + j) * Pow2(m + 6)
    ensures size >= MIN_LARGE_SIZE && LargebinIndex(size) == 32 + 4 * m + j
  {
    var q, p := Pow2(m + 6), Pow2(m);
    Pow2Six(m);
    Pow2Monotone(m, 15);
    assert Pow2(15) == 0x8000;
    MulLe(4, 4 + j, q);
    MulLe(5 + j, 8, q);
    assert 256 * p <= size < 512 * p;
    Log2Unique(size / 256, m);
    DivBounds(size, q, 4 + j);
  }

  lemma DivBounds(x: nat, q: nat, k: nat)
    requires q > 0 && k * q <= x < (k + 1) * q
    ensures x / q == k
  {
    var d := x / q;
    assert x == q * d + x % q;
    MulLe(if d < k then d + 1 else k, k, q);
    MulLe(if k < d then k + 1 else d, d, q);
  }

  lemma MulLe(a: nat, b: nat, q: nat)
    requires a <= b
    ensures a * q <= b * q
  {
  }

  /** Every size below the last bin lies in exactly one of the intervals. */
  lemma LargebinWhere(size: nat) returns (m: nat, j: nat)
    requires MIN_LARGE_SIZE <= size && size / 256 < 0x10000
    ensures m <= 15 && j < 4 && (4 + j) * Pow2(m + 6) <= size < (5 + j) * Pow2(m + 6)
    ensures LargebinIndex(size) == 32 + 4 * m + j
  {
    hide Pow2, Log2;
    m := Log2(size / 256);
    Octave(size);
    QuarterOf(size, Pow2(m + 6));
    QuarterBits(size / Pow2(m + 6));
    j := size / Pow2(m + 6) - 4;
  }

  lemma QuarterBits(d: nat)
    requires 4 <= d < 8
    ensures d % 4 == d - 4
  {
  }

  lemma Octave(size: nat)
    requires MIN_LARGE_SIZE <= size && size / 256 < 0x10000
    ensures Log2(size / 256) <= 15
    ensures 4 * Pow2(Log2(size / 256) + 6) <= size < 8 * Pow2(Log2(size / 256) + 6)
  {
    var m := Log2(size / 256);
    Log2Bounds(size / 256);
    Pow2Table(10);
    Pow2Monotone(if m > 15 then 16 else m, m);
    Pow2Six(m);
  }

  lemma QuarterOf(size: nat, q: nat)
    requires q > 0 && 4 * q <= size < 8 * q
    ensures 4 <= size / q < 8 && (size / q) * q <= size < (size / q + 1) * q
  {
    DivMod(size, q);
    var d := size / q;
    MulLe(if d < 4 then d + 1 else 4, 4, q);
    MulLe(if d > 7 then 8 else d, d, q);
  }

  lemma DivMod(x: nat, q: nat)
    requires q > 0
    ensures (x / q) * q <= x < (x / q + 1) * q
  {
    assert x == q * (x / q) + x % q;
  }

  /** Larger sizes never have smaller bins, so a larger bin index means a larger size. */
  lemma BinIndexMonotone(s: nat, t: nat)
    requires s <= t
    ensures BinIndex(s) <= BinIndex(t)
  {
    if MIN_LARGE_SIZE <= s && t / 256 < 0x10000 {
      var m, j := LargebinWhere(s);
      var n, k := LargebinWhere(t);
      var q, r := Pow2(m + 6), Pow2(n + 6);
      if n < m {
        Pow2Monotone(n + 7, m + 6);
        MulLe(5 + k, 8, r);
        MulLe(4, 4 + j, q);
      }
      MulLe(if n == m && k < j then 5 + k else 0, 4 + j, q);
    } else if t >= MIN_LARGE_SIZE && t / 256 < 0x10000 {
      var n, k := LargebinWhere(t);
    } else if s >= MIN_LARGE_SIZE && s / 256 < 0x10000 {
      var m, j := LargebinWhere(s);
    }
  }

  lemma BinIndexRange(size: nat)
    requires 16 <= size
    ensures 2 <= BinIndex(size) <= LAST_BIN
  {
    if size >= MIN_LARGE_SIZE && size / 256 < 0x10000 {
      var m, j := LargebinWhere(size);
    }
  }

  // ---------------------------------------------------------------- the branch-free computation

  const POWERS := [0x40, 0x80, 0x100, 0x200, 0x400, 0x800, 0x1000, 0x2000, 0x4000, 0x8000,
                   0x10000, 0x20000, 0x40000, 0x80000, 0x100000, 0x200000]

  lemma Pow2Table(k: nat)
    requires k <= 15
    ensures Pow2(k + 6) == POWERS[k]
  {
    if k > 0 {
      Pow2Table(k - 1);
      assert POWERS[k] == 2 * POWERS[k - 1];
    } else {
      assert Pow2(6) == 0x40;
    }
  }

  const WORD: nat := 0x1_0000_0000

  /** x & b for a single-bit mask b. */
  function Masked(x: nat, b: nat): nat
    requires b > 0
  {
    x / b % 2 * b
  }

  /** x & ~y on the two low bits. */
  function AndNot(x: nat, y: nat): nat {
    x % 2 * (1 - y % 2) + x / 2 % 2 * (1 - y / 2 % 2) * 2
  }

  /** x << n in 32 bits. */
  function Shl(x: nat, n: nat): nat { x * Pow2(n) % WORD }

  /** The nlz-style computation, in unsigned 32-bit arithmetic: a negative difference wraps,
      and its high half then supplies the mask bit. */
  function HighestBit(x0: nat): int {
    var n0 := Masked((x0 - 0x100) % WORD / 0x10000, 8);
    var x1 := Shl(x0, n0);
    var m1 := Masked((x1 - 0x1000) % WORD / 0x10000, 4);
    var n1 := n0 + m1;
    var x2 := Shl(x1, m1);
    var m2 := Masked((x2 - 0x4000) % WORD / 0x10000, 2);
    var n2 := n1 + m2;
    var x3 := Shl(x2, m2) / 0x4000;
    13 - n2 + AndNot(x3, x3 / 2)
  }

  function LargebinBits(sz: nat): int
    requires sz / 256 >= 0x10000 || HighestBit(sz / 256) >= 0
  {
    if sz / 256 >= 0x10000 then LAST_BIN
    else
      var m := HighestBit(sz / 256);
      32 + m * 4 + sz / Pow2(m + 6) % 4
  }

  /** bin_index, as it is computed. */
  function BinIndexBits(sz: nat): int
    requires sz < MIN_LARGE_SIZE || sz / 256 >= 0x10000 || HighestBit(sz / 256) >= 0
  {
    if sz < MIN_LARGE_SIZE then sz / 8 else LargebinBits(sz)
  }

  lemma WrapMask(x: nat, t: nat, b: nat)
    requires x < 0x10000 && 0 < t <= 0x10000 && (b == 2 || b == 4 || b == 8)
    ensures Masked((x - t) % WORD / 0x10000, b) == if x < t then b else 0
  {
    if x < t {
      assert (x - t) % WORD == x - t + WORD;
    }
  }

  lemma ShiftSmall(x: nat)
    requires x < 0x10000
    ensures Shl(x, 0) == x && Shl(x, 2) == 4 * x && Shl(x, 4) == 16 * x && Shl(x, 8) == 256 * x
  {
    assert Pow2(8) == 256 && Pow2(4) == 16 && Pow2(2) == 4 && Pow2(0) == 1;
  }

  /** x shifted left until bit 14 or 15 is its highest, one mask bit at a time. */
  function Step(x: nat, t: nat, k: nat): nat { if x < t then k * x else x }

  /** The shifts stay within 32 bits, so HighestBit is the floor of the base-2 logarithm. */
  lemma HighestBitIsLog2(x: nat)
    requires 0 < x < 0x10000
    ensures HighestBit(x) == Log2(x)
  {
    hide Pow2, Shl, Masked, AndNot;
    var x1 := Step(x, 0x100, 256);
    var x2 := Step(x1, 0x1000, 16);
    var y := Step(x2, 0x4000, 4);
    WrapMask(x, 0x100, 8);
    WrapMask(x1, 0x1000, 4);
    WrapMask(x2, 0x4000, 2);
    ShiftSmall(x);
    ShiftSmall(x1);
    ShiftSmall(x2);
    LowBits(y / 0x4000);
    var n := (if x < 0x100 then 8 else 0) + (if x1 < 0x1000 then 4 else 0) + if x2 < 0x4000 then 2 else 0;
    var m := 13 - n + if y < 0x8000 then 1 else 2;
    assert HighestBit(x) == m;
    Pow2Table(m);
    Pow2Six(m);
    Log2Unique(x, m);
  }

  lemma LowBits(x: nat)
    requires 1 <= x <= 3
    ensures AndNot(x, x / 2) == if x == 1 then 1 else 2
  {
  }

  /** The bit trick computes the documented index, on every size of a chunk. */
  lemma BitsAreIndex(size: nat)
    requires size < WORD
    ensures size < MIN_LARGE_SIZE || size / 256 >= 0x10000 || HighestBit(size / 256) >= 0
    ensures BinIndexBits(size) == BinIndex(size)
  {
    hide HighestBit, Pow2, Log2;
    if MIN_LARGE_SIZE <= size && size / 256 < 0x10000 {
      HighestBitIsLog2(size / 256);
      SameOctave(Log2(size / 256), size / Pow2(Log2(size / 256) + 6));
    }
  }

  lemma SameOctave(m: nat, q: nat)
    ensures 32 + m * 4 + q % 4 == 32 + 4 * m + q % 4
  {
  }
}
