/** What every part of the model shares. First of all the machine arithmetic the source
    relies on: u32 wrap-around, saturating subtraction and the `& mask` that turns a
    free-running index into a slot. */
module Machine {

  const TWO32: nat := 0x1_0000_0000

  type U32 = x: nat | x < TWO32

  type U16 = x: nat | x < 65536

  datatype Option<T> = None | Some(value: T)

  /** Packets per TX batch, in the XDP and in the kernel-UDP senders. */
  const TX_BATCH: nat := 64

  function WrapAdd(a: nat, b: nat): U32 {
    (a + b) % TWO32
  }

  function WrapSub(a: U32, b: U32): U32 {
    (a - b) % TWO32
  }

  function SatSub(a: nat, b: nat): nat {
    if a < b then 0 else a - b
  }

  function Min(a: nat, b: nat): nat {
    if a <= b then a else b
  }

  function Max(a: nat, b: nat): nat {
    if a <= b then b else a
  }

  /** Bitwise conjunction of two naturals. */
  function BitAnd(x: nat, y: nat): nat
    decreases x
  {
    if x == 0 || y == 0 then 0 else (x % 2) * (y % 2) + 2 * BitAnd(x / 2, y / 2)
  }

  predicate PowerOfTwo(n: nat) {
    n == 1 || (n > 1 && n % 2 == 0 && PowerOfTwo(n / 2))
  }

  /** The low bits of `x` below a power of two, one at a time. */
  ghost function LowBits(x: nat, size: nat): nat
    requires PowerOfTwo(size)
  {
    if size == 1 then 0 else x % 2 + 2 * LowBits(x / 2, size / 2)
  }

  lemma {:induction false} MaskIsLowBits(x: nat, size: nat)
    requires PowerOfTwo(size)
    ensures BitAnd(x, size - 1) == LowBits(x, size)
    decreases size
  {
    if size > 1 {
      MaskIsLowBits(x / 2, size / 2);
      assert (size - 1) / 2 == size / 2 - 1 && (size - 1) % 2 == 1;
    }
  }

  lemma {:induction false} LowBitsIsMod(x: nat, size: nat)
    requires PowerOfTwo(size)
    ensures LowBits(x, size) == x % size
    decreases size
  {
    if size > 1 {
      var half := size / 2;
      LowBitsIsMod(x / 2, half);
      HalvedMod(x, half);
      assert 2 * half == size;
    }
  }

  /** `x & (size - 1)` is `x % size` when size is a power of two. */
  lemma MaskIsMod(x: nat, size: nat)
    requires PowerOfTwo(size)
    ensures BitAnd(x, size - 1) == x % size
  {
    MaskIsLowBits(x, size);
    LowBitsIsMod(x, size);
  }

  lemma HalvedMod(x: nat, half: nat)
    requires half > 0
    ensures x % (2 * half) == x % 2 + 2 * ((x / 2) % half)
  {
    var y := x / 2;
    var q, r := y / half, y % half;
    assert x == 2 * half * q + (x % 2 + 2 * r) by { assert y == half * q + r; }
    ModUnique(x, 2 * half, q, x % 2 + 2 * r);
  }

  lemma ModUnique(x: int, m: int, q: int, r: int)
    requires 0 <= r < m && x == m * q + r
    ensures x % m == r && x / m == q
  {
    var d := x / m - q;
    assert m * d == r - x % m by {
      assert x == m * (x / m) + x % m;
      assert m * d == m * (x / m) - m * q;
    }
    MulSign(m, d);
  }

  lemma MulSign(m: int, d: int)
    requires m >= 0
    ensures d >= 1 ==> m * d >= m
    ensures d <= 0 ==> m * d <= 0
    ensures d <= -1 ==> m * d <= -m
  {
  }

  /** A power of two divides every larger power of two. */
  lemma {:induction false} PowersDivide(a: nat, b: nat)
    requires PowerOfTwo(a) && PowerOfTwo(b) && a <= b
    ensures b % a == 0
    decreases a
  {
    if a > 1 {
      PowersDivide(a / 2, b / 2);
      HalvedMod(b, a / 2);
    }
  }

  lemma Two32IsPower()
    ensures PowerOfTwo(TWO32)
  {
    Sixteenfold(1);
    Sixteenfold(0x10);
    Sixteenfold(0x100);
    Sixteenfold(0x1000);
    Sixteenfold(0x1_0000);
    Sixteenfold(0x10_0000);
    Sixteenfold(0x100_0000);
    Sixteenfold(0x1000_0000);
  }

  lemma Sixteenfold(n: nat)
    requires PowerOfTwo(n)
    ensures PowerOfTwo(16 * n)
  {
    Doubled(n);
    Doubled(2 * n);
    Doubled(4 * n);
    Doubled(8 * n);
  }

  lemma Doubled(n: nat)
    requires PowerOfTwo(n)
    ensures PowerOfTwo(2 * n)
  {
    assert 2 * n / 2 == n && 2 * n % 2 == 0;
  }

  /** Reducing modulo 2^32 first does not change the slot. */
  lemma ModMod(x: int, size: nat)
    requires PowerOfTwo(size) && size <= TWO32
    ensures (x % TWO32) % size == x % size
  {
    Two32IsPower();
    PowersDivide(size, TWO32);
    ExactQuotient(TWO32, size);
    var k := TWO32 / size;
    assert TWO32 == size * k;
    ModOfMultiple(x, size, k);
  }

  lemma ExactQuotient(b: nat, a: nat)
    requires b > 0 && a > 0 && b % a == 0
    ensures b == a * (b / a) && b / a > 0
  {
    assert b == a * (b / a) + b % a;
  }

  lemma ModOfMultiple(x: int, size: nat, k: nat)
    requires size > 0 && k > 0 && size * k > 0
    ensures (x % (size * k)) % size == x % size
  {
    var q, r := x / (size * k), x % (size * k);
    calc {
      x;
      size * k * q + r;
      size * (k * q) + (size * (r / size) + r % size);
      size * (k * q + r / size) + r % size;
    }
    ModUnique(x, size, k * q + r / size, r % size);
  }

  /** Two offsets less than `size` apart never share a slot. */
  lemma DistinctSlots(c: int, i: nat, j: nat, size: nat)
    requires size > 0 && i < j < i + size
    ensures (c + i) % size != (c + j) % size
  {
    var d := (c + j) / size - (c + i) / size;
    assert j - i == size * d + (c + j) % size - (c + i) % size by {
      assert c + i == size * ((c + i) / size) + (c + i) % size;
      assert c + j == size * ((c + j) / size) + (c + j) % size;
    }
    MulSign(size, d);
  }
}
