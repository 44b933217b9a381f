/** Machine integers, byte order helpers and the CAN FD frame shared by the other modules. */
module Bytes {

  const TWO_32: int := 0x1_0000_0000
  const TWO_64: int := 0x1_0000_0000_0000_0000

  type byte = x: int | 0 <= x < 0x100
  type u16 = x: int | 0 <= x < 0x1_0000
  type s16 = x: int | -0x8000 <= x < 0x8000
  type u32 = x: int | 0 <= x < TWO_32
  type u64 = x: int | 0 <= x < TWO_64

  datatype Option<+T> = None | Some(value: T)

  const CANFD_MAX_DLC: nat := 64

  /** A CAN FD frame: the C struct always carries a 64-byte payload, whatever its dlc. */
  datatype CanFrame = CanFrame(id: u32, dlc: byte, data: seq<byte>, isFd: bool, useBrs: bool)

  function ZeroBytes(n: nat): (z: seq<byte>)
    ensures |z| == n && forall i :: 0 <= i < n ==> z[i] == 0
  {
    seq(n, i => 0)
  }

  type Frame = f: CanFrame | |f.data| == CANFD_MAX_DLC
    witness CanFrame(0, 0, ZeroBytes(CANFD_MAX_DLC), false, false)

  /** The pieces put together, in order. */
  function Flatten(chunks: seq<seq<byte>>): seq<byte> {
    if chunks == [] then [] else Flatten(chunks[..|chunks| - 1]) + chunks[|chunks| - 1]
  }

  /** Two's complement: the C cast of an unsigned value of the given modulus to the signed type. */
  function Signed(x: int, modulus: int): (y: int)
    requires 0 <= x < modulus
    ensures -modulus <= 2 * y < modulus
    ensures y == x || y == x - modulus
  {
    if 2 * x < modulus then x else x - modulus
  }

  /** Quotient and remainder are unique. */
  lemma ModUnique(x: int, m: int, k: int, r: int)
    requires 0 <= r < m && x == m * k + r
    ensures x / m == k && x % m == r
  {
    SameSplit(m, x / m, k, x % m, r);
  }

  lemma SameSplit(m: int, j: int, k: int, s: int, r: int)
    requires 0 <= s < m && 0 <= r < m && m * j + s == m * k + r
    ensures j == k && s == r
  {
    if j < k {
      Gap(m, j, k);
    } else if k < j {
      Gap(m, k, j);
    }
  }

  lemma Gap(m: int, j: int, k: int)
    requires m > 0 && j < k
    ensures m * k >= m * j + m
  {
    var d := k - j;
    AtLeast(m, d);
    assert m * k == m * j + m * d;
  }

  lemma AtLeast(m: int, d: int)
    requires m > 0 && d >= 1
    ensures m * d >= m
  {
  }

  function Le16(lo: byte, hi: byte): u16 {
    lo + 0x100 * hi
  }

  function Le32(b0: byte, b1: byte, b2: byte, b3: byte): u32 {
    b0 + 0x100 * b1 + 0x1_0000 * b2 + 0x100_0000 * b3
  }

  function Be16(hi: byte, lo: byte): u16 {
    0x100 * hi + lo
  }

  /** `(uint8_t)(x >> 8)` and `(uint8_t)x`, for x of either sign (the shift is arithmetic). */
  function Hi(x: int): byte {
    x / 0x100 % 0x100
  }

  function Lo(x: int): byte {
    x % 0x100
  }

  /** `x >> (8 * k)` */
  function Shr(x: nat, k: nat): nat {
    if k == 0 then x else Shr(x, k - 1) / 0x100
  }

  /** The low n bytes of x, most significant first. */
  function BigEndian(x: nat, n: nat): (s: seq<byte>)
    ensures |s| == n
  {
    if n == 0 then [] else BigEndian(x / 0x100, n - 1) + [Lo(x)]
  }

  function BigEndianValue(s: seq<byte>): nat {
    if s == [] then 0 else 0x100 * BigEndianValue(s[..|s| - 1]) + s[|s| - 1]
  }

  /** Decoding undoes encoding for every number that fits. */
  lemma {:induction false} BigEndianRoundTrip(x: nat, n: nat)
    requires Shr(x, n) == 0
    ensures BigEndianValue(BigEndian(x, n)) == x
  {
    if n > 0 {
      ShrShift(x, n - 1);
      BigEndianRoundTrip(x / 0x100, n - 1);
      assert BigEndian(x, n)[..n - 1] == BigEndian(x / 0x100, n - 1);
    }
  }

  lemma {:induction false} ShrShift(x: nat, k: nat)
    ensures Shr(x / 0x100, k) == Shr(x, k + 1)
  {
    if k > 0 {
      ShrShift(x, k - 1);
    }
  }

  /** The byte orders, spelled out. */
  lemma ByteOrders()
    ensures Le16(0x34, 0x12) == 0x1234 && Be16(0x12, 0x34) == 0x1234 && Le32(0x78, 0x56, 0x34, 0x12) == 0x1234_5678
    ensures Hi(0x1234) == 0x12 && Lo(0x1234) == 0x34 && Hi(-2) == 0xFF && Lo(-2) == 0xFE
    ensures BigEndian(0x1234, 2) == [0x12, 0x34] && BigEndianValue([0x12, 0x34]) == 0x1234
  {
    assert BigEndian(0x12, 1) == [0x12];
    assert [0x12, 0x34][..1] == [0x12] && BigEndianValue([0x12]) == 0x12;
  }
}
