/** Fixed-width integer behaviour the virtual machine and code generator rely
    on: Rust's `i32` wrapping arithmetic, the bounds of `i64` and `usize`, and
    the little-endian byte layout of `i32::to_le_bytes` / `from_le_bytes`. */
module Int32 {

  const I32_MIN: int := -0x8000_0000
  const I32_MAX: int := 0x7FFF_FFFF
  const TWO32: int := 0x1_0000_0000
  const I64_MIN: int := -0x8000_0000_0000_0000
  const I64_MAX: int := 0x7FFF_FFFF_FFFF_FFFF
  /** One more than the largest `usize` on a 64-bit target. */
  const USIZE_LIMIT: int := 0x1_0000_0000_0000_0000

  type i32 = x: int | I32_MIN <= x <= I32_MAX
  type i64 = x: int | I64_MIN <= x <= I64_MAX
  type byte = b: int | 0 <= b < 256

  /** Two's-complement reduction of an unbounded integer into `i32`. */
  function Wrap(x: int): (r: i32)
    ensures (r - x) % TWO32 == 0
    ensures I32_MIN <= x <= I32_MAX ==> r == x
  {
    var m := (x - I32_MIN) % TWO32;
    m + I32_MIN
  }

  function WrappingAdd(a: i32, b: i32): i32 { Wrap(a + b) }
  function WrappingSub(a: i32, b: i32): i32 { Wrap(a - b) }
  function WrappingMul(a: i32, b: i32): i32 { Wrap(a * b) }

  /** A quotient of naturals is a natural. */
  lemma NaturalQuotient(n: nat, d: nat)
    requires d > 0
    ensures n / d >= 0
  {
  }

  /** Division truncating toward zero, as Rust's `/` on integers does (Dafny's
      own `/` is Euclidean). */
  function TruncDiv(a: int, b: int): (q: int)
    requires b != 0
    ensures a >= 0 && b > 0 ==> q == a / b
    ensures (a >= 0) == (b > 0) ==> q >= 0
    ensures (a >= 0) != (b > 0) ==> q <= 0
  {
    var n: nat := if a < 0 then -a else a;
    var d: nat := if b < 0 then -b else b;
    NaturalQuotient(n, d);
    var m := n / d;
    if (a < 0) == (b < 0) then m else -m
  }

  /** `i32::wrapping_div`: only `I32_MIN / -1` overflows, and wraps to `I32_MIN`. */
  function WrappingDiv(a: i32, b: i32): i32
    requires b != 0
  {
    Wrap(TruncDiv(a, b))
  }

  /** The unsigned 32-bit pattern of an `i32`. */
  function ToU32(i: i32): (u: nat)
    ensures u < TWO32
    ensures i >= 0 ==> u == i
    ensures i < 0 ==> u == i + TWO32
  {
    if i < 0 then i + TWO32 else i
  }

  /** `i32::to_le_bytes`: the unsigned pattern written in base 256, least
      significant digit first. */
  function LeBytes(i: i32): (bs: seq<byte>)
    ensures |bs| == 4
  {
    var u := ToU32(i);
    var q1 := u / 256;
    var q2 := q1 / 256;
    var q3 := q2 / 256;
    [u % 256, q1 % 256, q2 % 256, q3]
  }

  /** `i32::from_le_bytes`. */
  function FromLeBytes(b0: byte, b1: byte, b2: byte, b3: byte): i32 {
    var u: int := b0 as int + 256 * (b1 as int) + 0x1_0000 * (b2 as int) + 0x100_0000 * (b3 as int);
    if u > I32_MAX then u - TWO32 else u
  }

  /** Reading back the four bytes written for `i` yields `i`. */
  lemma FromLeBytesOfLeBytes(i: i32)
    ensures var bs := LeBytes(i); FromLeBytes(bs[0], bs[1], bs[2], bs[3]) == i
  {
    var u := ToU32(i);
    var q1 := u / 256;
    var q2 := q1 / 256;
    var q3 := q2 / 256;
    assert u == u % 256 + 256 * q1;
    assert q1 == q1 % 256 + 256 * q2;
    assert q2 == q2 % 256 + 256 * q3;
    var bs := LeBytes(i);
    assert bs == [u % 256, q1 % 256, q2 % 256, q3];
    assert bs[0] as int + 256 * (bs[1] as int) + 0x1_0000 * (bs[2] as int) + 0x100_0000 * (bs[3] as int) == u;
  }
}
