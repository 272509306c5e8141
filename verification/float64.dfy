/** IEEE 754 binary64 values (Rust's `f64`) as their three bit fields.

    The operations whose result follows from the fields by integer reasoning
    are defined here exactly: negation, the `== 0.0` test, `fract() == 0.0`,
    the comparisons, `i32 as f64`, `f64 as i32` and `to_le_bytes`. Rounded
    arithmetic, decimal parsing and decimal display are not modelled; they
    enter the model as the `FloatOps` parameter. */
module Float64 {
  import opened Wrappers
  import opened Int32

  const TWO52: nat := 0x10_0000_0000_0000
  /** The biased exponent of infinities and NaNs. */
  const EXP_MAX: nat := 2047
  /** Biased exponent at which the least significant fraction bit has weight 1. */
  const UNIT_EXP: nat := 1075

  datatype Binary64 = Binary64(negative: bool, exponent: nat, fraction: nat)

  type F64 = f: Binary64 | f.exponent <= EXP_MAX && f.fraction < TWO52
    witness Binary64(false, 0, 0)

  const PositiveZero: F64 := Binary64(false, 0, 0)

  /** The operations on `f64` that the model takes as given. */
  datatype FloatOps = FloatOps(
    parse: string -> Option<F64>,      // `str::parse::<f64>`
    show: F64 -> string,               // `Display` for `f64`
    showOneDecimal: F64 -> string,     // `format!("{:.1}", _)`
    add: (F64, F64) -> F64,
    sub: (F64, F64) -> F64,
    mul: (F64, F64) -> F64,
    div: (F64, F64) -> F64)

  predicate IsNaN(f: F64) {
    f.exponent == EXP_MAX && f.fraction != 0
  }

  /** `f == 0.0`, true of both signed zeros. */
  predicate IsZero(f: F64) {
    f.exponent == 0 && f.fraction == 0
  }

  /** Unary minus: flips the sign bit, NaNs and zeros included. */
  function Neg(f: F64): (r: F64)
    ensures Key(r) == -Key(f)
    ensures IsZero(r) == IsZero(f) && IsNaN(r) == IsNaN(f)
  {
    f.(negative := !f.negative)
  }

  /** Sign-magnitude position of a value: for two non-NaN values the IEEE order
      is the order of their keys, and the two zeros share the key 0. */
  function Key(f: F64): int {
    var m := f.exponent * TWO52 + f.fraction;
    if f.negative then -m else m
  }

  predicate Eq(a: F64, b: F64) { !IsNaN(a) && !IsNaN(b) && Key(a) == Key(b) }
  predicate Ne(a: F64, b: F64) { !Eq(a, b) }
  predicate Lt(a: F64, b: F64) { !IsNaN(a) && !IsNaN(b) && Key(a) < Key(b) }
  predicate Le(a: F64, b: F64) { !IsNaN(a) && !IsNaN(b) && Key(a) <= Key(b) }
  predicate Gt(a: F64, b: F64) { Lt(b, a) }
  predicate Ge(a: F64, b: F64) { Le(b, a) }

  function Pow2(k: nat): (r: nat)
    ensures r >= 1
  {
    if k == 0 then 1 else 2 * Pow2(k - 1)
  }

  lemma {:induction false} Pow2Add(a: nat, b: nat)
    ensures Pow2(a + b) == Pow2(a) * Pow2(b)
  {
    if a > 0 {
      Pow2Add(a - 1, b);
    }
  }

  lemma {:induction false} Pow2Monotone(a: nat, b: nat)
    requires a <= b
    ensures Pow2(a) <= Pow2(b)
  {
    if a < b {
      Pow2Monotone(a, b - 1);
    }
  }

  lemma Pow2Of52()
    ensures Pow2(52) == TWO52
  {
    assert Pow2(8) == 0x100;
    assert Pow2(16) == 0x1_0000;
    assert Pow2(24) == 0x100_0000;
    assert Pow2(32) == 0x1_0000_0000;
    assert Pow2(40) == 0x100_0000_0000;
    assert Pow2(48) == 0x1_0000_0000_0000;
  }

  /** `m` halved `k` times with truncation, that is `m / 2^k`. */
  function Halve(m: nat, k: nat): nat {
    if k == 0 then m else Halve(m, k - 1) / 2
  }

  lemma {:induction false} HalveOfScaled(m: nat, k: nat)
    ensures Halve(m * Pow2(k), k) == m
    decreases k
  {
    if k > 0 {
      calc {
        Halve(m * Pow2(k), k);
        Halve(m * Pow2(k), k - 1) / 2;
        { assert m * Pow2(k) == (2 * m) * Pow2(k - 1);
          HalveOfScaled(2 * m, k - 1); }
        (2 * m) / 2;
      }
    }
  }

  /** Shifts a nonzero significand left until its top bit is bit 52,
      lowering the exponent `e` once per shift. */
  function Normalize(m: nat, e: int): (r: (nat, int))
    requires 1 <= m < 2 * TWO52
    ensures TWO52 <= r.0 < 2 * TWO52
    ensures r.1 <= e && r.0 == m * Pow2(e - r.1)
    decreases 2 * TWO52 - m
  {
    if m >= TWO52 then (m, e)
    else
      var r := Normalize(2 * m, e - 1);
      assert Pow2(e - r.1) == 2 * Pow2(e - 1 - r.1);
      r
  }

  /** `i as f64` for an `i32`: exact, since 32 bits fit in the 53-bit significand. */
  function FromI32(i: i32): (r: F64)
    ensures !IsNaN(r)
    ensures IsZero(r) <==> i == 0
    ensures r.negative <==> i < 0
  {
    if i == 0 then PositiveZero
    else
      var a := Magnitude(i);
      var n := Normalize(a, UNIT_EXP);
      ShiftBound(a, UNIT_EXP - n.1, n.0);
      Binary64(i < 0, n.1, n.0 - TWO52)
  }

  /** The absolute value of an `i32`, as an unbounded natural. */
  function Magnitude(i: i32): (a: nat)
    ensures 1 <= a < TWO52 || i == 0
    ensures a == if i < 0 then -(i as int) else i
  {
    if i < 0 then -(i as int) else i
  }

  /** A significand `a` shifted left `d` times into `[2^52, 2^53)` was shifted
      at most 52 times, and at least once when `a` started below `2^52`. */
  lemma ShiftBound(a: nat, d: nat, m: nat)
    requires 1 <= a && m == a * Pow2(d) && TWO52 <= m < 2 * TWO52
    ensures d <= 52
    ensures a < TWO52 ==> d >= 1
  {
    Pow2Of52();
    Pow2Add(52, 1);
    assert Pow2(d) <= m;
    if d >= 53 {
      Pow2Monotone(53, d);
    }
  }

  /** `f as i32`: truncation toward zero, saturating at the `i32` bounds, with NaN
      giving 0. */
  function ToI32(f: F64): i32 {
    if IsNaN(f) then 0
    else if f.exponent >= UNIT_EXP then
      // |f| >= 2^52: saturates (infinities included)
      if f.negative then I32_MIN else I32_MAX
    else
      var t := if f.exponent == 0 then 0 else Halve(TWO52 + f.fraction, UNIT_EXP - f.exponent);
      if f.negative then (if -t < I32_MIN then I32_MIN else -t)
      else (if t > I32_MAX then I32_MAX else t)
  }

  /** `f.fract() == 0.0`: finite with no fractional part. */
  predicate IsIntegral(f: F64) {
    if f.exponent == EXP_MAX then false
    else if f.exponent == 0 then f.fraction == 0
    else if f.exponent >= UNIT_EXP then true
    else (TWO52 + f.fraction) % Pow2(UNIT_EXP - f.exponent) == 0
  }

  /** The 64-bit pattern of `f`, as `f64::to_bits` returns it. */
  function Bits(f: F64): nat {
    (if f.negative then 0x8000_0000_0000_0000 else 0) + f.exponent * TWO52 + f.fraction
  }

  /** `f64::to_le_bytes`. */
  function LeBytes8(f: F64): (bs: seq<byte>)
    ensures |bs| == 8
  {
    var b := Bits(f);
    seq(8, k requires 0 <= k < 8 => (b / Pow2(8 * k)) % 256)
  }

  // ---------------------------------------------------------------------------
  // Properties of the exact conversions

  /** Converting an `i32` to `f64` and truncating back is the identity. */
  lemma ToI32OfFromI32(i: i32)
    ensures ToI32(FromI32(i)) == i
  {
    if i != 0 {
      var a := Magnitude(i);
      var n := Normalize(a, UNIT_EXP);
      ShiftBound(a, UNIT_EXP - n.1, n.0);
      var f := FromI32(i);
      assert f.exponent == n.1 && TWO52 + f.fraction == n.0;
      HalveOfScaled(a, UNIT_EXP - n.1);
    }
  }

  lemma {:induction false} KeyDeterminesFields(a: F64, b: F64)
    requires a.negative == b.negative && !IsZero(a)
    requires a.exponent * TWO52 + a.fraction == b.exponent * TWO52 + b.fraction
    ensures a == b
  {
    FieldsOfMagnitude(a.exponent, a.fraction);
    FieldsOfMagnitude(b.exponent, b.fraction);
  }

  lemma FieldsOfMagnitude(e: nat, f: nat)
    requires f < TWO52
    ensures (e * TWO52 + f) / TWO52 == e && (e * TWO52 + f) % TWO52 == f
  {
  }

  /** Float equality of two converted integers agrees with integer equality, so a
      comparison done in float after `FL.i` promotion keeps `==` and `!=`. */
  lemma EqOfFromI32(x: i32, y: i32)
    ensures Eq(FromI32(x), FromI32(y)) <==> x == y
  {
    var a, b := FromI32(x), FromI32(y);
    if Key(a) == Key(b) {
      if IsZero(a) || IsZero(b) {
        assert a.exponent * TWO52 + a.fraction == 0 || b.exponent * TWO52 + b.fraction == 0;
      } else {
        KeyDeterminesFields(a, b);
        ToI32OfFromI32(x);
        ToI32OfFromI32(y);
      }
    }
  }
}
