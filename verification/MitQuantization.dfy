/** Physical setpoints to raw MIT fields (motor_hal_mit_encode_raw of motor_hal.c), over the reals. */
module MitQuantization {
  import opened Bytes

  /** The last raw value of the 16-bit position field and of the 12-bit fields. */
  const POSITION_STEPS: int := 65535
  const FIELD_STEPS: int := 4095

  /** mit_scales_t: the range of each quantity. A drive may report a negative one but never zero
      (ReadScalesAreNonZero). */
  datatype Scales = Scales(pmax: real, vmax: real, kpmax: real, kdmax: real, tmax: real)

  const DEFAULTS := Scales(3.14, 3.14, 50.0, 50.0, 20.0)

  type NonZeroScales = s: Scales | NonZero(s) witness DEFAULTS

  datatype Setpoint = Setpoint(position: real, velocity: real, kp: real, kd: real, torque: real)

  datatype Raw = Raw(position: int, velocity: int, kp: int, kd: int, torque: int)

  predicate NonZero(s: Scales) {
    s.pmax != 0.0 && s.vmax != 0.0 && s.kpmax != 0.0 && s.kdmax != 0.0 && s.tmax != 0.0
  }

  predicate Positive(s: Scales) {
    s.pmax > 0.0 && s.vmax > 0.0 && s.kpmax > 0.0 && s.kdmax > 0.0 && s.tmax > 0.0
  }

  predicate InRange(raw: Raw) {
    && 0 <= raw.position <= 65535
    && 0 <= raw.velocity <= 4095 && 0 <= raw.kp <= 4095
    && 0 <= raw.kd <= 4095 && 0 <= raw.torque <= 4095
  }

  /** What the code does with the limits, in the order of its tests; they are reversed for a negative scale. */
  function Clamp(x: real, lo: real, hi: real): (y: real)
    ensures lo <= hi ==> lo <= y <= hi
    ensures lo <= x <= hi ==> y == x
    ensures hi < lo ==> y == if x < lo then lo else hi
  {
    if x < lo then lo else if x > hi then hi else x
  }

  /** The cast of a non-negative float to an integer truncates. */
  function Trunc(x: real): int {
    x.Floor
  }

  /** A distance within a range of width w as a number of steps out of n, and back. */
  function Up(d: real, w: real, n: real): real
    requires w != 0.0
  {
    d / w * n
  }

  function Down(r: real, w: real, n: real): real
    requires n > 0.0
  {
    w * r / n
  }

  /** x clamped to [lo, hi] and rounded to one of `steps + 1` evenly spaced values, halves upward. */
  function Quantized(x: real, lo: real, hi: real, steps: int): int
    requires lo != hi && steps > 0
  {
    Trunc(Up(Clamp(x, lo, hi) - lo, hi - lo, steps as real) + 0.5)
  }

  /** The physical value that a raw field stands for. */
  function Level(raw: int, lo: real, hi: real, steps: int): real
    requires steps > 0
  {
    lo + Down(raw as real, hi - lo, steps as real)
  }

  function Encoded(s: NonZeroScales, p: Setpoint): Raw
  {
    Raw(Quantized(p.position, -s.pmax, s.pmax, POSITION_STEPS),
        Quantized(p.velocity, -s.vmax, s.vmax, FIELD_STEPS),
        Quantized(p.kp, 0.0, s.kpmax, FIELD_STEPS),
        Quantized(p.kd, 0.0, s.kdmax, FIELD_STEPS),
        Quantized(p.torque, -s.tmax, s.tmax, FIELD_STEPS))
  }

  function Decoded(s: NonZeroScales, raw: Raw): Setpoint
  {
    Setpoint(Level(raw.position, -s.pmax, s.pmax, POSITION_STEPS),
             Level(raw.velocity, -s.vmax, s.vmax, FIELD_STEPS),
             Level(raw.kp, 0.0, s.kpmax, FIELD_STEPS),
             Level(raw.kd, 0.0, s.kdmax, FIELD_STEPS),
             Level(raw.torque, -s.tmax, s.tmax, FIELD_STEPS))
  }

  lemma Symmetric(x: real, max: real, n: real)
    requires max != 0.0
    ensures Up(Clamp(x, -max, max) - -max, max - -max, n) == (Clamp(x, -max, max) + max) / (2.0 * max) * n
  {
  }

  lemma OneSided(x: real, max: real, n: real)
    requires max != 0.0
    ensures Up(Clamp(x, 0.0, max) - 0.0, max - 0.0, n) == Clamp(x, 0.0, max) / max * n
  {
  }

  /** Position, velocity and torque: the same three lines of code, on a copy of the argument. */
  method EncodeSymmetric(x: real, max: real, steps: int) returns (raw: int)
    requires max != 0.0 && steps > 0
    ensures raw == Quantized(x, -max, max, steps)
  {
    Symmetric(x, max, steps as real);
    hide Up;
    var p := x;
    if p < -max { p := -max; } else if p > max { p := max; }
    raw := Trunc((p + max) / (2.0 * max) * steps as real + 0.5);
  }

  /** The two gains. */
  method EncodeOneSided(x: real, max: real, steps: int) returns (raw: int)
    requires max != 0.0 && steps > 0
    ensures raw == Quantized(x, 0.0, max, steps)
  {
    OneSided(x, max, steps as real);
    hide Up;
    var p := x;
    if p < 0.0 { p := 0.0; } else if p > max { p := max; }
    raw := Trunc(p / max * steps as real + 0.5);
  }

  /** motor_hal_mit_encode_raw */
  method EncodeRaw(s: NonZeroScales, p: Setpoint) returns (raw: Raw)
    ensures raw == Encoded(s, p)
    ensures InRange(raw)
  {
    hide Quantized;
    EncodeMonotone(s, p, p);
    var position := EncodeSymmetric(p.position, s.pmax, POSITION_STEPS);
    var velocity := EncodeSymmetric(p.velocity, s.vmax, FIELD_STEPS);
    var kp := EncodeOneSided(p.kp, s.kpmax, FIELD_STEPS);
    var kd := EncodeOneSided(p.kd, s.kdmax, FIELD_STEPS);
    var torque := EncodeSymmetric(p.torque, s.tmax, FIELD_STEPS);
    raw := Raw(position, velocity, kp, kd, torque);
  }

  // ---------- one field ----------

  lemma FloorBounds(x: real)
    ensures Trunc(x) as real <= x < Trunc(x) as real + 1.0
  {
  }

  lemma Quotient(a: real, c: real)
    requires c > 0.0
    ensures a / c * c == a && a * c / c == a
  {
  }

  lemma LessTimes(a: real, b: real, c: real)
    requires c > 0.0
    ensures a < b <==> a * c < b * c
  {
  }

  lemma LessOver(a: real, b: real, c: real)
    requires c > 0.0
    ensures a < b <==> a / c < b / c
  {
    Quotient(a, c);
    Quotient(b, c);
    LessTimes(a / c, b / c, c);
  }

  lemma UpIsMonotone(a: real, b: real, w: real, n: real)
    requires w > 0.0 && n > 0.0
    ensures a < b <==> Up(a, w, n) < Up(b, w, n)
  {
    LessOver(a, b, w);
    LessTimes(a / w, b / w, n);
  }

  lemma DownIsMonotone(a: real, b: real, w: real, n: real)
    requires w > 0.0 && n > 0.0
    ensures a < b <==> Down(a, w, n) < Down(b, w, n)
  {
    LessTimes(a, b, w);
    LessOver(w * a, w * b, n);
  }

  lemma UpDown(r: real, w: real, n: real)
    requires w > 0.0 && n > 0.0
    ensures Up(Down(r, w, n), w, n) == r
  {
    var q := r / n;
    Quotient(r, n);
    assert w * r / n == q * w by {
      Quotient(q * w, n);
      assert q * w * n == w * r;
    }
    Quotient(q, w);
  }

  lemma DownUp(d: real, w: real, n: real)
    requires w > 0.0 && n > 0.0
    ensures Down(Up(d, w, n), w, n) == d
  {
    var q := d / w;
    Quotient(d, w);
    assert w * (q * n) == d * n;
    Quotient(d, n);
  }

  lemma DownIsLinear(r: real, z: real, w: real, n: real)
    requires n > 0.0
    ensures Down(r, w, n) - Down(z, w, n) == Down(r - z, w, n)
  {
    Quotient(w * r, n);
    Quotient(w * z, n);
    Quotient(w * (r - z), n);
    var p, q := Down(r, w, n), Down(z, w, n);
    assert (p - q) * n == w * (r - z);
    Quotient(p - q, n);
  }

  lemma HalfStep(w: real, n: real)
    requires w > 0.0 && n > 0.0
    ensures Down(0.5, w, n) == w / (2.0 * n) && Down(-0.5, w, n) == -(w / (2.0 * n))
    ensures Up(0.0, w, n) == 0.0 && Up(w, w, n) == n
  {
    var half := w / (2.0 * n);
    Quotient(w, 2.0 * n);
    assert half * n == w * 0.5;
    Quotient(half, n);
    assert (-half) * n == w * -0.5;
    Quotient(-half, n);
    Quotient(1.0, w);
  }

  /** Reversed limits leave two raw values: zero below the lower one, the last from there on. */
  lemma Reversed(x: real, lo: real, hi: real, steps: int)
    requires hi < lo && steps > 0
    ensures Quantized(x, lo, hi, steps) == if x < lo then 0 else steps
  {
    Whole(hi - lo, steps as real);
    FloorBounds(0.5);
    FloorBounds(steps as real + 0.5);
    hide Up;
  }

  lemma Whole(w: real, n: real)
    requires w != 0.0
    ensures Up(0.0, w, n) == 0.0 && Up(w, w, n) == n
  {
  }

  /** Every input, however far out of range, gives a raw value in range, and a larger input never gives a
      smaller one. */
  lemma QuantizedMonotone(x: real, y: real, lo: real, hi: real, steps: int)
    requires lo != hi && steps > 0 && x <= y
    ensures 0 <= Quantized(x, lo, hi, steps) <= Quantized(y, lo, hi, steps) <= steps
  {
    if hi < lo {
      Reversed(x, lo, hi, steps);
      Reversed(y, lo, hi, steps);
    } else {
      MonotoneBetween(x, y, lo, hi, steps);
    }
  }

  lemma MonotoneBetween(x: real, y: real, lo: real, hi: real, steps: int)
    requires lo < hi && steps > 0 && x <= y
    ensures 0 <= Quantized(x, lo, hi, steps) <= Quantized(y, lo, hi, steps) <= steps
  {
    hide Up, Down;
    var a, b, w, n := Clamp(x, lo, hi) - lo, Clamp(y, lo, hi) - lo, hi - lo, steps as real;
    HalfStep(w, n);
    UpIsMonotone(a, 0.0, w, n);
    UpIsMonotone(b, a, w, n);
    UpIsMonotone(w, b, w, n);
    FloorBounds(Up(a, w, n) + 0.5);
    FloorBounds(Up(b, w, n) + 0.5);
  }

  function Abs(x: real): real {
    if x < 0.0 then -x else x
  }

  predicate Near(a: real, b: real, distance: real) {
    -distance <= a - b <= distance
  }

  /** The level of the raw value is within half a step of the clamped input. */
  lemma WithinHalfAStep(x: real, lo: real, hi: real, steps: int)
    requires lo != hi && steps > 0
    ensures Near(Level(Quantized(x, lo, hi, steps), lo, hi, steps), Clamp(x, lo, hi),
                 Abs(hi - lo) / (2.0 * steps as real))
  {
    if hi < lo {
      Reversed(x, lo, hi, steps);
      Ends(lo, hi, steps);
      assert Abs(hi - lo) / (2.0 * steps as real) >= 0.0;
    } else {
      WithinBetween(x, lo, hi, steps);
    }
  }

  lemma Ends(lo: real, hi: real, steps: int)
    requires steps > 0
    ensures Level(0, lo, hi, steps) == lo && Level(steps, lo, hi, steps) == hi
  {
    Quotient(hi - lo, steps as real);
  }

  lemma WithinBetween(x: real, lo: real, hi: real, steps: int)
    requires lo < hi && steps > 0
    ensures Near(Level(Quantized(x, lo, hi, steps), lo, hi, steps), Clamp(x, lo, hi),
                 (hi - lo) / (2.0 * steps as real))
  {
    hide Up, Down;
    var d, w, n := Clamp(x, lo, hi) - lo, hi - lo, steps as real;
    var r, z := Quantized(x, lo, hi, steps) as real, Up(d, w, n);
    FloorBounds(z + 0.5);
    DownUp(d, w, n);
    DownIsLinear(r, z, w, n);
    DownIsMonotone(r - z, -0.5, w, n);
    DownIsMonotone(0.5, r - z, w, n);
    HalfStep(w, n);
  }

  /** Encoding the level of a raw value gives that raw value back. */
  lemma QuantizedLevel(raw: int, lo: real, hi: real, steps: int)
    requires lo < hi && steps > 0 && 0 <= raw <= steps
    ensures Quantized(Level(raw, lo, hi, steps), lo, hi, steps) == raw
  {
    hide Up, Down;
    var w, n, r := hi - lo, steps as real, raw as real;
    UpDown(r, w, n);
    HalfStep(w, n);
    UpIsMonotone(Down(r, w, n), 0.0, w, n);
    UpIsMonotone(w, Down(r, w, n), w, n);
    FloorBounds(r + 0.5);
  }

  /** Where the raw value 1 or more begins. */
  function ZeroEnd(lo: real, hi: real, steps: int): real
    requires steps > 0
  {
    if lo < hi then lo + (hi - lo) / (2.0 * steps as real) else lo
  }

  lemma ZeroExactlyWhen(x: real, lo: real, hi: real, steps: int)
    requires lo != hi && steps > 0
    ensures Quantized(x, lo, hi, steps) == 0 <==> x < ZeroEnd(lo, hi, steps)
  {
    if hi < lo {
      Reversed(x, lo, hi, steps);
    } else {
      ZeroBelowHalfAStep(x, lo, hi, steps);
    }
  }

  lemma ZeroBelowHalfAStep(x: real, lo: real, hi: real, steps: int)
    requires lo < hi && steps > 0
    ensures Quantized(x, lo, hi, steps) == 0 <==> x < lo + (hi - lo) / (2.0 * steps as real)
  {
    hide Up, Down;
    var d, w, n := Clamp(x, lo, hi) - lo, hi - lo, steps as real;
    QuantizedMonotone(x, x, lo, hi, steps);
    FloorBounds(Up(d, w, n) + 0.5);
    HalfStep(w, n);
    UpDown(0.5, w, n);
    UpIsMonotone(d, Down(0.5, w, n), w, n);
    UpIsMonotone(0.0, Down(0.5, w, n), w, n);
    UpIsMonotone(w, Down(0.5, w, n), w, n);
  }

  // ---------- the five fields together ----------

  function Clamped(s: Scales, p: Setpoint): Setpoint {
    Setpoint(Clamp(p.position, -s.pmax, s.pmax), Clamp(p.velocity, -s.vmax, s.vmax),
             Clamp(p.kp, 0.0, s.kpmax), Clamp(p.kd, 0.0, s.kdmax), Clamp(p.torque, -s.tmax, s.tmax))
  }

  predicate AtMost(p: Setpoint, q: Setpoint) {
    p.position <= q.position && p.velocity <= q.velocity && p.kp <= q.kp && p.kd <= q.kd && p.torque <= q.torque
  }

  /** Main result: encoding is monotone in every field and always in range, whatever the signs of the scales. */
  lemma EncodeMonotone(s: NonZeroScales, p: Setpoint, q: Setpoint)
    requires AtMost(p, q)
    ensures var a, b := Encoded(s, p), Encoded(s, q);
            && InRange(a) && InRange(b)
            && a.position <= b.position && a.velocity <= b.velocity && a.kp <= b.kp && a.kd <= b.kd
            && a.torque <= b.torque
  {
    hide Quantized;
    QuantizedMonotone(p.position, q.position, -s.pmax, s.pmax, POSITION_STEPS);
    QuantizedMonotone(p.velocity, q.velocity, -s.vmax, s.vmax, FIELD_STEPS);
    QuantizedMonotone(p.kp, q.kp, 0.0, s.kpmax, FIELD_STEPS);
    QuantizedMonotone(p.kd, q.kd, 0.0, s.kdmax, FIELD_STEPS);
    QuantizedMonotone(p.torque, q.torque, -s.tmax, s.tmax, FIELD_STEPS);
  }

  /** Half a step of each field apart at most. */
  predicate Close(s: Scales, d: Setpoint, c: Setpoint) {
    && Near(d.position, c.position, Abs(s.pmax) / 65535.0)
    && Near(d.velocity, c.velocity, Abs(s.vmax) / 4095.0)
    && Near(d.kp, c.kp, Abs(s.kpmax) / 8190.0)
    && Near(d.kd, c.kd, Abs(s.kdmax) / 8190.0)
    && Near(d.torque, c.torque, Abs(s.tmax) / 4095.0)
  }

  /** Main result: what a drive decodes is the clamped setpoint to within half a step of each field. */
  lemma DecodedIsNear(s: NonZeroScales, p: Setpoint)
    ensures Close(s, Decoded(s, Encoded(s, p)), Clamped(s, p))
  {
    hide Quantized, Level, Clamp;
    WithinHalfAStep(p.position, -s.pmax, s.pmax, POSITION_STEPS);
    WithinHalfAStep(p.velocity, -s.vmax, s.vmax, FIELD_STEPS);
    WithinHalfAStep(p.kp, 0.0, s.kpmax, FIELD_STEPS);
    WithinHalfAStep(p.kd, 0.0, s.kdmax, FIELD_STEPS);
    WithinHalfAStep(p.torque, -s.tmax, s.tmax, FIELD_STEPS);
  }

  /** With positive scales every raw value is the encoding of what it decodes to. */
  lemma EncodeUndoesDecode(s: NonZeroScales, raw: Raw)
    requires Positive(s) && InRange(raw)
    ensures Encoded(s, Decoded(s, raw)) == raw
  {
    hide Quantized, Level;
    QuantizedLevel(raw.position, -s.pmax, s.pmax, POSITION_STEPS);
    QuantizedLevel(raw.velocity, -s.vmax, s.vmax, FIELD_STEPS);
    QuantizedLevel(raw.kp, 0.0, s.kpmax, FIELD_STEPS);
    QuantizedLevel(raw.kd, 0.0, s.kdmax, FIELD_STEPS);
    QuantizedLevel(raw.torque, -s.tmax, s.tmax, FIELD_STEPS);
  }

  /** With a negative scale that field is 0 or its maximum, so the raw value 1 never comes out of it. */
  lemma OneIsLost(s: NonZeroScales, p: Setpoint)
    requires !Positive(s)
    ensures Encoded(s, p) != Raw(1, 1, 1, 1, 1)
  {
    hide Quantized;
    if s.pmax < 0.0 { Reversed(p.position, -s.pmax, s.pmax, POSITION_STEPS); }
    if s.vmax < 0.0 { Reversed(p.velocity, -s.vmax, s.vmax, FIELD_STEPS); }
    if s.kpmax < 0.0 { Reversed(p.kp, 0.0, s.kpmax, FIELD_STEPS); }
    if s.kdmax < 0.0 { Reversed(p.kd, 0.0, s.kdmax, FIELD_STEPS); }
    if s.tmax < 0.0 { Reversed(p.torque, -s.tmax, s.tmax, FIELD_STEPS); }
  }

  /** Main result: every raw value survives decoding and encoding exactly when all five scales are positive. */
  lemma RoundTripExactlyWhen(s: NonZeroScales)
    ensures (forall raw | InRange(raw) :: Encoded(s, Decoded(s, raw)) == raw) <==> Positive(s)
  {
    hide Encoded, Decoded;
    if Positive(s) {
      forall raw | InRange(raw) ensures Encoded(s, Decoded(s, raw)) == raw {
        EncodeUndoesDecode(s, raw);
      }
    } else {
      var ones := Raw(1, 1, 1, 1, 1);
      OneIsLost(s, Decoded(s, ones));
      assert InRange(ones);
    }
  }

  /** With positive scales: every symmetric quantity less than half a step above its lower limit (or below it),
      and both gains less than half a step above zero. */
  predicate Refused(s: Scales, p: Setpoint) {
    && p.position < ZeroEnd(-s.pmax, s.pmax, POSITION_STEPS)
    && p.velocity < ZeroEnd(-s.vmax, s.vmax, FIELD_STEPS)
    && p.kp < ZeroEnd(0.0, s.kpmax, FIELD_STEPS) && p.kd < ZeroEnd(0.0, s.kdmax, FIELD_STEPS)
    && p.torque < ZeroEnd(-s.tmax, s.tmax, FIELD_STEPS)
  }

  /** The setpoints that mit_control refuses to send. */
  lemma RefusedSetpoints(s: NonZeroScales, p: Setpoint)
    ensures Encoded(s, p) == Raw(0, 0, 0, 0, 0) <==> Refused(s, p)
  {
    hide Quantized, ZeroEnd;
    ZeroExactlyWhen(p.position, -s.pmax, s.pmax, POSITION_STEPS);
    ZeroExactlyWhen(p.velocity, -s.vmax, s.vmax, FIELD_STEPS);
    ZeroExactlyWhen(p.kp, 0.0, s.kpmax, FIELD_STEPS);
    ZeroExactlyWhen(p.kd, 0.0, s.kdmax, FIELD_STEPS);
    ZeroExactlyWhen(p.torque, -s.tmax, s.tmax, FIELD_STEPS);
  }

  // ---------- the scales a drive reports ----------

  /** One answer: nothing or zero gives the default, anything else is taken as a signed number of units. */
  function ScaleRead(answer: Option<u32>, unit: real, default: real): real {
    if answer.Some? && answer.value != 0 then Signed(answer.value, TWO_32) as real * unit else default
  }

  /** motor_hal_read_mit_scales: the answers to objects 0x2542 to 0x2546. */
  function ScalesRead(answers: seq<Option<u32>>): Scales
    requires |answers| == 5
  {
    Scales(ScaleRead(answers[0], 0.01, 3.14), ScaleRead(answers[1], 0.01, 3.14), ScaleRead(answers[2], 1.0, 50.0),
           ScaleRead(answers[3], 1.0, 50.0), ScaleRead(answers[4], 1.0, 20.0))
  }

  /** Whatever the drive answers no scale is zero; all are positive exactly when no answer has bit 31 set. */
  lemma ReadScalesAreNonZero(answers: seq<Option<u32>>)
    requires |answers| == 5
    ensures NonZero(ScalesRead(answers))
    ensures Positive(ScalesRead(answers)) <==>
              forall i :: 0 <= i < 5 && answers[i].Some? ==> answers[i].value < 0x8000_0000
  {
    assert Positive(ScalesRead(answers)) <==>
      && ScaleRead(answers[0], 0.01, 3.14) > 0.0 && ScaleRead(answers[1], 0.01, 3.14) > 0.0
      && ScaleRead(answers[2], 1.0, 50.0) > 0.0 && ScaleRead(answers[3], 1.0, 50.0) > 0.0
      && ScaleRead(answers[4], 1.0, 20.0) > 0.0;
  }

  /** What the answers mean: hundredths for position and velocity, units for the others; and the defaults. */
  lemma ScalesByHand(a: Option<u32>, b: Option<u32>, c: Option<u32>, d: Option<u32>, e: Option<u32>)
    ensures var s := ScalesRead([a, b, c, d, e]);
            && (a.Some? && 0 < a.value < 0x8000_0000 ==> 100.0 * s.pmax == a.value as real)
            && (b.Some? && 0 < b.value < 0x8000_0000 ==> 100.0 * s.vmax == b.value as real)
            && (c.Some? && 0 < c.value < 0x8000_0000 ==> s.kpmax == c.value as real)
            && (d.Some? && 0 < d.value < 0x8000_0000 ==> s.kdmax == d.value as real)
            && (e.Some? && 0 < e.value < 0x8000_0000 ==> s.tmax == e.value as real)
            && (a.None? ==> s.pmax == 3.14) && (b.None? ==> s.vmax == 3.14)
            && (c.None? ==> s.kpmax == 50.0) && (d.None? ==> s.kdmax == 50.0) && (e.None? ==> s.tmax == 20.0)
    ensures ScalesRead([None, None, None, None, None]) == DEFAULTS
    ensures ScalesRead([Some(0), Some(0), Some(0), Some(0), Some(0)]) == DEFAULTS
  {
  }

  /** The ends of the positive scales are the ends of the raw ranges, and beyond them nothing changes. */
  lemma FullScale(s: NonZeroScales, over: real)
    requires Positive(s) && over >= 0.0
    ensures Encoded(s, Setpoint(s.pmax + over, s.vmax + over, s.kpmax + over, s.kdmax + over, s.tmax + over))
            == Raw(65535, 4095, 4095, 4095, 4095)
    ensures Encoded(s, Setpoint(-s.pmax - over, -s.vmax - over, -over, -over, -s.tmax - over)) == Raw(0, 0, 0, 0, 0)
  {
    FieldEnds(s.pmax + over, -s.pmax - over, -s.pmax, s.pmax, POSITION_STEPS);
    FieldEnds(s.vmax + over, -s.vmax - over, -s.vmax, s.vmax, FIELD_STEPS);
    FieldEnds(s.kpmax + over, -over, 0.0, s.kpmax, FIELD_STEPS);
    FieldEnds(s.kdmax + over, -over, 0.0, s.kdmax, FIELD_STEPS);
    FieldEnds(s.tmax + over, -s.tmax - over, -s.tmax, s.tmax, FIELD_STEPS);
    hide Quantized;
  }

  lemma FieldEnds(above: real, below: real, lo: real, hi: real, steps: int)
    requires lo < hi && steps > 0 && above >= hi && below <= lo
    ensures Quantized(above, lo, hi, steps) == steps && Quantized(below, lo, hi, steps) == 0
  {
    Whole(hi - lo, steps as real);
    FloorBounds(steps as real + 0.5);
    hide Up;
  }
}
