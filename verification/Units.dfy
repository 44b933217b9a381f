/** The unit conversions in front of the motor calls (motor_hal.h), over the reals. */
module Units {
  import opened Bytes

  /** M_PI */
  const PI: real := 3.14159265358979323846

  const COUNTS_PER_TURN: real := 65536.0

  /** The cast of a float to an integer drops the fraction. */
  function Truncated(x: real): int {
    if x < 0.0 then -(-x).Floor else x.Floor
  }

  predicate Fits(x: int) {
    -0x8000 <= x < 0x8000
  }

  /** The cast to int16_t. C does not define it for a value that does not fit: then it is `other`, which the
      proofs leave open. */
  function ToInt16(x: real, other: s16): s16 {
    if Fits(Truncated(x)) then Truncated(x) else other
  }

  /** motor_deg_to_counts, before its cast. */
  function Counts(degrees: real): real {
    degrees * COUNTS_PER_TURN / 360.0
  }

  /** motor_counts_to_deg */
  function Degrees(counts: s16): real {
    counts as real * 360.0 / COUNTS_PER_TURN
  }

  function Radians(degrees: real): real {
    degrees * PI / 180.0
  }

  function RadiansPerSecond(rpm: real): real {
    rpm * PI / 30.0
  }

  /** Main result: the angles that have a count are those from -180 degrees (and less than one count beyond)
      to just under 180; no angle outside is clamped. */
  lemma AngleFitsExactlyWhen(degrees: real)
    ensures (forall a, b :: ToInt16(Counts(degrees), a) == ToInt16(Counts(degrees), b))
            <==> -180.0 - 360.0 / COUNTS_PER_TURN < degrees < 180.0
  {
    assert Fits(Truncated(Counts(degrees))) <==> -32769.0 < Counts(degrees) < 32768.0;
    assert ToInt16(Counts(degrees), 0) == ToInt16(Counts(degrees), 1) <==> Fits(Truncated(Counts(degrees)));
  }

  /** The angle of a count gives that count back, and the count of an angle is less than one count nearer to zero. */
  lemma CountsUndoDegrees(counts: s16, other: s16)
    ensures ToInt16(Counts(Degrees(counts)), other) == counts
  {
  }

  lemma WithinOneCount(degrees: real, other: s16)
    requires -180.0 - 360.0 / COUNTS_PER_TURN < degrees < 180.0
    ensures var back := Degrees(ToInt16(Counts(degrees), other));
            if degrees >= 0.0 then 0.0 <= degrees - back < 360.0 / COUNTS_PER_TURN
            else 0.0 <= back - degrees < 360.0 / COUNTS_PER_TURN
  {
    AngleFitsExactlyWhen(degrees);
  }

  /** Half a turn is pi, and one turn a second is 60 RPM and 2 pi radians a second. */
  lemma Turns()
    ensures Radians(180.0) == PI && Radians(-90.0) == -PI / 2.0 && RadiansPerSecond(60.0) == 2.0 * PI
    ensures 3.14159265358979 < PI < 3.1415926535898
    ensures Counts(90.0) == 16384.0 && Degrees(-16384) == -90.0
  {
  }

  /** The conversions are proportional. */
  lemma Proportional(x: real)
    ensures 180.0 * Radians(x) == x * Radians(180.0) && 60.0 * RadiansPerSecond(x) == x * RadiansPerSecond(60.0)
  {
  }

  /** A value that fits loses its fraction, toward zero. */
  lemma DropsTheFraction(x: real, other: s16)
    requires -32769.0 < x < 32768.0
    ensures var n := ToInt16(x, other) as real;
            if x >= 0.0 then 0.0 <= x - n < 1.0 && n >= 0.0 else 0.0 <= n - x < 1.0 && n <= 0.0
  {
  }
}
