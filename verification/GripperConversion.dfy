/** Pulse and joint angle of the gripper, over exact reals with Python's rounding. */
module GripperConversion {

  // Python's round(): to the nearest integer, halves to the even one.
  function RoundHalfEven(x: real): int {
    var f := x.Floor;
    var d := x - f as real;
    if d < 0.5 then f else if d > 0.5 then f + 1 else if f % 2 == 0 then f else f + 1
  }

  lemma RoundIsNear(x: real)
    ensures x - 0.5 <= RoundHalfEven(x) as real <= x + 0.5
  {
  }

  lemma RoundOfInt(n: int)
    ensures RoundHalfEven(n as real) == n
  {
  }

  // Halves go to the even neighbour.
  lemma RoundOfHalf(n: int)
    ensures RoundHalfEven(n as real + 0.5) == if n % 2 == 0 then n else n + 1
  {
    assert (n as real + 0.5).Floor == n;
  }

  lemma RoundIsMonotone(x: real, y: real)
    requires x <= y
    ensures RoundHalfEven(x) <= RoundHalfEven(y)
  {
    assert x.Floor <= y.Floor;
  }

  function Clamp(v: real, lo: real, hi: real): real {
    var w := if v <= hi then v else hi;
    if lo >= w then lo else w
  }

  // The two ends of the stroke, as angles and as pulses.
  datatype Calibration = Calibration(openRad: real, closedRad: real, pulseOpen: int, pulseClosed: int)

  // From `start`, the fraction t of the span.
  function Along(start: real, t: real, span: real): real {
    start + t * span
  }

  function NormalizedClosure(angle: real, c: Calibration): real {
    var span := c.closedRad - c.openRad;
    if span <= 0.0 then 0.0 else Clamp((angle - c.openRad) / span, 0.0, 1.0)
  }

  function RadToPulse(angle: real, c: Calibration): int {
    var t := NormalizedClosure(angle, c);
    RoundHalfEven(Along(c.pulseOpen as real, t, (c.pulseClosed - c.pulseOpen) as real))
  }

  function PulseToRad(pulse: int, c: Calibration): real {
    var span := c.pulseClosed - c.pulseOpen;
    if span <= 0 then c.openRad
    else
      var t := Clamp((pulse - c.pulseOpen) as real / span as real, 0.0, 1.0);
      Along(c.openRad, t, c.closedRad - c.openRad)
  }

  // ---------------------------------------------------------------- real arithmetic

  lemma Quotient(x: real, s: real)
    requires s > 0.0
    ensures x / s * s == x
  {
  }

  lemma QuotientOfProduct(t: real, s: real)
    requires s > 0.0
    ensures t * s / s == t
  {
  }

  lemma ScaleMonotone(a: real, b: real, s: real)
    requires a <= b && s >= 0.0
    ensures a * s <= b * s
  {
    assert (b - a) * s >= 0.0;
  }

  lemma ScaleStrict(a: real, b: real, s: real)
    requires a < b && s > 0.0
    ensures a * s < b * s
  {
    assert (b - a) * s > 0.0;
  }

  lemma AlongMonotone(start: real, t: real, u: real, span: real)
    requires t <= u && span >= 0.0
    ensures Along(start, t, span) <= Along(start, u, span)
  {
    ScaleMonotone(t, u, span);
  }

  lemma AlongInside(start: real, t: real, span: real)
    requires 0.0 <= t <= 1.0 && span >= 0.0
    ensures start <= Along(start, t, span) <= start + span
  {
    AlongMonotone(start, 0.0, t, span);
    AlongMonotone(start, t, 1.0, span);
  }

  lemma QuotientMonotone(x: real, y: real, s: real)
    requires x <= y && s > 0.0
    ensures x / s <= y / s
  {
    var a, b := x / s, y / s;
    if b < a { ScaleStrict(b, a, s); }
  }

  // A part of the way stays between the ends.
  lemma QuotientInUnit(x: real, s: real)
    requires s > 0.0 && 0.0 <= x <= s
    ensures 0.0 <= x / s <= 1.0
  {
    QuotientMonotone(0.0, x, s);
    QuotientMonotone(x, s, s);
  }

  // ---------------------------------------------------------------- the conversion

  predicate Usable(c: Calibration) {
    c.openRad < c.closedRad && c.pulseOpen < c.pulseClosed
  }

  lemma PulseRoundTrip(pulse: int, c: Calibration)
    requires Usable(c) && c.pulseOpen <= pulse <= c.pulseClosed
    ensures RadToPulse(PulseToRad(pulse, c), c) == pulse
  {
    var n, s := (c.pulseClosed - c.pulseOpen) as real, c.closedRad - c.openRad;
    var x := (pulse - c.pulseOpen) as real;
    var t := x / n;
    QuotientInUnit(x, n);
    QuotientOfProduct(t, s);
    assert PulseToRad(pulse, c) - c.openRad == t * s;
    Quotient(x, n);
    RoundOfInt(pulse);
  }

  /** Every pulse of the range survives the way to an angle and back exactly when the range is
      a single pulse or the closed angle lies above the open one. */
  lemma PulseRoundTripIff(c: Calibration)
    requires c.pulseOpen <= c.pulseClosed
    ensures (forall p :: c.pulseOpen <= p <= c.pulseClosed ==> RadToPulse(PulseToRad(p, c), c) == p)
       <==> c.pulseOpen == c.pulseClosed || c.openRad < c.closedRad
  {
    if c.pulseOpen == c.pulseClosed {
      forall p | c.pulseOpen <= p <= c.pulseClosed
        ensures RadToPulse(PulseToRad(p, c), c) == p
      {
        RoundOfInt(p);
      }
    } else if c.openRad < c.closedRad {
      forall p | c.pulseOpen <= p <= c.pulseClosed
        ensures RadToPulse(PulseToRad(p, c), c) == p
      {
        PulseRoundTrip(p, c);
      }
    } else {
      RoundOfInt(c.pulseOpen);
      assert RadToPulse(PulseToRad(c.pulseClosed, c), c) == c.pulseOpen;
    }
  }

  /** An angle of the range comes back within half a pulse's worth of angle. */
  lemma AngleRoundTrip(angle: real, c: Calibration)
    requires Usable(c) && c.openRad <= angle <= c.closedRad
    ensures WithinHalfPulse(c, PulseToRad(RadToPulse(angle, c), c) - angle)
  {
    hide NormalizedClosure, PulseToRad, RoundHalfEven, Along, Part;
    var n, s := (c.pulseClosed - c.pulseOpen) as real, c.closedRad - c.openRad;
    var t := NormalizedClosure(angle, c);
    var p := RadToPulse(angle, c);
    var u := (p - c.pulseOpen) as real / n;
    ClosureInside(angle, c);
    PulseInRange(angle, c);
    AngleInside(p, c);
    RoundedAlong(c.pulseOpen, t, n);
    HalfPulse(c, u, t);
  }

  // The angle times the number of pulses is at most half the span.
  predicate WithinHalfPulse(c: Calibration, d: real) {
    -(c.closedRad - c.openRad) <= 2.0 * (c.pulseClosed - c.pulseOpen) as real * d <= c.closedRad - c.openRad
  }

  function Part(t: real, n: real): real {
    t * n
  }

  lemma HalfPulse(c: Calibration, u: real, t: real)
    requires Usable(c)
    requires var n := (c.pulseClosed - c.pulseOpen) as real; -0.5 <= Part(u, n) - Part(t, n) <= 0.5
    ensures var s := c.closedRad - c.openRad; WithinHalfPulse(c, Along(c.openRad, u, s) - Along(c.openRad, t, s))
  {
    var n, s := (c.pulseClosed - c.pulseOpen) as real, c.closedRad - c.openRad;
    AlongDifference(c.openRad, u, t, s);
    hide Along;
    NearScales(u, t, n, s);
  }

  lemma RoundedAlong(start: int, t: real, n: real)
    ensures -0.5 <= (RoundHalfEven(Along(start as real, t, n)) - start) as real - Part(t, n) <= 0.5
  {
    RoundIsNear(Along(start as real, t, n));
  }

  lemma AlongDifference(start: real, u: real, t: real, span: real)
    ensures Along(start, u, span) - Along(start, t, span) == u * span - t * span
  {
  }

  lemma ClosureInside(angle: real, c: Calibration)
    requires c.openRad < c.closedRad && c.openRad <= angle <= c.closedRad
    ensures angle == Along(c.openRad, NormalizedClosure(angle, c), c.closedRad - c.openRad)
  {
    var s := c.closedRad - c.openRad;
    QuotientInUnit(angle - c.openRad, s);
    Quotient(angle - c.openRad, s);
  }

  lemma AngleInside(p: int, c: Calibration)
    requires c.pulseOpen < c.pulseClosed && c.pulseOpen <= p <= c.pulseClosed
    ensures var n := (c.pulseClosed - c.pulseOpen) as real; var u := (p - c.pulseOpen) as real / n;
            Part(u, n) == (p - c.pulseOpen) as real && PulseToRad(p, c) == Along(c.openRad, u, c.closedRad - c.openRad)
  {
    var n := (c.pulseClosed - c.pulseOpen) as real;
    QuotientInUnit((p - c.pulseOpen) as real, n);
    Quotient((p - c.pulseOpen) as real, n);
  }

  lemma NearScales(u: real, t: real, n: real, s: real)
    requires -0.5 <= u * n - t * n <= 0.5 && s >= 0.0
    ensures -s <= 2.0 * n * (u * s - t * s) <= s
  {
    var d := u * n - t * n;
    assert 2.0 * n * (u * s - t * s) == 2.0 * d * s;
    ScaleMonotone(-1.0, 2.0 * d, s);
    ScaleMonotone(2.0 * d, 1.0, s);
  }

  /** Whatever the angle, the pulse is inside the stroke. */
  lemma PulseInRange(angle: real, c: Calibration)
    requires c.pulseOpen <= c.pulseClosed
    ensures c.pulseOpen <= RadToPulse(angle, c) <= c.pulseClosed
  {
    var x := Along(c.pulseOpen as real, NormalizedClosure(angle, c), (c.pulseClosed - c.pulseOpen) as real);
    AlongInside(c.pulseOpen as real, NormalizedClosure(angle, c), (c.pulseClosed - c.pulseOpen) as real);
    RoundOfInt(c.pulseOpen);
    RoundOfInt(c.pulseClosed);
    RoundIsMonotone(c.pulseOpen as real, x);
    RoundIsMonotone(x, c.pulseClosed as real);
  }

  lemma AngleInRange(pulse: int, c: Calibration)
    requires c.openRad <= c.closedRad
    ensures c.openRad <= PulseToRad(pulse, c) <= c.closedRad
  {
    if c.pulseClosed > c.pulseOpen {
      var t := Clamp((pulse - c.pulseOpen) as real / (c.pulseClosed - c.pulseOpen) as real, 0.0, 1.0);
      AlongInside(c.openRad, t, c.closedRad - c.openRad);
    }
  }

  lemma RadToPulseIsMonotone(a: real, b: real, c: Calibration)
    requires a <= b && c.pulseOpen <= c.pulseClosed
    ensures RadToPulse(a, c) <= RadToPulse(b, c)
  {
    if c.closedRad > c.openRad {
      QuotientMonotone(a - c.openRad, b - c.openRad, c.closedRad - c.openRad);
    }
    hide RoundHalfEven, Along;
    var start, n := c.pulseOpen as real, (c.pulseClosed - c.pulseOpen) as real;
    AlongMonotone(start, NormalizedClosure(a, c), NormalizedClosure(b, c), n);
    RoundIsMonotone(Along(start, NormalizedClosure(a, c), n), Along(start, NormalizedClosure(b, c), n));
  }

  lemma PulseToRadIsMonotone(p: int, q: int, c: Calibration)
    requires p <= q && c.openRad <= c.closedRad
    ensures PulseToRad(p, c) <= PulseToRad(q, c)
  {
    if c.pulseClosed > c.pulseOpen {
      hide Along;
      var n := (c.pulseClosed - c.pulseOpen) as real;
      QuotientMonotone((p - c.pulseOpen) as real, (q - c.pulseOpen) as real, n);
      AlongMonotone(c.openRad,
                    Clamp((p - c.pulseOpen) as real / n, 0.0, 1.0), Clamp((q - c.pulseOpen) as real / n, 0.0, 1.0),
                    c.closedRad - c.openRad);
    }
  }

  /** The conversion is the straight line through the two ends of the stroke: inside it angle and
      pulse have come the same part of the way, and outside it stops at the nearer end. */
  lemma PulseToRadIsLinear(pulse: int, c: Calibration)
    requires Usable(c)
    ensures pulse <= c.pulseOpen ==> PulseToRad(pulse, c) == c.openRad
    ensures pulse >= c.pulseClosed ==> PulseToRad(pulse, c) == c.closedRad
    ensures c.pulseOpen <= pulse <= c.pulseClosed ==>
              (PulseToRad(pulse, c) - c.openRad) * (c.pulseClosed - c.pulseOpen) as real
              == (pulse - c.pulseOpen) as real * (c.closedRad - c.openRad)
  {
    var x, n, s := (pulse - c.pulseOpen) as real, (c.pulseClosed - c.pulseOpen) as real, c.closedRad - c.openRad;
    Quotient(x, n);
    if c.pulseOpen <= pulse <= c.pulseClosed {
      QuotientInUnit(x, n);
      assert (PulseToRad(pulse, c) - c.openRad) * n == x / n * s * n == x / n * n * s;
    } else if pulse < c.pulseOpen {
      QuotientMonotone(x, 0.0, n);
    } else {
      QuotientMonotone(n, x, n);
    }
    if pulse == c.pulseClosed {
      assert x / n == 1.0;
    }
  }

  /** And the pulse is the nearest to the angle's place on that line. */
  lemma RadToPulseIsNearest(angle: real, c: Calibration)
    requires Usable(c)
    ensures angle <= c.openRad ==> RadToPulse(angle, c) == c.pulseOpen
    ensures angle >= c.closedRad ==> RadToPulse(angle, c) == c.pulseClosed
    ensures c.openRad <= angle <= c.closedRad ==>
              IsNearestTo((RadToPulse(angle, c) - c.pulseOpen) as real, angle - c.openRad,
                          (c.pulseClosed - c.pulseOpen) as real, c.closedRad - c.openRad)
  {
    if angle <= c.openRad || angle >= c.closedRad {
      PulseAtEnds(angle, c);
    }
    if c.openRad <= angle <= c.closedRad {
      PulseInside(angle, c);
    }
    hide RadToPulse;
  }

  lemma PulseAtEnds(angle: real, c: Calibration)
    requires Usable(c)
    ensures angle <= c.openRad ==> RadToPulse(angle, c) == c.pulseOpen
    ensures angle >= c.closedRad ==> RadToPulse(angle, c) == c.pulseClosed
  {
    ClosureAtEnds(angle, c);
    hide NormalizedClosure, RoundHalfEven;
    RoundOfInt(c.pulseOpen);
    RoundOfInt(c.pulseClosed);
    var n := (c.pulseClosed - c.pulseOpen) as real;
    assert Along(c.pulseOpen as real, 0.0, n) == c.pulseOpen as real;
    assert Along(c.pulseOpen as real, 1.0, n) == c.pulseClosed as real;
    hide Along;
  }

  lemma PulseInside(angle: real, c: Calibration)
    requires Usable(c) && c.openRad <= angle <= c.closedRad
    ensures IsNearestTo((RadToPulse(angle, c) - c.pulseOpen) as real, angle - c.openRad,
                        (c.pulseClosed - c.pulseOpen) as real, c.closedRad - c.openRad)
  {
    var x, n, s := angle - c.openRad, (c.pulseClosed - c.pulseOpen) as real, c.closedRad - c.openRad;
    var t := NormalizedClosure(angle, c);
    assert t * s == x by {
      QuotientInUnit(x, s);
      Quotient(x, s);
    }
    hide NormalizedClosure, RoundHalfEven, Along, Part, IsNearestTo;
    RoundedAlong(c.pulseOpen, t, n);
    NearestScales((RadToPulse(angle, c) - c.pulseOpen) as real, t, n, s);
  }

  // k of n parts against x of s parts: half a part off at most.
  predicate IsNearestTo(k: real, x: real, n: real, s: real) {
    -s <= 2.0 * (k * s - x * n) <= s
  }

  lemma ClosureAtEnds(angle: real, c: Calibration)
    requires c.openRad < c.closedRad
    ensures angle <= c.openRad ==> NormalizedClosure(angle, c) == 0.0
    ensures angle >= c.closedRad ==> NormalizedClosure(angle, c) == 1.0
  {
    var x, s := angle - c.openRad, c.closedRad - c.openRad;
    if angle <= c.openRad {
      QuotientMonotone(x, 0.0, s);
    } else if angle >= c.closedRad {
      QuotientMonotone(s, x, s);
      assert s / s == 1.0;
    }
  }

  lemma NearestScales(k: real, t: real, n: real, s: real)
    requires -0.5 <= k - Part(t, n) <= 0.5 && s >= 0.0
    ensures IsNearestTo(k, t * s, n, s)
  {
    var e := k - t * n;
    assert k * s - t * s * n == e * s;
    ScaleMonotone(-0.5, e, s);
    ScaleMonotone(e, 0.5, s);
  }
}
