/**
 * Conversions between engineering units and register contents: millivolts to
 * and from fixed-point raw codes, and durations to and from clock cycles.
 * Clock periods are whole picoseconds (8 ns is 8000, 0.2 ns is 200).
 */
module TypeConverter {
  import opened Results
  import opened BasicAppTypes

  datatype ConvError =
    | OutOfRange(value: int, min: int, max: int)
    | InvalidUnit(unit: string)
    | NonDivisible(picoseconds: int, clockPeriodPs: int)
    | InvalidWidth(width: int)

  datatype Rounding = Exact | RoundUp | RoundDown

  // ---------------------------------------------------------------------------
  // Integer division as `TypeConverter` performs it

  /** Division rounding toward zero, as Python's `int()` of a quotient does. */
  function TruncDiv(a: int, b: int): int
    requires b > 0
  {
    if a >= 0 then a / b else -((-a) / b)
  }

  /** Division rounding toward minus infinity (`math.floor`). */
  function FloorDiv(a: int, b: int): (q: int)
    requires b > 0
    ensures q * b <= a < (q + 1) * b
  {
    a / b
  }

  /** Division rounding toward plus infinity (`math.ceil`). */
  function CeilDiv(a: int, b: int): (q: int)
    requires b > 0
    ensures (q - 1) * b < a <= q * b
  {
    -((-a) / b)
  }

  // ---------------------------------------------------------------------------
  // Voltage scaling

  predicate IsVoltage(t: DataType)
  {
    Metadata(t).unit == MilliVolts
  }

  /** The millivolt value that maps to the largest raw code. */
  function FullScale(t: DataType): (f: int)
    requires IsVoltage(t)
    ensures f > 0
  {
    Metadata(t).maxValue
  }

  /**
   * The largest raw code: 2^(w-1) - 1 for signed types, 2^w - 1 for unsigned.
   * Signed types use -RawMax as their most negative code, leaving -2^(w-1) unused.
   */
  function RawMax(t: DataType): (r: int)
    requires IsVoltage(t)
    ensures r > 0
  {
    var m := Metadata(t);
    Pow2Widths();
    if m.encoding == Signed then Pow2(m.bitWidth - 1) - 1 else Pow2(m.bitWidth) - 1
  }

  /** Millivolts to a raw code: the value is scaled linearly, rounding toward zero. */
  function VoltageToRaw(t: DataType, mv: int): (r: Result<int, ConvError>)
    requires IsVoltage(t)
    ensures r.Ok? <==> Metadata(t).minValue <= mv <= Metadata(t).maxValue
    ensures r.Err? ==> r.error == OutOfRange(mv, Metadata(t).minValue, Metadata(t).maxValue)
  {
    var m := Metadata(t);
    if mv < m.minValue || mv > m.maxValue then Err(OutOfRange(mv, m.minValue, m.maxValue))
    else Ok(TruncDiv(mv * RawMax(t), FullScale(t)))
  }

  /**
   * A raw code back to millivolts, rounding toward zero: a code within the raw
   * range gives a value within the full scale with the code's sign, and the
   * largest code gives exactly the full scale.
   */
  function RawToVoltage(t: DataType, raw: int): (mv: int)
    requires IsVoltage(t)
    ensures -RawMax(t) <= raw <= RawMax(t) ==>
      && -FullScale(t) <= mv <= FullScale(t)
      && (raw >= 0 ==> mv >= 0) && (raw <= 0 ==> mv <= 0)
    ensures raw == RawMax(t) ==> mv == FullScale(t)
    ensures raw == -RawMax(t) ==> mv == -FullScale(t)
  {
    if -RawMax(t) <= raw <= RawMax(t) then
      ScaledRange(raw, FullScale(t), RawMax(t));
      TruncDiv(raw * FullScale(t), RawMax(t))
    else
      TruncDiv(raw * FullScale(t), RawMax(t))
  }

  // ---------------------------------------------------------------------------
  // Durations and clock cycles

  function ParseUnit(s: string): Option<DurationUnit>
  {
    if s == "ns" then Some(Ns)
    else if s == "us" then Some(Us)
    else if s == "ms" then Some(Ms)
    else if s == "s" then Some(S)
    else None
  }

  function UnitName(u: DurationUnit): string
  {
    match u
    case Ns => "ns"
    case Us => "us"
    case Ms => "ms"
    case S => "s"
  }

  /** Nanoseconds in one `u`. */
  function NsPerUnit(u: DurationUnit): nat
  {
    match u
    case Ns => 1
    case Us => 1_000
    case Ms => 1_000_000
    case S => 1_000_000_000
  }

  const PsPerNs: nat := 1000

  /** Picoseconds in one `u`. */
  function PsPerUnit(u: DurationUnit): (p: nat)
    ensures p >= PsPerNs
  {
    NsPerUnit(u) * PsPerNs
  }

  /**
   * A duration of `value` units to clock cycles: EXACT demands that the period
   * divide the duration, ROUND_UP and ROUND_DOWN take the ceiling and the floor.
   */
  function TimeToCycles(value: int, unit: string, clockPeriodPs: int, rounding: Rounding)
    : (r: Result<int, ConvError>)
    requires clockPeriodPs > 0
    ensures ParseUnit(unit).None? <==> r == Err(InvalidUnit(unit))
    ensures ParseUnit(unit).Some? ==>
      var ps := value * PsPerUnit(ParseUnit(unit).value);
      match rounding
      case Exact =>
        && (r.Ok? <==> ps % clockPeriodPs == 0)
        && (r.Ok? ==> r.value * clockPeriodPs == ps)
        && (r.Err? ==> r.error == NonDivisible(ps, clockPeriodPs))
      case RoundDown => r.Ok? && r.value * clockPeriodPs <= ps < (r.value + 1) * clockPeriodPs
      case RoundUp => r.Ok? && (r.value - 1) * clockPeriodPs < ps <= r.value * clockPeriodPs
  {
    match ParseUnit(unit)
    case None => Err(InvalidUnit(unit))
    case Some(u) =>
      var ps := value * PsPerUnit(u);
      match rounding
      case Exact =>
        if ps % clockPeriodPs != 0 then Err(NonDivisible(ps, clockPeriodPs))
        else Ok(ps / clockPeriodPs)
      case RoundUp => Ok(CeilDiv(ps, clockPeriodPs))
      case RoundDown => Ok(FloorDiv(ps, clockPeriodPs))
  }

  /** A cycle count back to a (possibly fractional) duration in `unit`. */
  function CyclesToTime(cycles: int, unit: string, clockPeriodPs: int): (r: Result<real, ConvError>)
    requires clockPeriodPs > 0
    ensures ParseUnit(unit).None? <==> r == Err(InvalidUnit(unit))
    ensures ParseUnit(unit).Some? <==> r.Ok?
    ensures r.Ok? ==>
      r.value * (PsPerUnit(ParseUnit(unit).value) as real) == (cycles * clockPeriodPs) as real
  {
    match ParseUnit(unit)
    case None => Err(InvalidUnit(unit))
    case Some(u) => Ok((cycles * clockPeriodPs) as real / (PsPerUnit(u) as real))
  }

  // ---------------------------------------------------------------------------
  // Arithmetic facts behind the voltage lemmas, on abstract scale factors

  lemma {:induction false} MulLeft(a: int, b: int, c: int)
    requires a <= b && c >= 0
    ensures a * c <= b * c
  {
  }

  lemma {:induction false} DivAtMost(a: int, d: int, q: int)
    requires d > 0 && a <= q * d
    ensures a / d <= q
  {
    if a / d > q {
      MulLeft(q + 1, a / d, d);
    }
  }

  lemma {:induction false} DivAtLeast(a: int, d: int, q: int)
    requires d > 0 && q * d <= a
    ensures q <= a / d
  {
    if a / d < q {
      MulLeft(a / d + 1, q, d);
    }
  }

  lemma {:induction false} DivMonotone(a: int, b: int, d: int)
    requires a <= b && d > 0
    ensures a / d <= b / d
  {
    DivAtLeast(b, d, a / d);
  }

  /** Scaling a value in 0..f by r/f lands in 0..r and maps f to r exactly. */
  lemma {:induction false} ScaleBounds(v: int, r: int, f: int)
    requires 0 <= v <= f && r > 0 && f > 0
    ensures 0 <= (v * r) / f <= r
    ensures v == f ==> (v * r) / f == r
  {
    MulLeft(0, v, r);
    MulLeft(v, f, r);
    DivAtMost(v * r, f, r);
    if v == f {
      DivAtLeast(v * r, f, r);
    }
  }

  /** Euclidean division brackets its dividend. */
  lemma {:induction false} DivBrackets(a: int, d: int)
    requires d > 0
    ensures (a / d) * d <= a < (a / d) * d + d
  {
  }

  /** The bounds of a scaled round trip, stated over the two quotients. */
  lemma {:induction false} RoundTripBounds(v: int, r: int, f: int, q: int, p: int)
    requires v >= 0 && r > 0 && f > 0
    requires q * f <= v * r < q * f + f
    requires p * r <= q * f < p * r + r
    requires f / r * r <= f < f / r * r + r
    ensures 0 <= p && v - f / r - 1 <= p <= v
  {
    MulLeft(0, v, r);
    if q < 0 {
      MulLeft(q, -1, f);
    }
    if p < 0 {
      MulLeft(0, q, f);
      MulLeft(p, -1, r);
    }
    if p > v {
      MulLeft(0, q, f);
      MulLeft(v + 1, p, r);
    }
    var k := v - p - 1;
    assert k * r < f by {
      assert k * r == v * r - p * r - r;
    }
    if k > f / r {
      MulLeft(f / r + 1, k, r);
    }
  }

  /** Scaling by r/f and back by f/r loses at most f/r + 1, and never overshoots. */
  lemma {:induction false} ScaleRoundTrip(v: int, r: int, f: int)
    requires v >= 0 && r > 0 && f > 0
    ensures 0 <= ((v * r) / f * f) / r
    ensures v - f / r - 1 <= ((v * r) / f * f) / r <= v
  {
    var q := (v * r) / f;
    DivBrackets(v * r, f);
    var p := (q * f) / r;
    DivBrackets(q * f, r);
    DivBrackets(f, r);
    RoundTripBounds(v, r, f, q, p);
  }

  /** `ToRawScaled` and `FromRawScaled` are the two directions of the linear scale. */
  function ToRawScaled(mv: int, rawMax: int, fullScale: int): int
    requires fullScale > 0
  {
    TruncDiv(mv * rawMax, fullScale)
  }

  function FromRawScaled(raw: int, rawMax: int, fullScale: int): int
    requires rawMax > 0
  {
    TruncDiv(raw * fullScale, rawMax)
  }

  lemma {:induction false} ScaledRange(mv: int, rm: int, f: int)
    requires rm > 0 && f > 0 && -f <= mv <= f
    ensures -rm <= ToRawScaled(mv, rm, f) <= rm
    ensures mv >= 0 ==> ToRawScaled(mv, rm, f) >= 0
    ensures mv <= 0 ==> ToRawScaled(mv, rm, f) <= 0
    ensures mv == f ==> ToRawScaled(mv, rm, f) == rm
    ensures mv == -f ==> ToRawScaled(mv, rm, f) == -rm
  {
    if mv >= 0 {
      ScaleBounds(mv, rm, f);
    } else {
      ScaleBounds(-mv, rm, f);
      assert mv * rm == -((-mv) * rm);
    }
  }

  lemma {:induction false} ScaledRoundTrip(mv: int, rm: int, f: int)
    requires rm > 0 && f > 0
    ensures var back := FromRawScaled(ToRawScaled(mv, rm, f), rm, f);
      && (mv >= 0 ==> mv - (f / rm + 1) <= back <= mv)
      && (mv < 0 ==> mv <= back <= mv + (f / rm + 1))
  {
    if mv >= 0 {
      MulLeft(0, mv, rm);
      ScaleRoundTrip(mv, rm, f);
    } else {
      var n := -mv;
      MulLeft(0, n, rm);
      ScaleRoundTrip(n, rm, f);
      var q := (n * rm) / f;
      assert mv * rm == -(n * rm);
      assert ToRawScaled(mv, rm, f) == -q;
      MulLeft(0, q, f);
      assert (-q) * f == -(q * f);
    }
  }

  /** Truncating division keeps the order of its dividends. */
  lemma {:induction false} TruncDivMonotone(x: int, y: int, d: int)
    requires x <= y && d > 0
    ensures TruncDiv(x, d) <= TruncDiv(y, d)
  {
    if x >= 0 {
      DivMonotone(x, y, d);
    } else if y <= 0 {
      DivMonotone(-y, -x, d);
    } else {
      DivAtLeast(y, d, 0);
      DivAtLeast(-x, d, 0);
    }
  }

  lemma {:induction false} ScaledMonotone(a: int, b: int, rm: int, f: int)
    requires rm > 0 && f > 0 && a <= b
    ensures ToRawScaled(a, rm, f) <= ToRawScaled(b, rm, f)
  {
    MulLeft(a, b, rm);
    TruncDivMonotone(a * rm, b * rm, f);
  }

  // ---------------------------------------------------------------------------
  // Properties of the voltage scaling

  lemma {:induction false} VoltageScaled(t: DataType, mv: int)
    requires IsVoltage(t) && VoltageToRaw(t, mv).Ok?
    ensures VoltageToRaw(t, mv).value == ToRawScaled(mv, RawMax(t), FullScale(t))
    ensures -FullScale(t) <= mv <= FullScale(t)
    ensures forall raw :: RawToVoltage(t, raw) == FromRawScaled(raw, RawMax(t), FullScale(t))
  {
  }

  /**
   * An accepted value yields a code within the symmetric (or unsigned) raw
   * range, with the sign of the input, and the range limits map to the code limits.
   */
  lemma {:induction false} VoltageRawRange(t: DataType, mv: int)
    requires IsVoltage(t) && VoltageToRaw(t, mv).Ok?
    ensures var r := VoltageToRaw(t, mv).value;
      && -RawMax(t) <= r <= RawMax(t)
      && (mv >= 0 ==> r >= 0) && (mv <= 0 ==> r <= 0)
      && (Metadata(t).encoding == Unsigned ==> 0 <= r)
      && (mv == Metadata(t).maxValue ==> r == RawMax(t))
      && (mv == Metadata(t).minValue && Metadata(t).encoding == Signed ==> r == -RawMax(t))
  {
    VoltageScaled(t, mv);
    ScaledRange(mv, RawMax(t), FullScale(t));
  }

  /** Every accepted code fits the type's bit width in its encoding. */
  lemma {:induction false} VoltageRawFitsWidth(t: DataType, mv: int)
    requires IsVoltage(t) && VoltageToRaw(t, mv).Ok?
    ensures var r := VoltageToRaw(t, mv).value; var w := Metadata(t).bitWidth;
      if Metadata(t).encoding == Signed then -(Pow2(w - 1) as int) < r < Pow2(w - 1)
      else 0 <= r < Pow2(w)
  {
    VoltageRawRange(t, mv);
  }

  /** Converting to raw and back stays within one quantization step of the input. */
  lemma {:induction false} VoltageRoundTrip(t: DataType, mv: int)
    requires IsVoltage(t) && VoltageToRaw(t, mv).Ok?
    ensures var back := RawToVoltage(t, VoltageToRaw(t, mv).value);
            var step := FullScale(t) / RawMax(t) + 1;
      && (mv >= 0 ==> mv - step <= back <= mv)
      && (mv < 0 ==> mv <= back <= mv + step)
  {
    VoltageScaled(t, mv);
    ScaledRoundTrip(mv, RawMax(t), FullScale(t));
  }

  /** A larger voltage never yields a smaller code. */
  lemma {:induction false} VoltageMonotone(t: DataType, a: int, b: int)
    requires IsVoltage(t) && VoltageToRaw(t, a).Ok? && VoltageToRaw(t, b).Ok? && a <= b
    ensures VoltageToRaw(t, a).value <= VoltageToRaw(t, b).value
  {
    VoltageScaled(t, a);
    VoltageScaled(t, b);
    ScaledMonotone(a, b, RawMax(t), FullScale(t));
  }

  /** The values the Python test suite pins down; a nominal value comes back within 1 mV. */
  lemma {:induction false} VoltageExamples()
    ensures VoltageToRaw(VoltageOutput05V_S16, 5000) == Ok(32767)
    ensures VoltageToRaw(VoltageOutput05V_S16, -5000) == Ok(-32767)
    ensures VoltageToRaw(VoltageOutput05V_S16, 6000).Err?
    ensures VoltageToRaw(VoltageInput25V_S16, 25000) == Ok(32767)
    ensures VoltageToRaw(VoltageInput25V_S16, -25000) == Ok(-32767)
    ensures VoltageToRaw(VoltageOutput05V_U15, 0) == Ok(0)
    ensures VoltageToRaw(VoltageOutput05V_U15, 5000) == Ok(32767)
    ensures VoltageToRaw(VoltageOutput05V_U15, -1000).Err?
    ensures -32767 <= VoltageToRaw(VoltageOutput05V_S16, 2400).value <= 32767
    ensures -1 <= RawToVoltage(VoltageOutput05V_S16, VoltageToRaw(VoltageOutput05V_S16, 2400).value) - 2400 <= 0
    ensures -1 <= RawToVoltage(VoltageInput25V_S16, VoltageToRaw(VoltageInput25V_S16, 10000).value) - 10000 <= 0
    ensures 0 <= VoltageToRaw(VoltageOutput05V_U15, 2500).value <= 32767
    ensures -1 <= RawToVoltage(VoltageOutput05V_U15, VoltageToRaw(VoltageOutput05V_U15, 2500).value) - 2500 <= 0
  {
    Pow2Widths();
    VoltageRawRange(VoltageOutput05V_S16, 2400);
    VoltageRoundTrip(VoltageOutput05V_S16, 2400);
    VoltageRoundTrip(VoltageInput25V_S16, 10000);
    VoltageRawRange(VoltageOutput05V_U15, 2500);
    VoltageRoundTrip(VoltageOutput05V_U15, 2500);
  }

  // ---------------------------------------------------------------------------
  // Properties of the cycle conversion

  /** An exact conversion to cycles is undone by the conversion back. */
  lemma {:induction false} CyclesRoundTrip(value: int, unit: string, clockPeriodPs: int)
    requires clockPeriodPs > 0
    requires TimeToCycles(value, unit, clockPeriodPs, Exact).Ok?
    ensures CyclesToTime(TimeToCycles(value, unit, clockPeriodPs, Exact).value, unit, clockPeriodPs)
            == Ok(value as real)
  {
    var u := ParseUnit(unit).value;
    var c := TimeToCycles(value, unit, clockPeriodPs, Exact).value;
    assert (c * clockPeriodPs) as real == (value as real) * (PsPerUnit(u) as real);
  }

  lemma {:induction false} RealProduct(a: int, b: int)
    ensures (a * b) as real == (a as real) * (b as real)
  {
  }

  /** A whole duration obtained from a cycle count converts back to that count exactly. */
  lemma {:induction false} TimeRoundTrip(cycles: int, unit: string, clockPeriodPs: int, value: int)
    requires clockPeriodPs > 0
    requires CyclesToTime(cycles, unit, clockPeriodPs) == Ok(value as real)
    ensures TimeToCycles(value, unit, clockPeriodPs, Exact) == Ok(cycles)
  {
    var u := ParseUnit(unit).value;
    var k := PsPerUnit(u);
    var ps := value * k;
    var cp := cycles * clockPeriodPs;
    assert (value as real) * (k as real) == cp as real;
    RealProduct(value, k);
    assert ps == cp;
    ExactMultiple(cycles, clockPeriodPs);
  }

  lemma {:induction false} ExactMultiple(c: int, p: int)
    requires p > 0
    ensures (c * p) % p == 0 && (c * p) / p == c
  {
    var q := (c * p) / p;
    var r := (c * p) % p;
    assert c * p == q * p + r && 0 <= r < p;
    assert (c - q) * p == r;
    if c - q >= 1 {
      MulLeft(1, c - q, p);
    } else if c - q <= -1 {
      MulLeft(c - q, -1, p);
    }
  }

  /** ROUND_DOWN and ROUND_UP bracket the duration and differ by at most one cycle. */
  lemma {:induction false} RoundingBracket(value: int, unit: string, clockPeriodPs: int)
    requires clockPeriodPs > 0 && ParseUnit(unit).Some?
    ensures var down := TimeToCycles(value, unit, clockPeriodPs, RoundDown).value;
            var up := TimeToCycles(value, unit, clockPeriodPs, RoundUp).value;
      && down <= up <= down + 1
      && (TimeToCycles(value, unit, clockPeriodPs, Exact).Ok? <==> down == up)
      && (TimeToCycles(value, unit, clockPeriodPs, Exact).Ok? ==>
            TimeToCycles(value, unit, clockPeriodPs, Exact).value == down)
  {
    var p := clockPeriodPs;
    var ps := value * PsPerUnit(ParseUnit(unit).value);
    var down := TimeToCycles(value, unit, p, RoundDown).value;
    var up := TimeToCycles(value, unit, p, RoundUp).value;
    assert down * p <= ps < (down + 1) * p;
    assert (up - 1) * p < ps <= up * p;
    if up < down {
      MulLeft(up, down - 1, p);
    }
    if up > down + 1 {
      MulLeft(down + 1, up - 1, p);
    }
    if ps % p == 0 {
      assert ps == (ps / p) * p;
      DivAtMost(ps, p, up);
      DivAtLeast(ps, p, down);
    }
  }

  /** The conversions the Python test suite pins down, at 8 ns (8000 ps) unless stated. */
  lemma {:induction false} CycleExamples()
    ensures TimeToCycles(800, "ns", 8000, Exact) == Ok(100)
    ensures TimeToCycles(500, "ns", 8000, Exact).Err?
    ensures TimeToCycles(500, "ns", 8000, RoundUp) == Ok(63)
    ensures TimeToCycles(500, "ns", 8000, RoundDown) == Ok(62)
    ensures TimeToCycles(1000, "ns", 8000, Exact) == Ok(125)
    ensures TimeToCycles(1000, "ns", 2000, Exact) == Ok(500)
    ensures TimeToCycles(1000, "ns", 200, Exact) == Ok(5000)
    ensures TimeToCycles(100, "us", 8000, Exact) == Ok(12500)
    ensures TimeToCycles(100, "ms", 8000, Exact) == Ok(12_500_000)
    ensures TimeToCycles(100, "invalid", 8000, Exact) == Err(InvalidUnit("invalid"))
    ensures CyclesToTime(125, "ns", 8000) == Ok(1000.0)
    ensures CyclesToTime(12500, "us", 8000) == Ok(100.0)
  {
  }
}
