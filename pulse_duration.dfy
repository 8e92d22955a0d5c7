/**
 * Durations with a unit and a register width (the PulseDuration_ns, _us, _ms
 * and _sec values): construction checks the value against the width, and a
 * duration knows its table type, its length in nanoseconds and its cycle count.
 */
module PulseDurations {
  import opened Results
  import opened BasicAppTypes
  import opened TypeConverter

  datatype PulseDuration = PulseDuration(value: int, unit: DurationUnit, width: int)

  /** The table type for a unit and width, when the table has one. */
  function DurationType(unit: DurationUnit, width: int): Option<DataType>
  {
    match unit
    case Ns =>
      if width == 8 then Some(PulseDurationNs_U8)
      else if width == 16 then Some(PulseDurationNs_U16)
      else if width == 32 then Some(PulseDurationNs_U32)
      else None
    case Us =>
      if width == 8 then Some(PulseDurationUs_U8)
      else if width == 16 then Some(PulseDurationUs_U16)
      else if width == 24 then Some(PulseDurationUs_U24)
      else None
    case Ms =>
      if width == 8 then Some(PulseDurationMs_U8)
      else if width == 16 then Some(PulseDurationMs_U16)
      else None
    case S =>
      if width == 8 then Some(PulseDurationS_U8)
      else if width == 16 then Some(PulseDurationS_U16)
      else None
  }

  /** A duration the constructor accepts: a supported width and a count that fits it. */
  predicate Valid(d: PulseDuration)
  {
    && DurationType(d.unit, d.width).Some?
    && 0 <= d.value <= Metadata(DurationType(d.unit, d.width).value).maxValue
  }

  /** Construction: an unsupported width, a negative count or one above the width's maximum fails. */
  function NewPulseDuration(value: int, unit: DurationUnit, width: int): (r: Result<PulseDuration, ConvError>)
    ensures r.Ok? <==> Valid(PulseDuration(value, unit, width))
    ensures r.Ok? ==> r.value == PulseDuration(value, unit, width)
    ensures DurationType(unit, width).None? ==> r == Err(InvalidWidth(width))
    ensures DurationType(unit, width).Some? ==>
      var m := Metadata(DurationType(unit, width).value);
      (value < 0 || value > m.maxValue) ==> r == Err(OutOfRange(value, 0, m.maxValue))
  {
    match DurationType(unit, width)
    case None => Err(InvalidWidth(width))
    case Some(t) =>
      var max := Metadata(t).maxValue;
      if value < 0 || value > max then Err(OutOfRange(value, 0, max))
      else Ok(PulseDuration(value, unit, width))
  }

  /** The table type of a valid duration: a duration type with this unit and width. */
  function ToBasicType(d: PulseDuration): (t: DataType)
    requires Valid(d)
    ensures Metadata(t).category == Duration
    ensures Metadata(t).unit == Time(d.unit)
    ensures Metadata(t).bitWidth == d.width
    ensures Metadata(t).minValue <= d.value <= Metadata(t).maxValue
  {
    DurationType(d.unit, d.width).value
  }

  /** Every duration type is reached from its own unit and width, so the map is a bijection. */
  lemma {:induction false} DurationTypeInverse(t: DataType)
    requires Metadata(t).category == Duration
    ensures DurationType(Metadata(t).unit.duration, Metadata(t).bitWidth) == Some(t)
  {
  }

  /** The duration's length in nanoseconds. */
  function ToNanoseconds(d: PulseDuration): (ns: int)
    requires Valid(d)
    ensures ns >= 0
    ensures ns * PsPerNs == d.value * PsPerUnit(d.unit)
  {
    d.value * NsPerUnit(d.unit)
  }

  lemma {:induction false} UnitNameParses(u: DurationUnit)
    ensures ParseUnit(UnitName(u)) == Some(u)
  {
  }

  /** Cycles for the duration: its own unit is always recognised, so only EXACT can fail, and it fails exactly when the period does not divide the duration; ROUND_DOWN and ROUND_UP give the floor and the ceiling. */
  function ToCycles(d: PulseDuration, clockPeriodPs: int, rounding: Rounding): (r: Result<int, ConvError>)
    requires Valid(d) && clockPeriodPs > 0
    ensures r.Err? ==> rounding == Exact && r.error.NonDivisible?
    ensures rounding == Exact ==> (r.Ok? <==> (ToNanoseconds(d) * PsPerNs) % clockPeriodPs == 0)
    ensures r.Ok? && rounding == Exact ==> r.value * clockPeriodPs == ToNanoseconds(d) * PsPerNs
    ensures rounding == RoundDown ==>
      r.Ok? && r.value * clockPeriodPs <= ToNanoseconds(d) * PsPerNs < (r.value + 1) * clockPeriodPs
    ensures rounding == RoundUp ==>
      r.Ok? && (r.value - 1) * clockPeriodPs < ToNanoseconds(d) * PsPerNs <= r.value * clockPeriodPs
  {
    UnitNameParses(d.unit);
    TimeToCycles(d.value, UnitName(d.unit), clockPeriodPs, rounding)
  }

  /** The constructions and conversions the Python test suite pins down (8 ns = 8000 ps). */
  lemma {:induction false} PulseDurationExamples()
    ensures NewPulseDuration(500, Ns, 16) == Ok(PulseDuration(500, Ns, 16))
    ensures NewPulseDuration(500, Ns, 8) == Err(OutOfRange(500, 0, 255))
    ensures NewPulseDuration(-100, Ns, 16).Err?
    ensures ToBasicType(PulseDuration(128, Ns, 8)) == PulseDurationNs_U8
    ensures ToBasicType(PulseDuration(500, Ns, 16)) == PulseDurationNs_U16
    ensures ToBasicType(PulseDuration(10000, Ns, 32)) == PulseDurationNs_U32
    ensures ToCycles(PulseDuration(800, Ns, 16), 8000, Exact) == Ok(100)
    ensures ToCycles(PulseDuration(500, Ns, 16), 8000, Exact).Err?
    ensures ToCycles(PulseDuration(500, Ns, 16), 8000, RoundUp) == Ok(63)
    ensures ToCycles(PulseDuration(500, Ns, 16), 8000, RoundDown) == Ok(62)
    ensures ToNanoseconds(PulseDuration(100, Us, 16)) == 100_000
    ensures ToCycles(PulseDuration(100, Us, 16), 8000, Exact) == Ok(12500)
    ensures ToNanoseconds(PulseDuration(100, Ms, 16)) == 100_000_000
    ensures ToCycles(PulseDuration(100, Ms, 16), 8000, Exact) == Ok(12_500_000)
    ensures ToCycles(PulseDuration(1000, Ns, 16), 200, Exact) == Ok(5000)
  {
  }
}
