/**
 * The static type table: every data type an application may place in a
 * control register, with its bit width, category, unit, raw encoding,
 * value range and default value.
 */
module BasicAppTypes {

  /** The 23 supported type identifiers: 12 voltage types, 10 duration types and one flag. */
  datatype DataType =
    | VoltageOutput05V_S8 | VoltageOutput05V_S16 | VoltageOutput05V_U7 | VoltageOutput05V_U15
    | VoltageInput20V_S8 | VoltageInput20V_S16 | VoltageInput20V_U7 | VoltageInput20V_U15
    | VoltageInput25V_S8 | VoltageInput25V_S16 | VoltageInput25V_U7 | VoltageInput25V_U15
    | PulseDurationNs_U8 | PulseDurationNs_U16 | PulseDurationNs_U32
    | PulseDurationUs_U8 | PulseDurationUs_U16 | PulseDurationUs_U24
    | PulseDurationMs_U8 | PulseDurationMs_U16
    | PulseDurationS_U8 | PulseDurationS_U16
    | Boolean

  datatype Category = VoltageOutput | VoltageInput | Duration | BooleanFlag

  datatype DurationUnit = Ns | Us | Ms | S

  datatype Unit = MilliVolts | Time(duration: DurationUnit) | NoUnit

  /** How the raw register bits are read: a single logic bit, two's complement, or unsigned. */
  datatype Encoding = StdLogic | Signed | Unsigned

  datatype Value = BoolValue(b: bool) | IntValue(i: int)

  /** One frozen table entry; `minValue`..`maxValue` is the range in engineering units. */
  datatype TypeMetadata = TypeMetadata(
    bitWidth: nat,
    category: Category,
    unit: Unit,
    encoding: Encoding,
    minValue: int,
    maxValue: int,
    defaultValue: Value)

  const RegisterWidth: nat := 32

  function Pow2(n: nat): (p: nat)
    ensures p >= 1
  {
    if n == 0 then 1 else 2 * Pow2(n - 1)
  }

  /** A voltage entry: signed types span -fullScale..fullScale, unsigned ones 0..fullScale. */
  function VoltageEntry(category: Category, fullScale: nat, encoding: Encoding, width: nat): TypeMetadata
  {
    TypeMetadata(width, category, MilliVolts, encoding,
                 if encoding == Signed then -(fullScale as int) else 0, fullScale, IntValue(0))
  }

  /** A duration entry: an unsigned count of `unit` that fills `width` bits. */
  function DurationEntry(unit: DurationUnit, width: nat, maxCount: nat): TypeMetadata
  {
    TypeMetadata(width, Duration, Time(unit), Unsigned, 0, maxCount, IntValue(0))
  }

  function Metadata(t: DataType): TypeMetadata
  {
    match t
    case VoltageOutput05V_S8  => VoltageEntry(VoltageOutput, 5000, Signed, 8)
    case VoltageOutput05V_S16 => VoltageEntry(VoltageOutput, 5000, Signed, 16)
    case VoltageOutput05V_U7  => VoltageEntry(VoltageOutput, 5000, Unsigned, 7)
    case VoltageOutput05V_U15 => VoltageEntry(VoltageOutput, 5000, Unsigned, 15)
    case VoltageInput20V_S8   => VoltageEntry(VoltageInput, 20000, Signed, 8)
    case VoltageInput20V_S16  => VoltageEntry(VoltageInput, 20000, Signed, 16)
    case VoltageInput20V_U7   => VoltageEntry(VoltageInput, 20000, Unsigned, 7)
    case VoltageInput20V_U15  => VoltageEntry(VoltageInput, 20000, Unsigned, 15)
    case VoltageInput25V_S8   => VoltageEntry(VoltageInput, 25000, Signed, 8)
    case VoltageInput25V_S16  => VoltageEntry(VoltageInput, 25000, Signed, 16)
    case VoltageInput25V_U7   => VoltageEntry(VoltageInput, 25000, Unsigned, 7)
    case VoltageInput25V_U15  => VoltageEntry(VoltageInput, 25000, Unsigned, 15)
    case PulseDurationNs_U8   => DurationEntry(Ns, 8, 255)
    case PulseDurationNs_U16  => DurationEntry(Ns, 16, 65535)
    case PulseDurationNs_U32  => DurationEntry(Ns, 32, 4294967295)
    case PulseDurationUs_U8   => DurationEntry(Us, 8, 255)
    case PulseDurationUs_U16  => DurationEntry(Us, 16, 65535)
    case PulseDurationUs_U24  => DurationEntry(Us, 24, 16777215)
    case PulseDurationMs_U8   => DurationEntry(Ms, 8, 255)
    case PulseDurationMs_U16  => DurationEntry(Ms, 16, 65535)
    case PulseDurationS_U8    => DurationEntry(S, 8, 255)
    case PulseDurationS_U16   => DurationEntry(S, 16, 65535)
    case Boolean              => TypeMetadata(1, BooleanFlag, NoUnit, StdLogic, 0, 1, BoolValue(false))
  }

  /** The number of register bits a value of type `t` occupies. */
  function BitWidth(t: DataType): (w: nat)
    ensures 1 <= w <= RegisterWidth
    ensures w == Metadata(t).bitWidth
  {
    Metadata(t).bitWidth
  }

  /** Every identifier, each once; the registry is keyed by exactly these. */
  const AllTypes: seq<DataType> := [
    VoltageOutput05V_S8, VoltageOutput05V_S16, VoltageOutput05V_U7, VoltageOutput05V_U15,
    VoltageInput20V_S8, VoltageInput20V_S16, VoltageInput20V_U7, VoltageInput20V_U15,
    VoltageInput25V_S8, VoltageInput25V_S16, VoltageInput25V_U7, VoltageInput25V_U15,
    PulseDurationNs_U8, PulseDurationNs_U16, PulseDurationNs_U32,
    PulseDurationUs_U8, PulseDurationUs_U16, PulseDurationUs_U24,
    PulseDurationMs_U8, PulseDurationMs_U16,
    PulseDurationS_U8, PulseDurationS_U16,
    Boolean]

  const TypeRegistry: map<DataType, TypeMetadata> := map t | t in AllTypes :: Metadata(t)

  predicate Distinct<T(==)>(s: seq<T>)
  {
    forall i, j :: 0 <= i < j < |s| ==> s[i] != s[j]
  }

  lemma {:induction false} DistinctCardinality<T>(s: seq<T>)
    requires Distinct(s)
    ensures |set x | x in s| == |s|
  {
    if s != [] {
      var tail := s[1..];
      DistinctCardinality(tail);
      assert (set x | x in s) == {s[0]} + (set x | x in tail);
      assert s[0] !in (set x | x in tail);
    }
  }

  /** The position of `t` in `AllTypes`. */
  function Position(t: DataType): nat
  {
    match t
    case VoltageOutput05V_S8 => 0  case VoltageOutput05V_S16 => 1
    case VoltageOutput05V_U7 => 2  case VoltageOutput05V_U15 => 3
    case VoltageInput20V_S8 => 4   case VoltageInput20V_S16 => 5
    case VoltageInput20V_U7 => 6   case VoltageInput20V_U15 => 7
    case VoltageInput25V_S8 => 8   case VoltageInput25V_S16 => 9
    case VoltageInput25V_U7 => 10  case VoltageInput25V_U15 => 11
    case PulseDurationNs_U8 => 12  case PulseDurationNs_U16 => 13  case PulseDurationNs_U32 => 14
    case PulseDurationUs_U8 => 15  case PulseDurationUs_U16 => 16  case PulseDurationUs_U24 => 17
    case PulseDurationMs_U8 => 18  case PulseDurationMs_U16 => 19
    case PulseDurationS_U8 => 20   case PulseDurationS_U16 => 21
    case Boolean => 22
  }

  lemma {:induction false} AllTypesIndexed()
    ensures |AllTypes| == 23
    ensures forall t :: Position(t) < |AllTypes| && AllTypes[Position(t)] == t
    ensures forall i :: 0 <= i < |AllTypes| ==> Position(AllTypes[i]) == i
  {
  }

  lemma {:induction false} AllTypesDistinct()
    ensures forall t :: t in AllTypes
    ensures Distinct(AllTypes)
  {
    AllTypesIndexed();
    forall t ensures t in AllTypes {
      assert AllTypes[Position(t)] == t;
    }
    forall i, j | 0 <= i < j < |AllTypes| ensures AllTypes[i] != AllTypes[j] {
      assert Position(AllTypes[i]) == i && Position(AllTypes[j]) == j;
    }
  }

  /** Every identifier has an entry, every width is positive, and the table has 23 entries. */
  lemma {:induction false} RegistryComplete()
    ensures forall t :: t in TypeRegistry && TypeRegistry[t] == Metadata(t)
    ensures forall t :: t in TypeRegistry ==> 0 < TypeRegistry[t].bitWidth <= RegisterWidth
    ensures |AllTypes| == 23 && Distinct(AllTypes)
    ensures |TypeRegistry| == 23
  {
    AllTypesIndexed();
    AllTypesDistinct();
    DistinctCardinality(AllTypes);
    RegistryKeys();
    assert |TypeRegistry| == |TypeRegistry.Keys|;
    forall t | t in TypeRegistry ensures 0 < TypeRegistry[t].bitWidth <= RegisterWidth {
      assert TypeRegistry[t].bitWidth == BitWidth(t);
    }
  }

  lemma {:induction false} RegistryKeys()
    ensures TypeRegistry.Keys == set t | t in AllTypes
  {
    forall t ensures t in TypeRegistry.Keys <==> t in AllTypes {
    }
  }

  /** The flag type is one logic bit whose default is false. */
  lemma {:induction false} BooleanEntry()
    ensures Metadata(Boolean).bitWidth == 1
    ensures Metadata(Boolean).encoding == StdLogic
    ensures Metadata(Boolean).defaultValue == BoolValue(false)
  {
  }

  /** Voltage types are in millivolts, and each duration type is in the time unit its name carries. */
  lemma {:induction false} UnitsByCategory(t: DataType)
    ensures Metadata(t).category in {VoltageOutput, VoltageInput} <==> Metadata(t).unit == MilliVolts
    ensures Metadata(t).category == Duration <==> Metadata(t).unit.Time?
    ensures Metadata(t).unit == Time(Ns) <==> t in {PulseDurationNs_U8, PulseDurationNs_U16, PulseDurationNs_U32}
    ensures Metadata(t).unit == Time(Us) <==> t in {PulseDurationUs_U8, PulseDurationUs_U16, PulseDurationUs_U24}
    ensures Metadata(t).unit == Time(Ms) <==> t in {PulseDurationMs_U8, PulseDurationMs_U16}
    ensures Metadata(t).unit == Time(S) <==> t in {PulseDurationS_U8, PulseDurationS_U16}
    ensures Metadata(t).category == BooleanFlag <==> t == Boolean
  {
  }

  lemma {:induction false} Pow2Widths()
    ensures Pow2(8) == 256 && Pow2(16) == 65536 && Pow2(24) == 16777216 && Pow2(32) == 4294967296
    ensures Pow2(6) == 64 && Pow2(7) == 128 && Pow2(14) == 16384 && Pow2(15) == 32768
  {
    assert Pow2(4) == 16;
    assert Pow2(6) == 64;
    assert Pow2(8) == 256;
    assert Pow2(12) == 4096;
    assert Pow2(14) == 16384;
    assert Pow2(16) == 65536;
    assert Pow2(20) == 1048576;
    assert Pow2(24) == 16777216;
    assert Pow2(28) == 268435456;
  }

  /** A duration type's range is exactly what its width can hold unsigned. */
  lemma {:induction false} DurationRangeMatchesWidth(t: DataType)
    requires Metadata(t).category == Duration
    ensures Metadata(t).minValue == 0
    ensures Metadata(t).maxValue == Pow2(Metadata(t).bitWidth) - 1
  {
    Pow2Widths();
  }
}
