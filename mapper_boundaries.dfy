/**
 * The mapper at the edges of the register bank: twelve full-width timers fill
 * CR6 to CR17 exactly, a thirteenth or twenty-five 16-bit values overflow the
 * 384 bits, and alternating booleans and 32-bit timers pass the bit count yet need more
 * registers than the bank has.
 */
module MapperBoundaries {
  import opened Results
  import opened BasicAppTypes
  import opened RegisterLayout
  import opened PackingStrategies
  import opened RegisterMapper

  /** One field of type `t` per name, in the order of the names. */
  function Uniform(names: seq<string>, t: DataType): (fs: seq<Field>)
    ensures |fs| == |names|
    ensures forall i :: 0 <= i < |names| ==> fs[i] == Field(names[i], t)
  {
    seq(|names|, i requires 0 <= i < |names| => Field(names[i], t))
  }

  /** Distinct names give distinctly named fields. */
  lemma {:induction false} UniformNamesUnique(names: seq<string>, t: DataType)
    requires Distinct(names)
    ensures UniqueNames(Uniform(names, t))
  {
    var fs := Uniform(names, t);
    forall i, j | 0 <= i < j < |fs| ensures fs[i].name != fs[j].name {
      assert fs[i].name == names[i] && fs[j].name == names[j];
    }
  }

  /** Twelve 32-bit timers occupy exactly CR6 to CR17, one register each, bits 31..0, under every strategy. */
  lemma {:induction false} TwelveTimersFillBank(names: seq<string>, strategyName: string)
    requires |names| == 12 && Distinct(names)
    requires ParseStrategy(strategyName).Some?
    ensures MapResult(DefaultBank, Uniform(names, PulseDurationNs_U32), strategyName).Ok?
    ensures var ms := MapResult(DefaultBank, Uniform(names, PulseDurationNs_U32), strategyName).value;
      && |ms| == 12
      && (forall i :: 0 <= i < 12 ==> ms[i].crNumber == 6 + i && ms[i].msb == 31 && ms[i].lsb == 0)
  {
    var fs := Uniform(names, PulseDurationNs_U32);
    UniformNamesUnique(names, PulseDurationNs_U32);
    assert forall i :: 0 <= i < |fs| ==> Width(fs[i]) == RegisterWidth;
    FullWidthFieldsFit(DefaultBank, fs, strategyName);
  }

  /** A thirteenth 32-bit timer no longer fits: 416 bits are refused against 384, under any strategy name. */
  lemma {:induction false} ThirteenTimersOverflow(names: seq<string>, strategyName: string)
    requires |names| == 13 && Distinct(names)
    ensures MapResult(DefaultBank, Uniform(names, PulseDurationNs_U32), strategyName) == Err(CapacityExceeded(416, 384))
  {
    var fs := Uniform(names, PulseDurationNs_U32);
    UniformNamesUnique(names, PulseDurationNs_U32);
    assert forall i :: 0 <= i < |fs| ==> Width(fs[i]) == RegisterWidth;
    UniformWidthOverflow(DefaultBank, fs, RegisterWidth, strategyName);
  }

  /** Twenty-five 16-bit values request 400 bits and are refused against the bank's 384, under any strategy name. */
  lemma {:induction false} TwentyFiveHalvesOverflow(names: seq<string>, strategyName: string)
    requires |names| == 25 && Distinct(names)
    ensures MapResult(DefaultBank, Uniform(names, VoltageOutput05V_S16), strategyName) == Err(CapacityExceeded(400, 384))
  {
    var fs := Uniform(names, VoltageOutput05V_S16);
    UniformNamesUnique(names, VoltageOutput05V_S16);
    assert forall i :: 0 <= i < |fs| ==> Width(fs[i]) == 16;
    UniformWidthOverflow(DefaultBank, fs, 16, strategyName);
  }

  // ---------------------------------------------------------------------------
  // Bits are not registers

  /** Booleans at even positions, 32-bit timers at odd ones. */
  function Alternating(names: seq<string>): (fs: seq<Field>)
    ensures |fs| == |names|
    ensures forall i :: 0 <= i < |names| ==>
      fs[i] == Field(names[i], if i % 2 == 0 then Boolean else PulseDurationNs_U32)
  {
    seq(|names|, i requires 0 <= i < |names| => Field(names[i], if i % 2 == 0 then Boolean else PulseDurationNs_U32))
  }

  /** The alternating list requests one bit per boolean and 32 per timer. */
  lemma {:induction false} AlternatingWidths(names: seq<string>)
    ensures SumWidths(Alternating(names)) == (|names| + 1) / 2 + RegisterWidth * (|names| / 2)
    decreases |names|
  {
    if names != [] {
      var fs := Alternating(names);
      var init := names[..|names| - 1];
      var n := |names| - 1;
      assert fs[..|fs| - 1] == Alternating(init);
      AlternatingWidths(init);
      assert SumWidths(fs) == SumWidths(Alternating(init)) + Width(fs[n]);
      if n % 2 == 0 {
        assert Width(fs[n]) == 1;
        assert (n + 2) / 2 == (n + 1) / 2 + 1 && (n + 1) / 2 == n / 2;
      } else {
        assert Width(fs[n]) == RegisterWidth;
        assert (n + 2) / 2 == (n + 1) / 2 && (n + 1) / 2 == n / 2 + 1;
      }
    }
  }

  /**
   * Thirteen alternating fields request 6 * 32 + 7 = 199 of the 384 bits, so the
   * capacity check lets them through; but no boolean fits beside a 32-bit timer,
   * the layout needs CR6 to CR18, and the bank ends at CR17.
   */
  lemma {:induction false} AlternatingOverrun(names: seq<string>)
    requires |names| == 13 && Distinct(names)
    ensures SumWidths(Alternating(names)) == 199 <= Capacity(DefaultBank)
    ensures MapResultAsWritten(DefaultBank, Alternating(names), "first_fit").Ok?
    ensures LastRegister(MapResultAsWritten(DefaultBank, Alternating(names), "first_fit").value) == 18
    ensures MapResult(DefaultBank, Alternating(names), "first_fit") == Err(RegistersExhausted(18, 17))
  {
    var fs := Alternating(names);
    AlternatingWidths(names);
    forall i, j | 0 <= i < j < |fs| ensures fs[i].name != fs[j].name {
      assert fs[i].name == names[i] && fs[j].name == names[j];
    }
    forall k | 0 < k < |fs| ensures Width(fs[k - 1]) + Width(fs[k]) > RegisterWidth {
      assert k % 2 == 0 || (k - 1) % 2 == 0;
    }
    assert ParseStrategy("first_fit") == Some(FirstFit);
    CapacityCheckMissesRegisterLimit(DefaultBank, fs, "first_fit");
  }

  /** The thirteen names "a" to "m". */
  lemma ThirteenAlternatingOverrun()
    ensures MapResultAsWritten(DefaultBank, Alternating(["a", "b", "c", "d", "e", "f", "g", "h", "i", "j", "k", "l", "m"]),
                               "first_fit").Ok?
    ensures MapResult(DefaultBank, Alternating(["a", "b", "c", "d", "e", "f", "g", "h", "i", "j", "k", "l", "m"]),
                      "first_fit")
      == Err(RegistersExhausted(18, 17))
  {
    AlternatingOverrun(["a", "b", "c", "d", "e", "f", "g", "h", "i", "j", "k", "l", "m"]);
  }
}
