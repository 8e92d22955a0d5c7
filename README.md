# Register packing for Moku custom instruments, in Dafny

This project models two parts of EZ-EMFI's basic-app datatypes, and proves properties of each.

**The register mapper.** `RegisterMapper.map` takes a list of named fields, each of one of 23 basic-app data types. It does three things:
- It validates the list against a bank of twelve 32-bit control registers (CR6 to CR17, 384 bits).
- It reorders the fields by a packing strategy: `first_fit`, `best_fit` or `type_clustering`.
- It places each field in one control register, most significant bit first, without splitting it.

`generate_report` summarises a mapping. It gives the bits used, the bits available, and each register's mappings, highest slice first.

**The type and unit layer.** This layer has three parts:
- the static type table (bit width, category, unit, encoding, range and default value of each type);
- the `TypeConverter` conversions: millivolts to and from raw fixed-point codes, and durations to and from clock cycles;
- the `PulseDuration_*` values (construction checks, `to_basic_type`, `to_nanoseconds`, `to_cycles`).

The implementation modules `basic_app_datatypes.mapper` and `models.custom_inst.datatypes` are not part of this model. Their behaviour is reconstructed from the two test suites that exercise them:
- `libs/basic-app-datatypes/tests/test_mapper.py`;
- `python_tests/test_basic_app_datatypes.py`.

The examples the `MapperExamples` module and the `*Examples` lemmas pin down use the constants those tests state. Some boundary cases are the model's own and appear in no test: the thirteen-timer overflow (416 bits), the alternating boolean/timer overrun to CR18 (199 bits), and the widths of the fourteen table types the tests never name (see "## Left out"). Where no test decides a behaviour, the model follows the mapper's documented behaviour: validation checks for empty input, then duplicate names, then a field wider than a register, then the total number of bits, then the strategy name; fields are placed from the most significant bit down and are never split across registers.

Modules:

| file | module | content |
|---|---|---|
| results.dfy | `Results` | `Option` and `Result` |
| basic_app_types.dfy | `BasicAppTypes` | the 23 type identifiers and their metadata table |
| type_converter.dfy | `TypeConverter` | voltage scaling, time↔cycles conversion, rounding modes |
| pulse_duration.dfy | `PulseDurations` | `PulseDuration_ns/_us/_ms/_sec` values |
| keyed_order.dfy | `KeyedOrder` | stable descending sort by an integer key, per-key subsequences |
| register_layout.dfy | `RegisterLayout` | fields, mappings, the bank, and the MSB-first placement walk (`PackSequential`, a loop over a register number and a bit cursor) |
| packing_strategies.dfy | `PackingStrategies` | strategy names and the three reorderings |
| register_mapper.dfy | `RegisterMapper` | validation and `map` |
| mapping_report.dfy | `MappingReports` | `generate_report` (a loop building the per-register map) and efficiency |
| mapper_boundaries.dfy | `MapperBoundaries` | full-bank and overflow cases, and the register-limit finding |
| mapper_examples.dfy | `MapperExamples` | the concrete field lists of the mapper's test suite and the DS1140_PD list |

Placement is written twice:
- `PackSequential` is a method with a loop, as the mapper performs it.
- `Pack` is a recursive function over a cursor.

The method is proved equal to the function. Every property of layouts is proved about the function and about the predicate `MsbFirstLayout`. `MsbFirstIsPack` shows that the predicate admits exactly one layout. The same pairing is used for the report: the method `GenerateReport` is proved equal to the function `Report`.

Clock periods are whole picoseconds, so 8 ns is 8000 and 0.2 ns is 200. All cycle arithmetic is therefore exact integer arithmetic. Voltage scaling is `trunc(mV * rawMax / fullScale)`, where `rawMax` is 2^(w-1)-1 for signed types and 2^w-1 for unsigned ones. This keeps a 16-bit signed code symmetric at ±32767 and leaves -32768 unused.

## Model

| member | source | states |
|---|---|---|
| BasicAppTypes.BitWidth | python_tests/test_basic_app_datatypes.py:30-37 | every type's width is its table entry's width and lies between 1 and 32 bits |
| BasicAppTypes.RegistryComplete | python_tests/test_basic_app_datatypes.py:30-53 | every identifier has its entry in the registry, every width is positive and at most 32, and the table has exactly 23 entries over 23 distinct identifiers |
| BasicAppTypes.AllTypesDistinct | python_tests/test_basic_app_datatypes.py:50-53 | the list of identifiers holds every identifier, each once |
| BasicAppTypes.BooleanEntry | python_tests/test_basic_app_datatypes.py:217-223 | BOOLEAN is one std_logic bit whose default is false |
| BasicAppTypes.UnitsByCategory | python_tests/test_basic_app_datatypes.py:270-292 | a type is a voltage exactly when its unit is mV, a duration exactly when its unit is a time unit, and a flag exactly when it is BOOLEAN; the unit is ns exactly for the PULSE_DURATION_NS types, us exactly for the US types, ms exactly for the MS types and s exactly for the S types |
| BasicAppTypes.DurationRangeMatchesWidth | python_tests/test_basic_app_datatypes.py:112-126 | a duration type ranges over exactly 0 .. 2^width - 1, so 255 for 8 bits |
| TypeConverter.VoltageToRaw | python_tests/test_basic_app_datatypes.py:60-105 | succeeds exactly for values within the type's range; otherwise OutOfRange with the value and both bounds |
| TypeConverter.VoltageRawRange | python_tests/test_basic_app_datatypes.py:60-105 | an accepted value gives a code within ±rawMax with the input's sign, never negative for unsigned types; the range limits give exactly +rawMax and -rawMax |
| TypeConverter.VoltageRawFitsWidth | python_tests/test_basic_app_datatypes.py:60-105 | every accepted code is representable in the type's width: signed in (-2^(w-1), 2^(w-1)), unsigned in [0, 2^w) |
| TypeConverter.RawToVoltage | python_tests/test_basic_app_datatypes.py:60-97 | a raw code within ±rawMax gives millivolts within ±fullScale with the code's sign; ±rawMax gives exactly ±fullScale |
| TypeConverter.VoltageRoundTrip | python_tests/test_basic_app_datatypes.py:60-97 | to raw and back stays within one quantization step (fullScale / rawMax + 1 mV) of the input, on the side toward zero |
| TypeConverter.VoltageMonotone | python_tests/test_basic_app_datatypes.py:60-88 | a larger voltage never gives a smaller code |
| TypeConverter.ScaledRoundTrip | python_tests/test_basic_app_datatypes.py:60-97 | for any positive scale factors, truncating scale-down after truncating scale-up loses at most one step, toward zero |
| TypeConverter.VoltageExamples | python_tests/test_basic_app_datatypes.py:60-105 | ±5000 mV give ±32767 (S16), ±25000 mV give ±32767 (25 V S16), 0 and 5000 give 0 and 32767 (U15); 6000 and -1000 are rejected; the nominal values 2400, 10000 and 2500 come back within 1 mV |
| TypeConverter.FloorDiv | python_tests/test_basic_app_datatypes.py:151-153 | the quotient q brackets the dividend: q·b ≤ a < (q+1)·b |
| TypeConverter.CeilDiv | python_tests/test_basic_app_datatypes.py:147-149 | the quotient q brackets the dividend: (q-1)·b < a ≤ q·b |
| TypeConverter.TimeToCycles | python_tests/test_basic_app_datatypes.py:230-248 | an unknown unit gives InvalidUnit; EXACT succeeds exactly when the period divides the duration, with count·period = duration, else NonDivisible; ROUND_DOWN and ROUND_UP give the floor and the ceiling |
| TypeConverter.CyclesToTime | python_tests/test_basic_app_datatypes.py:251-263 | an unknown unit gives InvalidUnit, and a recognised unit always succeeds; the result times the unit's length equals cycles × period |
| TypeConverter.CyclesRoundTrip | python_tests/test_basic_app_datatypes.py:230-263 | an exact conversion to cycles is undone exactly by the conversion back |
| TypeConverter.TimeRoundTrip | python_tests/test_basic_app_datatypes.py:230-263 | a whole duration obtained from a cycle count converts back to that count exactly |
| TypeConverter.RoundingBracket | python_tests/test_basic_app_datatypes.py:129-153 | ROUND_DOWN ≤ ROUND_UP ≤ ROUND_DOWN + 1; they agree exactly when EXACT succeeds, and then EXACT gives the same count |
| TypeConverter.CycleExamples | python_tests/test_basic_app_datatypes.py:129-263 | the suite's conversions: 800 ns → 100 and 1000 ns → 125 cycles at 8 ns, 500 cycles at 2 ns, 5000 at 0.2 ns; 500 ns → EXACT fails, 63 up, 62 down; 100 us → 12500; 100 ms → 12 500 000; "invalid" rejected; 125 cycles → 1000 ns; 12500 cycles → 100 us |
| PulseDurations.NewPulseDuration | python_tests/test_basic_app_datatypes.py:112-126 | succeeds exactly for a supported width and a count in 0 .. the width's maximum, keeping value, unit and width; otherwise InvalidWidth or OutOfRange with the bounds |
| PulseDurations.ToBasicType | python_tests/test_basic_app_datatypes.py:156-165 | the type of a valid duration is a duration type with the duration's unit and width whose range holds its value |
| PulseDurations.DurationTypeInverse | python_tests/test_basic_app_datatypes.py:156-165 | every duration type is the one found for its own unit and width, so the mapping from types to (unit, width) is one-to-one |
| PulseDurations.ToNanoseconds | python_tests/test_basic_app_datatypes.py:168-189 | the length in nanoseconds is non-negative and equals value × the unit's length |
| PulseDurations.ToCycles | python_tests/test_basic_app_datatypes.py:129-210 | only EXACT can fail, and only with NonDivisible; EXACT succeeds exactly when the clock period divides the duration; an exact count times the period equals the duration; ROUND_DOWN gives the largest count whose time does not exceed the duration, ROUND_UP the smallest whose time reaches it |
| PulseDurations.PulseDurationExamples | python_tests/test_basic_app_datatypes.py:112-210 | the suite's constructions (500 ns at 16 bits; 500 at 8 bits and -100 rejected), types NS_U8/U16/U32, and cycle counts 100, 63, 62, 12500, 12 500 000 and 5000 |
| KeyedOrder.SortPermutes | libs/basic-app-datatypes/tests/test_mapper.py:175-210 | the stable sort is a permutation of its input |
| KeyedOrder.SortDescending | libs/basic-app-datatypes/tests/test_mapper.py:175-210 | the sort's keys never increase |
| KeyedOrder.SortStable | libs/basic-app-datatypes/tests/test_mapper.py:191-210 | the sort keeps each key's elements in their input order |
| KeyedOrder.SortCharacterization | libs/basic-app-datatypes/tests/test_mapper.py:175-210 | any descending order that keeps each key's elements in input order equals the sort |
| RegisterLayout.PackSequential | libs/basic-app-datatypes/tests/test_mapper.py:99-169 | the placement loop's result is the layout function's and satisfies the MSB-first rules: first field at the top of the base register, each next one right below the last or at bit 31 of the next register |
| RegisterLayout.PackIsMsbFirst | libs/basic-app-datatypes/tests/test_mapper.py:99-169 | the layout function obeys the MSB-first rules and carries each field's name, type and width, in input order |
| RegisterLayout.MsbFirstIsPack | libs/basic-app-datatypes/tests/test_mapper.py:99-169 | the MSB-first rules admit exactly one layout |
| RegisterLayout.LayoutProperties | libs/basic-app-datatypes/tests/test_mapper.py:99-169 | every slice lies within bits 31..0 of a register from the base on; slices come in strictly descending (register, bit) order; no two slices of a register overlap |
| RegisterLayout.RegistersContiguous | libs/basic-app-datatypes/tests/test_mapper.py:117-134 | a layout uses every register from the base up to its last one |
| RegisterLayout.Conservation | libs/basic-app-datatypes/tests/test_mapper.py:277-280 | the slices of a layout cover exactly as many bits as its fields request |
| RegisterLayout.SumWidthsPermutation | libs/basic-app-datatypes/tests/test_mapper.py:383-401 | reordering fields does not change the bits they request |
| RegisterLayout.FullWidthFields | libs/basic-app-datatypes/tests/test_mapper.py:418-430 | 32-bit fields each fill bits 31..0 of consecutive registers from the base |
| RegisterLayout.OwnRegisters | libs/basic-app-datatypes/tests/test_mapper.py:418-430 | when no two neighbouring fields fit together, field i starts register base + i at bit 31 |
| RegisterLayout.CarriesRequests | libs/basic-app-datatypes/tests/test_mapper.py:99-115 | a layout that carries a field list holds exactly those requests, in order |
| RegisterLayout.PlacementDependsOnWidths | libs/basic-app-datatypes/tests/test_mapper.py:383-401 | where fields land depends only on their widths |
| PackingStrategies.ParseStrategy | libs/basic-app-datatypes/tests/test_mapper.py:87-93 | exactly the three names are recognised, each giving the strategy named so |
| PackingStrategies.StrategyNameParses | libs/basic-app-datatypes/tests/test_mapper.py:87-93 | every strategy's name parses back to it |
| PackingStrategies.BestFitOrder | libs/basic-app-datatypes/tests/test_mapper.py:175-210 | best_fit's order is a permutation with non-increasing widths that keeps equal widths in input order |
| PackingStrategies.BestFitUnique | libs/basic-app-datatypes/tests/test_mapper.py:175-210 | no other order has these two properties |
| PackingStrategies.BestFitOrderIndependent | libs/basic-app-datatypes/tests/test_mapper.py:383-401 | any two permutations of the same fields fill the same slices under best_fit; with equal-width fields in the same relative order the layouts are identical |
| PackingStrategies.ClusterIsSort | libs/basic-app-datatypes/tests/test_mapper.py:216-240 | type_clustering's order is the stable sort by group precedence |
| PackingStrategies.ClusterProperties | libs/basic-app-datatypes/tests/test_mapper.py:216-240 | type_clustering keeps every field and each category's input order; it puts voltage outputs before inputs before durations before booleans, each category in one run, booleans last |
| PackingStrategies.PrecedenceOrderGroups | libs/basic-app-datatypes/tests/test_mapper.py:216-240 | any order by non-increasing precedence keeps each category contiguous and booleans last |
| PackingStrategies.OrderIsPermutation | libs/basic-app-datatypes/tests/test_mapper.py:175-240 | every strategy only reorders the fields |
| RegisterMapper.FindDuplicate | libs/basic-app-datatypes/tests/test_mapper.py:56-64 | finds nothing exactly when names are unique, and otherwise a name that occurs at two positions |
| RegisterMapper.FindTooWide | libs/basic-app-datatypes/tests/test_mapper.py:76-85 | finds nothing exactly when every field fits 32 bits, and otherwise a member wider than that |
| RegisterMapper.NoFieldTooWide | libs/basic-app-datatypes/tests/test_mapper.py:76-85 | every table type fits one register, so the width check never rejects |
| RegisterMapper.Map | libs/basic-app-datatypes/tests/test_mapper.py:50-93 | the method returns the mapping the checks and the strategy define, register limit included |
| RegisterMapper.MapErrors | libs/basic-app-datatypes/tests/test_mapper.py:50-93 | in check order: empty input gives `[]`; repeated names give DuplicateNames with a repeated name; more than capacity gives CapacityExceeded(requested, available); an unknown name gives UnknownStrategy |
| RegisterMapper.MapAccepts | libs/basic-app-datatypes/tests/test_mapper.py:50-93 | success exactly when the input is empty, or names are unique, the bits fit, the strategy is known and the layout ends inside the bank |
| RegisterMapper.Accepted | libs/basic-app-datatypes/tests/test_mapper.py:50-93 | input passing every check is packed in the parsed strategy's order |
| RegisterMapper.MapSuccess | libs/basic-app-datatypes/tests/test_mapper.py:99-445 | a successful mapping holds each requested field once, in a slice as wide as its type, within bits 31..0 of a bank register; slices of a register do not overlap; used bits = requested bits ≤ capacity |
| RegisterMapper.FirstFitKeepsOrder | libs/basic-app-datatypes/tests/test_mapper.py:99-169 | first_fit places the fields in the order given |
| RegisterMapper.BestFitMapping | libs/basic-app-datatypes/tests/test_mapper.py:175-210 | best_fit places the fields in best_fit's order, slice widths non-increasing |
| RegisterMapper.UniqueNamesPermutation | libs/basic-app-datatypes/tests/test_mapper.py:383-401 | distinct names stay distinct under any reordering |
| RegisterMapper.BestFitAcceptsPermutations | libs/basic-app-datatypes/tests/test_mapper.py:383-401 | best_fit accepts or rejects permutations of the same fields alike |
| RegisterMapper.BestFitMapOrderIndependent | libs/basic-app-datatypes/tests/test_mapper.py:369-401 | when best_fit maps one input, it maps every permutation into the same slices, and identically when equal-width fields keep their relative order |
| RegisterMapper.ClusteringMapping | libs/basic-app-datatypes/tests/test_mapper.py:216-240 | type_clustering places the fields in precedence order, categories contiguous, booleans last |
| RegisterMapper.FullWidthFieldsFit | libs/basic-app-datatypes/tests/test_mapper.py:418-430 | up to one 32-bit field per register succeeds under every strategy; field i fills bits 31..0 of register base + i |
| RegisterMapper.UniformWidthOverflow | libs/basic-app-datatypes/tests/test_mapper.py:66-74 | fields of one width that exceed the bank give CapacityExceeded(n·w, capacity) under any strategy name |
| RegisterMapper.MapResultAsWritten | libs/basic-app-datatypes/tests/test_mapper.py:50-93 | the mapper's checks as they stand: non-empty input is accepted exactly when the names are unique, the total width is within the capacity and the strategy is known; accepted input is packed in the strategy's order, with no check against the bank's last register |
| RegisterMapper.CorrectionOnlyAddsExhaustion | libs/basic-app-datatypes/tests/test_mapper.py:66-74 | the register-limit check changes the as-written result only for layouts that end past the last register |
| RegisterMapper.FirstFitAccepted | libs/basic-app-datatypes/tests/test_mapper.py:99-115 | as written, accepted input under first_fit is packed in the order given |
| RegisterMapper.CapacityCheckMissesRegisterLimit | libs/basic-app-datatypes/tests/test_mapper.py:66-74 | with more fields than registers, no two of them fitting side by side, the as-written checks accept and the layout ends past the bank; the corrected map gives RegistersExhausted |
| MapperBoundaries.TwelveTimersFillBank | libs/basic-app-datatypes/tests/test_mapper.py:418-430 | twelve 32-bit timers occupy CR6 to CR17, one each, bits 31..0, under every strategy |
| MapperBoundaries.ThirteenTimersOverflow | libs/basic-app-datatypes/tests/test_mapper.py:66-74 | a thirteenth 32-bit timer is refused: CapacityExceeded(416, 384) |
| MapperBoundaries.TwentyFiveHalvesOverflow | libs/basic-app-datatypes/tests/test_mapper.py:66-74 | twenty-five 16-bit values are refused: CapacityExceeded(400, 384) |
| MapperBoundaries.AlternatingOverrun | libs/basic-app-datatypes/tests/test_mapper.py:66-74 | thirteen alternating BOOLEAN / 32-bit fields request 199 bits, pass the as-written checks, and need CR18; the corrected map gives RegistersExhausted(18, 17) |
| MapperBoundaries.ThirteenAlternatingOverrun | libs/basic-app-datatypes/tests/test_mapper.py:66-74 | the same for the names "a" to "m" |
| MapperExamples.EmptyInput | libs/basic-app-datatypes/tests/test_mapper.py:50-54 | the empty list maps to `[]`; the default bank has 384 bits and ends at CR17 |
| MapperExamples.DuplicateNameRejected | libs/basic-app-datatypes/tests/test_mapper.py:56-64 | two fields named "intensity" give DuplicateNames("intensity") |
| MapperExamples.UnknownStrategyRejected | libs/basic-app-datatypes/tests/test_mapper.py:87-93 | "invalid_strategy" gives UnknownStrategy |
| MapperExamples.SharedRegister | libs/basic-app-datatypes/tests/test_mapper.py:99-169 | three fields that fit together share CR6, packed downward from bit 31 |
| MapperExamples.TwoHalves | libs/basic-app-datatypes/tests/test_mapper.py:99-115 | two 16-bit fields land at CR6 (31,16) and (15,0) |
| MapperExamples.ThirdFieldRollsOver | libs/basic-app-datatypes/tests/test_mapper.py:117-134 | a third 16-bit field lands at CR7 (31,16) |
| MapperExamples.BooleansStepDown | libs/basic-app-datatypes/tests/test_mapper.py:136-152 | three booleans take bits 31, 30 and 29 of CR6 |
| MapperExamples.MixedSizes | libs/basic-app-datatypes/tests/test_mapper.py:154-169 | 16-, 8- and 1-bit fields take (31,16), (15,8) and (7,7) |
| MapperExamples.SingleField | libs/basic-app-datatypes/tests/test_mapper.py:407-416 | a lone 16-bit field lands at CR6 (31,16) under every strategy |
| MapperExamples.SingleTimer | libs/basic-app-datatypes/tests/test_mapper.py:76-85 | a lone 32-bit timer is accepted and fills CR6 (31,0) |
| MapperExamples.NearlyFullRegister | libs/basic-app-datatypes/tests/test_mapper.py:432-445 | 16 + 8 + 8 bits exactly fill CR6 |
| MapperExamples.SortsBySize | libs/basic-app-datatypes/tests/test_mapper.py:175-189 | best_fit on small, large, tiny places large, small, tiny at (31,16), (15,8), (7,7) |
| MapperExamples.WidestFirst | libs/basic-app-datatypes/tests/test_mapper.py:191-210 | best_fit moves the 16-bit field ahead of the 8-bit ones, which keep their order |
| MapperExamples.GroupsByTypeFamily | libs/basic-app-datatypes/tests/test_mapper.py:216-240 | the suite's clustering list: voltage output, voltage input, both durations, boolean last, with their slices |
| MapperExamples.ClusteringOfFive | libs/basic-app-datatypes/tests/test_mapper.py:216-240 | the same for any five fields with those categories and widths |
| MapperExamples.DeploymentOfNine | libs/basic-app-datatypes/tests/test_mapper.py:246-280 | any nine fields of widths 1,1,1,8,16,8,8,16,16 under best_fit: two 16-bit fields fill CR6, the third shares CR7 with two 8-bit fields, CR8 holds the last 8-bit field and the flags at bits 23, 22 and 21 |
| MapperExamples.Ds1140Mapping | libs/basic-app-datatypes/tests/test_mapper.py:246-280 | the DS1140_PD requests under best_fit occupy CR6 to CR8 with the slices listed |
| MapperExamples.ValueAndFlag | libs/basic-app-datatypes/tests/test_mapper.py:346-363 | a 16-bit value and a boolean share CR6 at (31,16) and (15,15) |
| MappingReports.GenerateReport | libs/basic-app-datatypes/tests/test_mapper.py:286-300 | the report loop's result is the report function's |
| MappingReports.ReportGroups | libs/basic-app-datatypes/tests/test_mapper.py:286-300 | available bits are the capacity; the registers listed are exactly those used; each lists exactly its own mappings, highest msb first; every mapping is listed under its register |
| MappingReports.ReportOfLayout | libs/basic-app-datatypes/tests/test_mapper.py:286-300 | an MSB-first layout's report lists registers base .. last without gaps, each in layout order |
| MappingReports.RegistersUsedCount | libs/basic-app-datatypes/tests/test_mapper.py:346-363 | the summary's register count is the number of distinct registers the mappings occupy, never more than the number of mappings, and zero exactly when there are none |
| MappingReports.ReportOfMapping | libs/basic-app-datatypes/tests/test_mapper.py:286-363 | the report of a successful map: bits used = bits requested ≤ available = capacity; one entry per register from CR6 to the last used, which is the summary's register count |
| MappingReports.EfficiencyPercent | libs/basic-app-datatypes/tests/test_mapper.py:286-300 | used / available × 100 lies in 0..100, and is 100 for a full bank |
| MapperExamples.TwoHalvesReport | libs/basic-app-datatypes/tests/test_mapper.py:286-300 | two 16-bit values: 32 of 384 bits, efficiency (32/384)·100, one register |
| MapperExamples.ValueAndFlagReport | libs/basic-app-datatypes/tests/test_mapper.py:346-363 | a 16-bit value and a boolean: 17 bits used, one register |

## Left out

- The implementation modules `basic_app_datatypes.mapper` and `models.custom_inst.datatypes` are not part of this model. The behaviour is reconstructed from the assertions of the two test suites, so where no test decides a behaviour, the model follows the validation order and placement rule given in the overview.
- `models/custom_inst/datatypes/.!42243!time.py` holds only a file header. It is not part of this model.
- Type names and widths: nine of the 23 types appear in the tests. The other fourteen stand where the suite's count (12 voltage, 10 time, 1 boolean) puts them: S8/S16/U7/U15 for each voltage family; NS 8/16/32, US 8/16/24, MS 8/16 and S 8/16 bits for durations.
- The `vhdl_type` and `python_type` strings of the table, and the frozen-dataclass AttributeError check: Dafny datatypes are immutable, and the strings carry no behaviour.
- Report renderers (`to_ascii_art`, `to_markdown`, `to_vhdl_comments`, the layout of `to_json`) and `RegisterMapping.to_vhdl_slice`: these are string presentation. The JSON summary counts are kept: bits used (`ReportOfMapping`) and registers used (`RegistersUsed`, the number of distinct registers the mappings occupy, by `RegistersUsedCount`).
- The register-default-value accumulation used at deployment, and all of `examples/DS1140_PD_deployment.py`: YAML loading, MokuConfig construction, printing and hardware access are I/O. Its nine requests appear only as the field list of `MapperExamples.Ds1140Mapping`.
- Clock periods are integer picoseconds rather than floating-point nanoseconds. `CyclesToTime` returns an exact real.
- `EfficiencyPercent` is an exact real `used / available × 100`, not a float.
- The default strategy of `map` is not modelled as a default argument. The calls without a strategy in the suite are modelled with `"first_fit"`. Their fields are all of one width, or already in descending width order, so all three strategies give the same asserted slices for them.
- Determinism and "same input, same output": every operation is a function, so this holds by construction and has no lemma of its own.
- RegisterMapper.FindTooWide: cannot reject any field of the 23 table types, because none is wider than 32 bits (`NoFieldTooWide`). The check is kept for later wider types.
- MapperBoundaries.TwelveTimersFillBank: states each field's register, msb and lsb rather than the set-of-registers phrasing of the test. The min, max and distinct count follow from it.
- RegisterMapper.CapacityCheckMissesRegisterLimit: is stated for any strategy name that parses to first_fit. It gives no count of registers for the other two strategies.

## Findings

| source | as written | input that shows it | evidently intended | confidence | as-written member | corrected member |
|---|---|---|---|---|---|---|
| libs/basic-app-datatypes/tests/test_mapper.py:66-74 | validation bounds only the total number of bits (at most 384); the placement walk is never checked against the bank's last register | thirteen fields alternating BOOLEAN and PULSE_DURATION_NS_U32 under first_fit: 199 bits pass the capacity check, but no boolean fits beside a 32-bit timer, so the layout needs CR6 to CR18 and the bank ends at CR17 | a mapping never uses a register outside CR6..CR17; a layout that runs past the bank is rejected | not executed | RegisterMapper.MapResultAsWritten, RegisterMapper.CapacityCheckMissesRegisterLimit, MapperBoundaries.AlternatingOverrun, MapperBoundaries.ThirteenAlternatingOverrun | RegisterMapper.MapResult, RegisterMapper.Map, RegisterMapper.MapSuccess |
