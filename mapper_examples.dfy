/** The mapper on the concrete field lists of its test suite. */
module MapperExamples {
  import opened Results
  import opened BasicAppTypes
  import opened RegisterLayout
  import opened KeyedOrder
  import opened PackingStrategies
  import opened RegisterMapper
  import opened MappingReports

  /** The deployment's nine requests, in its own order. */
  const Ds1140Fields: seq<Field> := [
    Field("arm_probe", Boolean), Field("force_fire", Boolean), Field("reset_fsm", Boolean),
    Field("clock_divider", PulseDurationNs_U8), Field("arm_timeout", PulseDurationMs_U16),
    Field("firing_duration", PulseDurationNs_U8), Field("cooling_duration", PulseDurationNs_U8),
    Field("trigger_threshold", VoltageInput25V_S16), Field("intensity", VoltageOutput05V_S16)]

  function M(name: string, t: DataType, cr: int, msb: int, lsb: int): RegisterMapping
  {
    RegisterMapping(name, t, cr, msb, lsb)
  }

  /**
   * A list of distinctly named fields, no longer than the bank, that a known strategy
   * lays out inside the bank maps to exactly that layout.
   */
  lemma {:induction false} MapsTo(fs: seq<Field>, strategyName: string, s: Strategy, ms: seq<RegisterMapping>)
    requires 0 < |fs| <= DefaultBank.registerCount && UniqueNames(fs)
    requires ParseStrategy(strategyName) == Some(s)
    requires Pack(DefaultBank.baseCr, Order(s, fs)) == ms
    requires ms[|ms| - 1].crNumber <= LastCr(DefaultBank)
    ensures MapResult(DefaultBank, fs, strategyName) == Ok(ms)
  {
    SumWidthsBound(fs);
    Accepted(DefaultBank, fs, strategyName);
  }

  // ---------------------------------------------------------------------------
  // Validation

  lemma EmptyInput()
    ensures MapResult(DefaultBank, [], "first_fit") == Ok([])
    ensures Capacity(DefaultBank) == 384 && LastCr(DefaultBank) == 17
  {
  }

  lemma DuplicateNameRejected()
    ensures MapResult(DefaultBank, [Field("intensity", VoltageOutput05V_S16), Field("intensity", VoltageOutput05V_S8)],
                      "first_fit")
      == Err(DuplicateNames("intensity"))
  {
    var fs := [Field("intensity", VoltageOutput05V_S16), Field("intensity", VoltageOutput05V_S8)];
    assert fs[1..] == [fs[1]] && Names(fs[1..])[0] == "intensity";
  }

  lemma UnknownStrategyRejected()
    ensures MapResult(DefaultBank, [Field("test", Boolean)], "invalid_strategy") == Err(UnknownStrategy("invalid_strategy"))
  {
    NoFieldTooWide([Field("test", Boolean)]);
    SumWidthsBound([Field("test", Boolean)]);
  }

  // ---------------------------------------------------------------------------
  // first_fit

  /** Three fields that fit in one register together share CR6, packed downward from bit 31. */
  lemma {:induction false} SharedRegister(a: Field, b: Field, c: Field)
    requires Width(a) + Width(b) + Width(c) <= RegisterWidth
    ensures Pack(6, [a, b, c])
      == [M(a.name, a.dataType, 6, 31, 32 - Width(a)),
          M(b.name, b.dataType, 6, 31 - Width(a), 32 - Width(a) - Width(b)),
          M(c.name, c.dataType, 6, 31 - Width(a) - Width(b), 32 - Width(a) - Width(b) - Width(c))]
  {
    var m2 := M(c.name, c.dataType, 6, 31 - Width(a) - Width(b), 32 - Width(a) - Width(b) - Width(c));
    var m1 := M(b.name, b.dataType, 6, 31 - Width(a), 32 - Width(a) - Width(b));
    PackStep(Cursor(6, 31 - Width(a) - Width(b)), c, []);
    PackStep(Cursor(6, 31 - Width(a)), b, [c]);
    PackStep(Cursor(6, 31), a, [b, c]);
    assert [b] + [c] == [b, c] && [a] + [b, c] == [a, b, c];
  }

  lemma TwoHalves()
    ensures MapResult(DefaultBank, [Field("intensity", VoltageOutput05V_S16), Field("threshold", VoltageOutput05V_S16)],
                      "first_fit")
      == Ok([M("intensity", VoltageOutput05V_S16, 6, 31, 16), M("threshold", VoltageOutput05V_S16, 6, 15, 0)])
  {
    var fs := [Field("intensity", VoltageOutput05V_S16), Field("threshold", VoltageOutput05V_S16)];
    assert fs[1..] == [fs[1]] && fs[1..][1..] == [];
    MapsTo(fs, "first_fit", FirstFit, [M("intensity", VoltageOutput05V_S16, 6, 31, 16), M("threshold", VoltageOutput05V_S16, 6, 15, 0)]);
  }

  lemma ThirdFieldRollsOver()
    ensures MapResult(DefaultBank, [Field("v1", VoltageOutput05V_S16), Field("v2", VoltageOutput05V_S16),
                                    Field("v3", VoltageOutput05V_S16)], "first_fit")
      == Ok([M("v1", VoltageOutput05V_S16, 6, 31, 16), M("v2", VoltageOutput05V_S16, 6, 15, 0),
             M("v3", VoltageOutput05V_S16, 7, 31, 16)])
  {
    var fs := [Field("v1", VoltageOutput05V_S16), Field("v2", VoltageOutput05V_S16), Field("v3", VoltageOutput05V_S16)];
    assert fs[1..] == [fs[1], fs[2]] && fs[1..][1..] == [fs[2]] && fs[1..][1..][1..] == [];
    MapsTo(fs, "first_fit", FirstFit, [M("v1", VoltageOutput05V_S16, 6, 31, 16), M("v2", VoltageOutput05V_S16, 6, 15, 0),
                             M("v3", VoltageOutput05V_S16, 7, 31, 16)]);
  }

  lemma BooleansStepDown()
    ensures MapResult(DefaultBank, [Field("enable", Boolean), Field("armed", Boolean), Field("trigger", Boolean)], "first_fit")
      == Ok([M("enable", Boolean, 6, 31, 31), M("armed", Boolean, 6, 30, 30), M("trigger", Boolean, 6, 29, 29)])
  {
    var fs := [Field("enable", Boolean), Field("armed", Boolean), Field("trigger", Boolean)];
    SharedRegister(fs[0], fs[1], fs[2]);
    MapsTo(fs, "first_fit", FirstFit, [M("enable", Boolean, 6, 31, 31), M("armed", Boolean, 6, 30, 30), M("trigger", Boolean, 6, 29, 29)]);
  }

  lemma MixedSizes()
    ensures MapResult(DefaultBank, [Field("voltage", VoltageOutput05V_S16), Field("time_ns", PulseDurationNs_U8),
                                    Field("enable", Boolean)], "first_fit")
      == Ok([M("voltage", VoltageOutput05V_S16, 6, 31, 16), M("time_ns", PulseDurationNs_U8, 6, 15, 8),
             M("enable", Boolean, 6, 7, 7)])
  {
    var fs := [Field("voltage", VoltageOutput05V_S16), Field("time_ns", PulseDurationNs_U8), Field("enable", Boolean)];
    SharedRegister(fs[0], fs[1], fs[2]);
    MapsTo(fs, "first_fit", FirstFit, [M("voltage", VoltageOutput05V_S16, 6, 31, 16), M("time_ns", PulseDurationNs_U8, 6, 15, 8),
                             M("enable", Boolean, 6, 7, 7)]);
  }

  lemma NearlyFullRegister()
    ensures MapResult(DefaultBank, [Field("a", VoltageOutput05V_S16), Field("b", PulseDurationNs_U8),
                                    Field("c", PulseDurationNs_U8)], "first_fit")
      == Ok([M("a", VoltageOutput05V_S16, 6, 31, 16), M("b", PulseDurationNs_U8, 6, 15, 8),
             M("c", PulseDurationNs_U8, 6, 7, 0)])
  {
    var fs := [Field("a", VoltageOutput05V_S16), Field("b", PulseDurationNs_U8), Field("c", PulseDurationNs_U8)];
    SharedRegister(fs[0], fs[1], fs[2]);
    MapsTo(fs, "first_fit", FirstFit, [M("a", VoltageOutput05V_S16, 6, 31, 16), M("b", PulseDurationNs_U8, 6, 15, 8),
                             M("c", PulseDurationNs_U8, 6, 7, 0)]);
  }

  /** Every strategy leaves a single field where it is. */
  lemma {:induction false} OrderSingleton(s: Strategy, f: Field)
    ensures Order(s, [f]) == [f]
  {
    assert [f][1..] == [];
    match s
    case FirstFit =>
    case BestFit =>
      assert Sort([f], WidthKey) == Insert(f, [], WidthKey);
    case TypeClustering =>
      var k := PrecedenceKey(f);
      forall j ensures Filter([f], PrecedenceKey, j) == if j == k then [f] else [] {
        assert Filter([f], PrecedenceKey, j) == (if k == j then [f] + Filter([], PrecedenceKey, j) else Filter([], PrecedenceKey, j));
      }
  }

  /** A lone field, and a lone full-width timer, land at the top of CR6 whatever the strategy. */
  lemma SingleField(strategyName: string)
    requires ParseStrategy(strategyName).Some?
    ensures MapResult(DefaultBank, [Field("solo", VoltageOutput05V_S16)], strategyName)
      == Ok([M("solo", VoltageOutput05V_S16, 6, 31, 16)])
  {
    var solo := [Field("solo", VoltageOutput05V_S16)];
    OrderSingleton(ParseStrategy(strategyName).value, solo[0]);
    assert solo[1..] == [];
    MapsTo(solo, strategyName, ParseStrategy(strategyName).value, [M("solo", VoltageOutput05V_S16, 6, 31, 16)]);
  }

  lemma SingleTimer(strategyName: string)
    requires ParseStrategy(strategyName).Some?
    ensures MapResult(DefaultBank, [Field("timer", PulseDurationNs_U32)], strategyName)
      == Ok([M("timer", PulseDurationNs_U32, 6, 31, 0)])
  {
    var timer := [Field("timer", PulseDurationNs_U32)];
    OrderSingleton(ParseStrategy(strategyName).value, timer[0]);
    assert timer[1..] == [];
    MapsTo(timer, strategyName, ParseStrategy(strategyName).value, [M("timer", PulseDurationNs_U32, 6, 31, 0)]);
  }

  // ---------------------------------------------------------------------------
  // best_fit

  /** Sorting moves a larger second element in front of the first; a smallest third element stays last. */
  lemma {:induction false} LargerSecondFirst<T>(a: T, b: T, c: T, key: T -> int)
    requires key(a) < key(b) && key(c) <= key(a)
    ensures Sort([a, b, c], key) == [b, a, c]
  {
    assert [c][1..] == [] && [b, c][1..] == [c] && [a, b, c][1..] == [b, c];
    assert Sort([b, c], key) == [b, c];
    assert Insert(a, [b, c], key) == [b] + Insert(a, [c], key);
  }

  lemma SortsBySizeLayout()
    ensures Pack(6, [Field("large", VoltageOutput05V_S16), Field("small", PulseDurationNs_U8), Field("tiny", Boolean)])
      == [M("large", VoltageOutput05V_S16, 6, 31, 16), M("small", PulseDurationNs_U8, 6, 15, 8), M("tiny", Boolean, 6, 7, 7)]
  {
    var fs := [Field("large", VoltageOutput05V_S16), Field("small", PulseDurationNs_U8), Field("tiny", Boolean)];
    SharedRegister(fs[0], fs[1], fs[2]);
  }

  lemma SortsBySize()
    ensures MapResult(DefaultBank, [Field("small", PulseDurationNs_U8), Field("large", VoltageOutput05V_S16),
                                    Field("tiny", Boolean)], "best_fit")
      == Ok([M("large", VoltageOutput05V_S16, 6, 31, 16), M("small", PulseDurationNs_U8, 6, 15, 8),
             M("tiny", Boolean, 6, 7, 7)])
  {
    var fs := [Field("small", PulseDurationNs_U8), Field("large", VoltageOutput05V_S16), Field("tiny", Boolean)];
    LargerSecondFirst(fs[0], fs[1], fs[2], WidthKey);
    assert Order(BestFit, fs) == [fs[1], fs[0], fs[2]];
    SortsBySizeLayout();
    MapsTo(fs, "best_fit", BestFit,
           [M("large", VoltageOutput05V_S16, 6, 31, 16), M("small", PulseDurationNs_U8, 6, 15, 8), M("tiny", Boolean, 6, 7, 7)]);
  }

  /** Equal keys keep their order while a larger third element moves to the front. */
  lemma {:induction false} LargerThirdFirst<T>(a: T, b: T, c: T, d: T, key: T -> int)
    requires key(a) == key(b) == key(d) < key(c)
    ensures Sort([a, b, c, d], key) == [c, a, b, d]
  {
    assert [d][1..] == [] && [c, d][1..] == [d] && [b, c, d][1..] == [c, d] && [a, b, c, d][1..] == [b, c, d];
    assert Sort([c, d], key) == [c, d];
    assert Sort([b, c, d], key) == [c, b, d] by {
      InsertBehind(b, [c], [d], key);
      assert [c] + [d] == [c, d];
    }
    InsertBehind(a, [c], [b, d], key);
    assert [c] + [b, d] == [c, b, d];
  }

  lemma WiderThirdLayout()
    ensures Pack(6, [Field("c", VoltageOutput05V_S16), Field("a", PulseDurationNs_U8), Field("b", PulseDurationNs_U8),
                     Field("d", PulseDurationNs_U8)])
      == [M("c", VoltageOutput05V_S16, 6, 31, 16), M("a", PulseDurationNs_U8, 6, 15, 8),
          M("b", PulseDurationNs_U8, 6, 7, 0), M("d", PulseDurationNs_U8, 7, 31, 24)]
  {
    var fs := [Field("c", VoltageOutput05V_S16), Field("a", PulseDurationNs_U8), Field("b", PulseDurationNs_U8),
               Field("d", PulseDurationNs_U8)];
    assert fs[1..] == [fs[1], fs[2], fs[3]] && fs[1..][1..] == [fs[2], fs[3]] && fs[1..][1..][1..] == [fs[3]];
    assert fs[1..][1..][1..][1..] == [];
  }

  /** The suite's a, b, c, d list: the 16-bit field first, then the 8-bit ones in input order. */
  lemma WidestFirst()
    ensures MapResult(DefaultBank, [Field("a", PulseDurationNs_U8), Field("b", PulseDurationNs_U8),
                                    Field("c", VoltageOutput05V_S16), Field("d", PulseDurationNs_U8)], "best_fit")
      == Ok([M("c", VoltageOutput05V_S16, 6, 31, 16), M("a", PulseDurationNs_U8, 6, 15, 8),
             M("b", PulseDurationNs_U8, 6, 7, 0), M("d", PulseDurationNs_U8, 7, 31, 24)])
  {
    var fs := [Field("a", PulseDurationNs_U8), Field("b", PulseDurationNs_U8), Field("c", VoltageOutput05V_S16),
               Field("d", PulseDurationNs_U8)];
    LargerThirdFirst(fs[0], fs[1], fs[2], fs[3], WidthKey);
    assert Order(BestFit, fs) == [fs[2], fs[0], fs[1], fs[3]];
    WiderThirdLayout();
    MapsTo(fs, "best_fit", BestFit,
           [M("c", VoltageOutput05V_S16, 6, 31, 16), M("a", PulseDurationNs_U8, 6, 15, 8),
            M("b", PulseDurationNs_U8, 6, 7, 0), M("d", PulseDurationNs_U8, 7, 31, 24)]);
  }

  // ---------------------------------------------------------------------------
  // type_clustering

  function Keep<T>(x: T, key: T -> int, k: int): seq<T>
  {
    if key(x) == k then [x] else []
  }

  /** Filtering `[x] + s` keeps `x` exactly when its key matches. */
  lemma {:induction false} FilterStep<T>(x: T, s: seq<T>, key: T -> int, k: int)
    ensures Filter([x] + s, key, k) == Keep(x, key, k) + Filter(s, key, k)
  {
    assert ([x] + s)[0] == x && ([x] + s)[1..] == s;
  }

  /** Filtering five elements keeps each one whose key matches, in order. */
  lemma {:induction false} FilterOfFive<T>(a: T, b: T, c: T, d: T, e: T, key: T -> int, k: int)
    ensures Filter([a, b, c, d, e], key, k)
      == Keep(a, key, k) + (Keep(b, key, k) + (Keep(c, key, k) + (Keep(d, key, k) + Keep(e, key, k))))
  {
    assert [a, b, c, d, e] == [a] + ([b] + ([c] + ([d] + ([e] + []))));
    FilterStep(e, [], key, k);
    assert Keep(e, key, k) + [] == Keep(e, key, k);
    FilterStep(d, [e] + [], key, k);
    FilterStep(c, [d] + ([e] + []), key, k);
    FilterStep(b, [c] + ([d] + ([e] + [])), key, k);
    FilterStep(a, [b] + ([c] + ([d] + ([e] + []))), key, k);
  }

  /** The suite's clustering list: one of each precedence, the lowest last, two of precedence 1. */
  lemma {:induction false} ClusterOfFive<T>(a: T, b: T, c: T, d: T, e: T, key: T -> int)
    requires key(a) == key(c) == 1 && key(b) == 3 && key(d) == 2 && key(e) == 0
    ensures Filter([a, b, c, d, e], key, 3) + Filter([a, b, c, d, e], key, 2)
            + Filter([a, b, c, d, e], key, 1) + Filter([a, b, c, d, e], key, 0) == [b, d, a, c, e]
  {
    FilterOfFive(a, b, c, d, e, key, 3);
    FilterOfFive(a, b, c, d, e, key, 2);
    FilterOfFive(a, b, c, d, e, key, 1);
    FilterOfFive(a, b, c, d, e, key, 0);
  }

  /** Two half-register fields fill CR6; an 8-bit, a 16-bit and a 1-bit field then share CR7. */
  lemma {:induction false} ClusteringLayout(a: Field, b: Field, c: Field, d: Field, e: Field)
    requires Width(a) == 16 && Width(b) == 16 && Width(c) == 8 && Width(d) == 16 && Width(e) == 1
    ensures Pack(6, [a, b, c, d, e])
      == [M(a.name, a.dataType, 6, 31, 16), M(b.name, b.dataType, 6, 15, 0), M(c.name, c.dataType, 7, 31, 24),
          M(d.name, d.dataType, 7, 23, 8), M(e.name, e.dataType, 7, 7, 7)]
  {
    assert [e][1..] == [] && [d, e][1..] == [e] && [c, d, e][1..] == [d, e] && [b, c, d, e][1..] == [c, d, e];
    assert [a, b, c, d, e][1..] == [b, c, d, e];
    var m4 := M(e.name, e.dataType, 7, 7, 7);
    var m3 := M(d.name, d.dataType, 7, 23, 8);
    var m2 := M(c.name, c.dataType, 7, 31, 24);
    var m1 := M(b.name, b.dataType, 6, 15, 0);
    assert PackFrom(Cursor(7, 7), [e]) == [m4];
    assert PackFrom(Cursor(7, 23), [d, e]) == [m3, m4];
    assert PackFrom(Cursor(6, -1), [c, d, e]) == [m2, m3, m4];
    assert PackFrom(Cursor(6, 15), [b, c, d, e]) == [m1, m2, m3, m4];
  }

  /**
   * type_clustering on five distinctly named fields: a 16-bit voltage output, a
   * 16-bit voltage input, an 8-bit and a 16-bit duration and a boolean, given
   * in mixed order.
   */
  lemma {:induction false} ClusteringOfFive(a: Field, b: Field, c: Field, d: Field, e: Field)
    requires UniqueNames([a, b, c, d, e])
    requires CategoryOf(a) == Duration && CategoryOf(b) == VoltageOutput && CategoryOf(c) == Duration
    requires CategoryOf(d) == VoltageInput && CategoryOf(e) == BooleanFlag
    requires Width(a) == 8 && Width(b) == 16 && Width(c) == 16 && Width(d) == 16 && Width(e) == 1
    ensures MapResult(DefaultBank, [a, b, c, d, e], "type_clustering")
      == Ok([M(b.name, b.dataType, 6, 31, 16), M(d.name, d.dataType, 6, 15, 0), M(a.name, a.dataType, 7, 31, 24),
             M(c.name, c.dataType, 7, 23, 8), M(e.name, e.dataType, 7, 7, 7)])
  {
    ClusterOfFive(a, b, c, d, e, PrecedenceKey);
    assert Order(TypeClustering, [a, b, c, d, e]) == [b, d, a, c, e];
    ClusteringLayout(b, d, a, c, e);
    MapsTo([a, b, c, d, e], "type_clustering", TypeClustering,
           [M(b.name, b.dataType, 6, 31, 16), M(d.name, d.dataType, 6, 15, 0), M(a.name, a.dataType, 7, 31, 24),
            M(c.name, c.dataType, 7, 23, 8), M(e.name, e.dataType, 7, 7, 7)]);
  }

  /** type_clustering: the voltage output, the voltage input, the two durations together, the boolean last. */
  lemma GroupsByTypeFamily()
    ensures MapResult(DefaultBank, [Field("time1", PulseDurationNs_U8), Field("voltage_out", VoltageOutput05V_S16),
                                    Field("time2", PulseDurationMs_U16), Field("voltage_in", VoltageInput25V_S16),
                                    Field("bool1", Boolean)], "type_clustering")
      == Ok([M("voltage_out", VoltageOutput05V_S16, 6, 31, 16), M("voltage_in", VoltageInput25V_S16, 6, 15, 0),
             M("time1", PulseDurationNs_U8, 7, 31, 24), M("time2", PulseDurationMs_U16, 7, 23, 8),
             M("bool1", Boolean, 7, 7, 7)])
  {
    ClusteringOfFive(Field("time1", PulseDurationNs_U8), Field("voltage_out", VoltageOutput05V_S16),
                     Field("time2", PulseDurationMs_U16), Field("voltage_in", VoltageInput25V_S16), Field("bool1", Boolean));
  }

  // ---------------------------------------------------------------------------
  // The DS1140_PD deployment under best_fit

  /** Three keys already descending after the first, which is smaller. */
  lemma {:induction false} SortOfThree<T>(co: T, tt: T, iv: T, key: T -> int)
    requires key(co) < key(tt) == key(iv)
    ensures Sort([co, tt, iv], key) == [tt, iv, co]
  {
    SortStep(iv, [], key);
    SortStep(tt, [iv], key);
    assert [tt] + [iv] == [tt, iv];
    SortStep(co, [tt, iv], key);
    InsertBetween(co, [tt, iv], [], key);
    assert [co] + [tt, iv] == [co, tt, iv] && [tt, iv] + [co] + [] == [tt, iv, co] && [tt, iv] + [] == [tt, iv];
  }

  lemma {:induction false} SortOfFive<T>(at: T, fd: T, co: T, tt: T, iv: T, key: T -> int)
    requires key(fd) == key(co) == 8
    requires key(at) == key(tt) == key(iv) == 16
    ensures Sort([at, fd, co, tt, iv], key) == [at, tt, iv, fd, co]
  {
    SortOfThree(co, tt, iv, key);
    SortStep(fd, [co, tt, iv], key);
    InsertBetween(fd, [tt, iv], [co], key);
    assert [fd] + [co, tt, iv] == [fd, co, tt, iv] && [tt, iv] + [co] == [tt, iv, co];
    assert [tt, iv] + [fd] + [co] == [tt, iv, fd, co];
    SortStep(at, [fd, co, tt, iv], key);
    InsertBetween(at, [], [tt, iv, fd, co], key);
    assert [at] + [fd, co, tt, iv] == [at, fd, co, tt, iv] && [] + [tt, iv, fd, co] == [tt, iv, fd, co];
    assert [] + [at] + [tt, iv, fd, co] == [at, tt, iv, fd, co];
  }

  lemma {:induction false} SortOfEight<T>(p2: T, p3: T, cd: T, at: T, fd: T, co: T, tt: T, iv: T, key: T -> int)
    requires key(p2) == key(p3) == 1
    requires key(cd) == key(fd) == key(co) == 8
    requires key(at) == key(tt) == key(iv) == 16
    ensures Sort([p2, p3, cd, at, fd, co, tt, iv], key) == [at, tt, iv, cd, fd, co, p2, p3]
  {
    SortOfFive(at, fd, co, tt, iv, key);
    SortStep(cd, [at, fd, co, tt, iv], key);
    assert [cd] + [at, fd, co, tt, iv] == [cd, at, fd, co, tt, iv];
    assert [at, tt, iv, fd, co] == [at, tt, iv] + [fd, co];
    InsertBetween(cd, [at, tt, iv], [fd, co], key);
    assert [at, tt, iv] + [cd] + [fd, co] == [at, tt, iv, cd, fd, co];
    SortStep(p3, [cd, at, fd, co, tt, iv], key);
    assert [p3] + [cd, at, fd, co, tt, iv] == [p3, cd, at, fd, co, tt, iv];
    InsertBetween(p3, [at, tt, iv, cd, fd, co], [], key);
    assert [at, tt, iv, cd, fd, co] + [] == [at, tt, iv, cd, fd, co];
    assert [at, tt, iv, cd, fd, co] + [p3] + [] == [at, tt, iv, cd, fd, co, p3];
    SortStep(p2, [p3, cd, at, fd, co, tt, iv], key);
    assert [p2] + [p3, cd, at, fd, co, tt, iv] == [p2, p3, cd, at, fd, co, tt, iv];
    assert [at, tt, iv, cd, fd, co, p3] == [at, tt, iv, cd, fd, co] + [p3];
    InsertBetween(p2, [at, tt, iv, cd, fd, co], [p3], key);
    assert [at, tt, iv, cd, fd, co] + [p2] + [p3] == [at, tt, iv, cd, fd, co, p2, p3];
  }

  /** The nine requests of keys 1, 1, 1, 8, 16, 8, 8, 16, 16: the 16s, the 8s, the 1s, each in input order. */
  lemma {:induction false} SortOfNine<T>(p1: T, p2: T, p3: T, cd: T, at: T, fd: T, co: T, tt: T, iv: T, key: T -> int)
    requires key(p1) == key(p2) == key(p3) == 1
    requires key(cd) == key(fd) == key(co) == 8
    requires key(at) == key(tt) == key(iv) == 16
    ensures Sort([p1, p2, p3, cd, at, fd, co, tt, iv], key) == [at, tt, iv, cd, fd, co, p1, p2, p3]
  {
    SortOfEight(p2, p3, cd, at, fd, co, tt, iv, key);
    SortStep(p1, [p2, p3, cd, at, fd, co, tt, iv], key);
    assert [p1] + [p2, p3, cd, at, fd, co, tt, iv] == [p1, p2, p3, cd, at, fd, co, tt, iv];
    assert [at, tt, iv, cd, fd, co, p2, p3] == [at, tt, iv, cd, fd, co] + [p2, p3];
    InsertBetween(p1, [at, tt, iv, cd, fd, co], [p2, p3], key);
    assert [at, tt, iv, cd, fd, co] + [p1] + [p2, p3] == [at, tt, iv, cd, fd, co, p1, p2, p3];
  }

  lemma {:induction false} TailLayout(cd: Field, fd: Field, co: Field, p1: Field, p2: Field, p3: Field)
    requires Width(cd) == Width(fd) == Width(co) == 8 && Width(p1) == Width(p2) == Width(p3) == 1
    ensures PackFrom(Cursor(7, 15), [cd, fd, co, p1, p2, p3])
      == [M(cd.name, cd.dataType, 7, 15, 8), M(fd.name, fd.dataType, 7, 7, 0), M(co.name, co.dataType, 8, 31, 24),
          M(p1.name, p1.dataType, 8, 23, 23), M(p2.name, p2.dataType, 8, 22, 22), M(p3.name, p3.dataType, 8, 21, 21)]
  {
    PackStep(Cursor(8, 21), p3, []);
    PackStep(Cursor(8, 22), p2, [p3]);
    PackStep(Cursor(8, 23), p1, [p2, p3]);
    PackStep(Cursor(7, -1), co, [p1, p2, p3]);
    PackStep(Cursor(7, 7), fd, [co, p1, p2, p3]);
    PackStep(Cursor(7, 15), cd, [fd, co, p1, p2, p3]);
    assert [p2] + [p3] == [p2, p3] && [p1] + [p2, p3] == [p1, p2, p3] && [co] + [p1, p2, p3] == [co, p1, p2, p3];
    assert [fd] + [co, p1, p2, p3] == [fd, co, p1, p2, p3] && [cd] + [fd, co, p1, p2, p3] == [cd, fd, co, p1, p2, p3];
  }

  lemma {:induction false} NineLayout(at: Field, tt: Field, iv: Field, cd: Field, fd: Field, co: Field,
                                      p1: Field, p2: Field, p3: Field)
    requires Width(at) == Width(tt) == Width(iv) == 16
    requires Width(cd) == Width(fd) == Width(co) == 8 && Width(p1) == Width(p2) == Width(p3) == 1
    ensures Pack(6, [at, tt, iv, cd, fd, co, p1, p2, p3])
      == [M(at.name, at.dataType, 6, 31, 16), M(tt.name, tt.dataType, 6, 15, 0), M(iv.name, iv.dataType, 7, 31, 16),
          M(cd.name, cd.dataType, 7, 15, 8), M(fd.name, fd.dataType, 7, 7, 0), M(co.name, co.dataType, 8, 31, 24),
          M(p1.name, p1.dataType, 8, 23, 23), M(p2.name, p2.dataType, 8, 22, 22), M(p3.name, p3.dataType, 8, 21, 21)]
  {
    var tail := [cd, fd, co, p1, p2, p3];
    TailLayout(cd, fd, co, p1, p2, p3);
    PackStep(Cursor(6, -1), iv, tail);
    PackStep(Cursor(6, 15), tt, [iv] + tail);
    PackStep(Cursor(6, 31), at, [tt] + ([iv] + tail));
    assert [at] + ([tt] + ([iv] + tail)) == [at, tt, iv, cd, fd, co, p1, p2, p3];
  }

  /**
   * Three booleans, three 8-bit and three 16-bit requests, in the deployment's
   * order, under best_fit: nine fields in three registers where one register
   * per field was used before.
   */
  lemma {:induction false} DeploymentOfNine(p1: Field, p2: Field, p3: Field, cd: Field, at: Field, fd: Field,
                                            co: Field, tt: Field, iv: Field)
    requires UniqueNames([p1, p2, p3, cd, at, fd, co, tt, iv])
    requires Width(p1) == Width(p2) == Width(p3) == 1
    requires Width(cd) == Width(fd) == Width(co) == 8
    requires Width(at) == Width(tt) == Width(iv) == 16
    ensures MapResult(DefaultBank, [p1, p2, p3, cd, at, fd, co, tt, iv], "best_fit")
      == Ok([M(at.name, at.dataType, 6, 31, 16), M(tt.name, tt.dataType, 6, 15, 0), M(iv.name, iv.dataType, 7, 31, 16),
             M(cd.name, cd.dataType, 7, 15, 8), M(fd.name, fd.dataType, 7, 7, 0), M(co.name, co.dataType, 8, 31, 24),
             M(p1.name, p1.dataType, 8, 23, 23), M(p2.name, p2.dataType, 8, 22, 22), M(p3.name, p3.dataType, 8, 21, 21)])
  {
    SortOfNine(p1, p2, p3, cd, at, fd, co, tt, iv, WidthKey);
    NineLayout(at, tt, iv, cd, fd, co, p1, p2, p3);
    MapsTo([p1, p2, p3, cd, at, fd, co, tt, iv], "best_fit", BestFit,
           [M(at.name, at.dataType, 6, 31, 16), M(tt.name, tt.dataType, 6, 15, 0), M(iv.name, iv.dataType, 7, 31, 16),
            M(cd.name, cd.dataType, 7, 15, 8), M(fd.name, fd.dataType, 7, 7, 0), M(co.name, co.dataType, 8, 31, 24),
            M(p1.name, p1.dataType, 8, 23, 23), M(p2.name, p2.dataType, 8, 22, 22), M(p3.name, p3.dataType, 8, 21, 21)]);
  }

  lemma Ds1140Names()
    ensures UniqueNames(Ds1140Fields)
  {
  }

  lemma Ds1140FlagWidths()
    ensures |Ds1140Fields| == 9
    ensures Width(Ds1140Fields[0]) == Width(Ds1140Fields[1]) == Width(Ds1140Fields[2]) == 1
  {
  }

  lemma Ds1140ByteWidths()
    ensures |Ds1140Fields| == 9
    ensures Width(Ds1140Fields[3]) == Width(Ds1140Fields[5]) == Width(Ds1140Fields[6]) == 8
  {
  }

  lemma Ds1140WordWidths()
    ensures |Ds1140Fields| == 9
    ensures Width(Ds1140Fields[4]) == Width(Ds1140Fields[7]) == Width(Ds1140Fields[8]) == 16
  {
  }

  /** The DS1140_PD requests under best_fit occupy CR6 to CR8. */
  lemma Ds1140Mapping()
    ensures MapResult(DefaultBank, Ds1140Fields, "best_fit")
      == Ok([M("arm_timeout", PulseDurationMs_U16, 6, 31, 16), M("trigger_threshold", VoltageInput25V_S16, 6, 15, 0),
             M("intensity", VoltageOutput05V_S16, 7, 31, 16), M("clock_divider", PulseDurationNs_U8, 7, 15, 8),
             M("firing_duration", PulseDurationNs_U8, 7, 7, 0), M("cooling_duration", PulseDurationNs_U8, 8, 31, 24),
             M("arm_probe", Boolean, 8, 23, 23), M("force_fire", Boolean, 8, 22, 22), M("reset_fsm", Boolean, 8, 21, 21)])
  {
    var fs := Ds1140Fields;
    Ds1140Names();
    Ds1140FlagWidths();
    Ds1140ByteWidths();
    Ds1140WordWidths();
    DeploymentOfNine(fs[0], fs[1], fs[2], fs[3], fs[4], fs[5], fs[6], fs[7], fs[8]);
  }

  // ---------------------------------------------------------------------------
  // Reports

  /** Two mappings in one register: their widths add up and the report lists one register. */
  lemma {:induction false} PairReport(x: RegisterMapping, y: RegisterMapping)
    requires x.crNumber == y.crNumber
    ensures var r := Report(DefaultBank, [x, y]);
      && r.totalBitsUsed == SliceWidth(x) + SliceWidth(y) && r.totalBitsAvailable == 384
      && RegistersUsed(r) == 1
  {
    var r := Report(DefaultBank, [x, y]);
    assert [x, y][..1] == [x] && [x][..0] == [];
    assert SumSliceWidths([x]) == SliceWidth(x);
    assert SumSliceWidths([x, y]) == SliceWidth(x) + SliceWidth(y);
    assert Registers([x, y]) == {x.crNumber} by {
      assert [x, y][0].crNumber == x.crNumber;
    }
    assert r.registerMap.Keys == {x.crNumber};
    assert |r.registerMap| == |r.registerMap.Keys|;
  }

  /** Two 16-bit values: 32 of 384 bits, one register. */
  lemma TwoHalvesReport()
    ensures var r := Report(DefaultBank, [M("intensity", VoltageOutput05V_S16, 6, 31, 16),
                                          M("threshold", VoltageOutput05V_S16, 6, 15, 0)]);
      && r.totalBitsUsed == 32 && r.totalBitsAvailable == 384
      && EfficiencyPercent(r) == 32.0 / 384.0 * 100.0
      && RegistersUsed(r) == 1
  {
    PairReport(M("intensity", VoltageOutput05V_S16, 6, 31, 16), M("threshold", VoltageOutput05V_S16, 6, 15, 0));
  }

  lemma ValueAndFlag()
    ensures MapResult(DefaultBank, [Field("intensity", VoltageOutput05V_S16), Field("enable", Boolean)], "first_fit")
      == Ok([M("intensity", VoltageOutput05V_S16, 6, 31, 16), M("enable", Boolean, 6, 15, 15)])
  {
    var fs := [Field("intensity", VoltageOutput05V_S16), Field("enable", Boolean)];
    assert fs[1..] == [fs[1]] && fs[1..][1..] == [];
    MapsTo(fs, "first_fit", FirstFit, [M("intensity", VoltageOutput05V_S16, 6, 31, 16), M("enable", Boolean, 6, 15, 15)]);
  }

  /** A 16-bit value and a boolean: 17 bits in one register. */
  lemma ValueAndFlagReport()
    ensures var r := Report(DefaultBank, [M("intensity", VoltageOutput05V_S16, 6, 31, 16), M("enable", Boolean, 6, 15, 15)]);
      r.totalBitsUsed == 17 && RegistersUsed(r) == 1
  {
    PairReport(M("intensity", VoltageOutput05V_S16, 6, 31, 16), M("enable", Boolean, 6, 15, 15));
  }
}
