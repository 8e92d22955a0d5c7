/**
 * RegisterMapper.map: validate a field list against the register bank, reorder
 * it by the chosen strategy and place it most-significant-bit first.
 */
module RegisterMapper {
  import opened Results
  import opened BasicAppTypes
  import opened RegisterLayout
  import opened KeyedOrder
  import opened PackingStrategies

  datatype MapError =
    | DuplicateNames(name: string)
    | FieldTooWide(name: string, width: nat)
    | CapacityExceeded(requested: nat, available: nat)
    | UnknownStrategy(strategyName: string)
    | RegistersExhausted(lastCr: int, limitCr: int)

  // ---------------------------------------------------------------------------
  // Validation

  predicate UniqueNames(fs: seq<Field>)
  {
    forall i, j :: 0 <= i < j < |fs| ==> fs[i].name != fs[j].name
  }

  function Names(fs: seq<Field>): (r: seq<string>)
    ensures |r| == |fs|
    ensures forall i :: 0 <= i < |fs| ==> r[i] == fs[i].name
  {
    seq(|fs|, i requires 0 <= i < |fs| => fs[i].name)
  }

  /** A name that occurs at two positions: the first field whose name reappears later. */
  function FindDuplicate(fs: seq<Field>): (r: Option<string>)
    ensures r.None? <==> UniqueNames(fs)
    ensures r.Some? ==> exists i, j :: 0 <= i < j < |fs| && fs[i].name == r.value && fs[j].name == r.value
    decreases |fs|
  {
    if fs == [] then None
    else if fs[0].name in Names(fs[1..]) then
      assert exists j :: 0 <= j < |fs[1..]| && fs[1..][j].name == fs[0].name;
      Some(fs[0].name)
    else
      var r := FindDuplicate(fs[1..]);
      assert r.Some? ==> exists i, j :: 0 < i < j < |fs| && fs[i].name == r.value && fs[j].name == r.value by {
        if r.Some? {
          var i, j :| 0 <= i < j < |fs[1..]| && fs[1..][i].name == r.value && fs[1..][j].name == r.value;
          assert fs[i + 1].name == r.value && fs[j + 1].name == r.value;
        }
      }
      assert r.None? ==> UniqueNames(fs) by {
        if r.None? {
          forall i, j | 0 <= i < j < |fs| ensures fs[i].name != fs[j].name {
            if i == 0 {
              assert fs[j].name == Names(fs[1..])[j - 1];
            } else {
              assert fs[i].name == fs[1..][i - 1].name && fs[j].name == fs[1..][j - 1].name;
            }
          }
        }
      }
      r
  }

  /** The first field wider than one register. */
  function FindTooWide(fs: seq<Field>): (r: Option<Field>)
    ensures r.None? <==> forall i :: 0 <= i < |fs| ==> Width(fs[i]) <= RegisterWidth
    ensures r.Some? ==> r.value in fs && Width(r.value) > RegisterWidth
  {
    if fs == [] then None
    else
      var f := fs[0];
      if Width(f) > RegisterWidth then Some(f)
      else
        var r := FindTooWide(fs[1..]);
        assert (forall i :: 0 <= i < |fs[1..]| ==> Width(fs[1..][i]) <= RegisterWidth)
          ==> forall i :: 0 <= i < |fs| ==> Width(fs[i]) <= RegisterWidth by {
          if forall i :: 0 <= i < |fs[1..]| ==> Width(fs[1..][i]) <= RegisterWidth {
            forall i | 0 < i < |fs| ensures Width(fs[i]) <= RegisterWidth {
              assert fs[i] == fs[1..][i - 1];
            }
          }
        }
        r
  }

  // ---------------------------------------------------------------------------
  // map

  /**
   * The mapping in the order the checks run: empty input, duplicate names,
   * over-wide fields, total bits against the bank's capacity, then the strategy
   * name; placement starts only after all of them pass.
   */
  function MapResultAsWritten(bank: Bank, fs: seq<Field>, strategyName: string): (r: Result<seq<RegisterMapping>, MapError>)
    ensures r.Ok? <==>
      fs == [] || (UniqueNames(fs) && SumWidths(fs) <= Capacity(bank) && ParseStrategy(strategyName).Some?)
    ensures r.Ok? && fs != [] ==> r.value == Pack(bank.baseCr, Order(ParseStrategy(strategyName).value, fs))
  {
    NoFieldTooWide(fs);
    if fs == [] then Ok([])
    else match FindDuplicate(fs)
      case Some(n) => Err(DuplicateNames(n))
      case None =>
        match FindTooWide(fs)
        case Some(f) => Err(FieldTooWide(f.name, Width(f)))
        case None =>
          if SumWidths(fs) > Capacity(bank) then Err(CapacityExceeded(SumWidths(fs), Capacity(bank)))
          else match ParseStrategy(strategyName)
            case None => Err(UnknownStrategy(strategyName))
            case Some(s) => Ok(Pack(bank.baseCr, Order(s, fs)))
  }

  function LastRegister(ms: seq<RegisterMapping>): int
    requires ms != []
  {
    ms[|ms| - 1].crNumber
  }

  /** As above, and a layout that runs past the bank's last register is rejected too. */
  function MapResult(bank: Bank, fs: seq<Field>, strategyName: string): Result<seq<RegisterMapping>, MapError>
  {
    match MapResultAsWritten(bank, fs, strategyName)
    case Ok(ms) =>
      if ms != [] && LastRegister(ms) > LastCr(bank) then Err(RegistersExhausted(LastRegister(ms), LastCr(bank)))
      else Ok(ms)
    case Err(e) => Err(e)
  }

  /** `RegisterMapper.map`: validation, then the strategy's order packed by the placement loop. */
  method Map(bank: Bank, fields: seq<Field>, strategyName: string) returns (r: Result<seq<RegisterMapping>, MapError>)
    ensures r == MapResult(bank, fields, strategyName)
  {
    if fields == [] {
      return Ok([]);
    }
    var dup := FindDuplicate(fields);
    if dup.Some? {
      return Err(DuplicateNames(dup.value));
    }
    var wide := FindTooWide(fields);
    if wide.Some? {
      return Err(FieldTooWide(wide.value.name, Width(wide.value)));
    }
    var requested := SumWidths(fields);
    if requested > Capacity(bank) {
      return Err(CapacityExceeded(requested, Capacity(bank)));
    }
    var strategy := ParseStrategy(strategyName);
    if strategy.None? {
      return Err(UnknownStrategy(strategyName));
    }
    var ms := PackSequential(bank.baseCr, Order(strategy.value, fields));
    if LastRegister(ms) > LastCr(bank) {
      return Err(RegistersExhausted(LastRegister(ms), LastCr(bank)));
    }
    return Ok(ms);
  }

  // ---------------------------------------------------------------------------
  // Validation

  /** Every type in the table fits one register, so the width check never rejects a field. */
  lemma {:induction false} NoFieldTooWide(fs: seq<Field>)
    ensures FindTooWide(fs) == None
  {
    assert forall i :: 0 <= i < |fs| ==> Width(fs[i]) <= RegisterWidth;
  }

  /**
   * The error each input meets, in check order: the empty list always succeeds,
   * then repeated names, then the capacity, then the strategy name.
   */
  lemma {:induction false} MapErrors(bank: Bank, fs: seq<Field>, strategyName: string)
    ensures fs == [] ==> MapResult(bank, fs, strategyName) == Ok([])
    ensures fs != [] && !UniqueNames(fs) ==>
      MapResult(bank, fs, strategyName).Err? && MapResult(bank, fs, strategyName).error.DuplicateNames? &&
      exists i, j :: 0 <= i < j < |fs| && fs[i].name == fs[j].name == MapResult(bank, fs, strategyName).error.name
    ensures fs != [] && UniqueNames(fs) && SumWidths(fs) > Capacity(bank) ==>
      MapResult(bank, fs, strategyName) == Err(CapacityExceeded(SumWidths(fs), Capacity(bank)))
    ensures fs != [] && UniqueNames(fs) && SumWidths(fs) <= Capacity(bank) && ParseStrategy(strategyName).None? ==>
      MapResult(bank, fs, strategyName) == Err(UnknownStrategy(strategyName))
  {
    NoFieldTooWide(fs);
  }

  /** Input that passes every check is packed in the strategy's order. */
  lemma {:induction false} Accepted(bank: Bank, fs: seq<Field>, strategyName: string)
    requires fs != [] && UniqueNames(fs) && SumWidths(fs) <= Capacity(bank) && ParseStrategy(strategyName).Some?
    ensures MapResultAsWritten(bank, fs, strategyName) == Ok(Pack(bank.baseCr, Order(ParseStrategy(strategyName).value, fs)))
  {
    NoFieldTooWide(fs);
  }

  /** Success exactly when every check passes and the layout stays inside the bank. */
  lemma {:induction false} MapAccepts(bank: Bank, fs: seq<Field>, strategyName: string)
    ensures MapResult(bank, fs, strategyName).Ok? <==>
      fs == [] ||
      (UniqueNames(fs) && SumWidths(fs) <= Capacity(bank) && ParseStrategy(strategyName).Some? &&
       LastRegister(Pack(bank.baseCr, Order(ParseStrategy(strategyName).value, fs))) <= LastCr(bank))
  {
    NoFieldTooWide(fs);
  }

  /**
   * A successful mapping holds every requested field once, each in a slice as wide
   * as its type, inside bits 31..0 of a register of the bank; slices of one register
   * never overlap, and the slices use exactly the requested bits.
   */
  lemma {:induction false} MapSuccess(bank: Bank, fs: seq<Field>, strategyName: string)
    requires MapResult(bank, fs, strategyName).Ok?
    ensures var ms := MapResult(bank, fs, strategyName).value;
      && |ms| == |fs|
      && multiset(Requests(ms)) == multiset(fs)
      && (fs != [] ==> ParseStrategy(strategyName).Some? &&
                       MsbFirstLayout(bank.baseCr, Order(ParseStrategy(strategyName).value, fs), ms))
      && (forall i :: 0 <= i < |ms| ==>
            SliceWidth(ms[i]) == BitWidth(ms[i].dataType) &&
            0 <= ms[i].lsb <= ms[i].msb <= TopBit &&
            bank.baseCr <= ms[i].crNumber <= LastCr(bank))
      && (forall i, j :: 0 <= i < |ms| && 0 <= j < |ms| && i != j && ms[i].crNumber == ms[j].crNumber ==>
            ms[i].lsb > ms[j].msb || ms[j].lsb > ms[i].msb)
      && SumSliceWidths(ms) == SumWidths(fs) <= Capacity(bank)
  {
    NoFieldTooWide(fs);
    var ms := MapResult(bank, fs, strategyName).value;
    if fs != [] {
      var s := ParseStrategy(strategyName).value;
      var order := Order(s, fs);
      assert ms == Pack(bank.baseCr, order);
      PackIsMsbFirst(bank.baseCr, order);
      OrderIsPermutation(s, fs);
      PlacedLayout(bank, order, fs, ms);
    }
  }

  /** An MSB-first layout of a permutation of `fs` that ends inside the bank has the properties above. */
  lemma {:induction false} PlacedLayout(bank: Bank, order: seq<Field>, fs: seq<Field>, ms: seq<RegisterMapping>)
    requires MsbFirstLayout(bank.baseCr, order, ms) && ms != []
    requires multiset(order) == multiset(fs) && |order| == |fs|
    requires LastRegister(ms) <= LastCr(bank) && SumWidths(fs) <= Capacity(bank)
    ensures |ms| == |fs|
    ensures multiset(Requests(ms)) == multiset(fs)
    ensures forall i :: 0 <= i < |ms| ==>
      SliceWidth(ms[i]) == BitWidth(ms[i].dataType) &&
      0 <= ms[i].lsb <= ms[i].msb <= TopBit &&
      bank.baseCr <= ms[i].crNumber <= LastCr(bank)
    ensures forall i, j :: 0 <= i < |ms| && 0 <= j < |ms| && i != j && ms[i].crNumber == ms[j].crNumber ==>
      ms[i].lsb > ms[j].msb || ms[j].lsb > ms[i].msb
    ensures SumSliceWidths(ms) == SumWidths(fs)
  {
    LayoutProperties(bank.baseCr, order, ms);
    CarriesRequests(order, ms);
    Conservation(order, ms);
    SumWidthsPermutation(order, fs);
    forall i | 0 <= i < |ms| ensures ms[i].crNumber <= LastCr(bank) {
      if i < |ms| - 1 {
        LayoutOrderedFrom(bank.baseCr, order, ms, i, |ms| - 1);
      }
    }
  }

  // ---------------------------------------------------------------------------
  // Strategies through map

  /** A successful non-empty mapping is the parsed strategy's order, packed. */
  lemma {:induction false} MapPlaces(bank: Bank, fs: seq<Field>, strategyName: string)
    requires MapResult(bank, fs, strategyName).Ok? && fs != []
    ensures ParseStrategy(strategyName).Some?
    ensures MapResult(bank, fs, strategyName).value == Pack(bank.baseCr, Order(ParseStrategy(strategyName).value, fs))
  {
    NoFieldTooWide(fs);
  }

  /** first_fit places the fields in the order given. */
  lemma {:induction false} FirstFitKeepsOrder(bank: Bank, fs: seq<Field>)
    requires MapResult(bank, fs, "first_fit").Ok?
    ensures Requests(MapResult(bank, fs, "first_fit").value) == fs
    ensures MapResult(bank, fs, "first_fit").value == Pack(bank.baseCr, fs)
  {
    if fs != [] {
      MapPlaces(bank, fs, "first_fit");
      assert ParseStrategy("first_fit") == Some(FirstFit);
      PackIsMsbFirst(bank.baseCr, fs);
      CarriesRequests(fs, Pack(bank.baseCr, fs));
    }
  }

  /** best_fit places the widest fields first, equal widths in input order. */
  lemma {:induction false} BestFitMapping(bank: Bank, fs: seq<Field>)
    requires MapResult(bank, fs, "best_fit").Ok?
    ensures var ms := MapResult(bank, fs, "best_fit").value;
      && Requests(ms) == ByWidthDescending(fs)
      && (forall i, j :: 0 <= i < j < |ms| ==> SliceWidth(ms[i]) >= SliceWidth(ms[j]))
  {
    if fs != [] {
      MapPlaces(bank, fs, "best_fit");
      assert ParseStrategy("best_fit") == Some(BestFit);
      var order := ByWidthDescending(fs);
      PackIsMsbFirst(bank.baseCr, order);
      CarriesRequests(order, Pack(bank.baseCr, order));
      BestFitOrder(fs);
    }
  }

  /** A name repeated in a reordering is repeated in the original. */
  lemma {:induction false} RepeatedNameMoves(a: seq<Field>, b: seq<Field>, i: nat, j: nat)
    requires multiset(a) == multiset(b) && i < j < |b| && b[i].name == b[j].name
    ensures !UniqueNames(a)
  {
    if b[i] == b[j] {
      CountTwo(b, i, j);
      TwoOccurrences(a, b[i]);
      var p, q :| 0 <= p < q < |a| && a[p] == b[i] && a[q] == b[i];
      assert a[p].name == a[q].name;
    } else {
      assert b[i] in multiset(a) && b[j] in multiset(a);
      var p :| 0 <= p < |a| && a[p] == b[i];
      var q :| 0 <= q < |a| && a[q] == b[j];
      if p < q {
        assert a[p].name == a[q].name;
      } else {
        assert q < p && a[q].name == a[p].name;
      }
    }
  }

  /** Distinct names survive any reordering. */
  lemma {:induction false} UniqueNamesPermutation(a: seq<Field>, b: seq<Field>)
    requires multiset(a) == multiset(b) && UniqueNames(a)
    ensures UniqueNames(b)
  {
    forall i, j | 0 <= i < j < |b| ensures b[i].name != b[j].name {
      if b[i].name == b[j].name {
        RepeatedNameMoves(a, b, i, j);
      }
    }
  }

  /** best_fit accepts or rejects reorderings of the same fields alike. */
  lemma {:induction false} BestFitAcceptsPermutations(bank: Bank, a: seq<Field>, b: seq<Field>)
    requires multiset(a) == multiset(b)
    ensures MapResult(bank, a, "best_fit").Ok? <==> MapResult(bank, b, "best_fit").Ok?
  {
    assert |a| == |multiset(a)| == |multiset(b)| == |b|;
    MapAccepts(bank, a, "best_fit");
    MapAccepts(bank, b, "best_fit");
    if UniqueNames(a) {
      UniqueNamesPermutation(a, b);
    }
    if UniqueNames(b) {
      UniqueNamesPermutation(b, a);
    }
    SumWidthsPermutation(a, b);
    BestFitOrderIndependent(bank.baseCr, a, b);
    var pa, pb := Pack(bank.baseCr, ByWidthDescending(a)), Pack(bank.baseCr, ByWidthDescending(b));
    if a != [] {
      assert Slots(pa)[|a| - 1] == Slots(pb)[|a| - 1];
      assert LastRegister(pa) == LastRegister(pb);
    }
  }

  /**
   * When best_fit accepts reorderings of the same fields it fills the same slices,
   * and gives the very same mappings when equal-width fields come in the same relative order.
   */
  lemma {:induction false} BestFitMapOrderIndependent(bank: Bank, a: seq<Field>, b: seq<Field>)
    requires multiset(a) == multiset(b)
    requires MapResult(bank, a, "best_fit").Ok?
    ensures MapResult(bank, b, "best_fit").Ok?
    ensures Slots(MapResult(bank, a, "best_fit").value) == Slots(MapResult(bank, b, "best_fit").value)
    ensures (forall w :: Filter(a, WidthKey, w) == Filter(b, WidthKey, w)) ==>
      MapResult(bank, a, "best_fit") == MapResult(bank, b, "best_fit")
  {
    BestFitAcceptsPermutations(bank, a, b);
    assert |a| == |multiset(a)| == |multiset(b)| == |b|;
    BestFitOrderIndependent(bank.baseCr, a, b);
    if a != [] {
      assert MapResult(bank, a, "best_fit").value == Pack(bank.baseCr, ByWidthDescending(a)) by {
        MapAccepts(bank, a, "best_fit");
        NoFieldTooWide(a);
      }
      assert MapResult(bank, b, "best_fit").value == Pack(bank.baseCr, ByWidthDescending(b)) by {
        MapAccepts(bank, b, "best_fit");
        NoFieldTooWide(b);
      }
    }
  }

  /** type_clustering groups categories in precedence order, booleans last. */
  lemma {:induction false} ClusteringMapping(bank: Bank, fs: seq<Field>)
    requires MapResult(bank, fs, "type_clustering").Ok?
    ensures var placed := Requests(MapResult(bank, fs, "type_clustering").value);
      && placed == ClusterByCategory(fs)
      && Descending(placed, PrecedenceKey)
      && CategoriesContiguous(placed)
      && BooleansLast(placed)
  {
    ClusterProperties(fs);
    if fs != [] {
      MapPlaces(bank, fs, "type_clustering");
      assert ParseStrategy("type_clustering") == Some(TypeClustering);
      var order := ClusterByCategory(fs);
      PackIsMsbFirst(bank.baseCr, order);
      CarriesRequests(order, Pack(bank.baseCr, order));
    } else {
      assert MapResult(bank, fs, "type_clustering").value == [];
      assert ClusterByCategory(fs) == [] + [] + [] + [];
    }
  }

  // ---------------------------------------------------------------------------
  // Capacity boundary

  /**
   * Up to one full-width field per register succeeds under every strategy: each
   * field fills bits 31..0 of its own register, in consecutive registers from the base.
   */
  lemma {:induction false} FullWidthFieldsFit(bank: Bank, fs: seq<Field>, strategyName: string)
    requires UniqueNames(fs) && ParseStrategy(strategyName).Some?
    requires forall i :: 0 <= i < |fs| ==> Width(fs[i]) == RegisterWidth
    requires |fs| <= bank.registerCount
    ensures MapResult(bank, fs, strategyName).Ok?
    ensures |MapResult(bank, fs, strategyName).value| == |fs|
    ensures var ms := MapResult(bank, fs, strategyName).value;
      var order := Order(ParseStrategy(strategyName).value, fs);
      forall i :: 0 <= i < |fs| ==>
        ms[i] == RegisterMapping(order[i].name, order[i].dataType, bank.baseCr + i, TopBit, 0)
  {
    NoFieldTooWide(fs);
    UniformWidthSum(fs, RegisterWidth);
    var order := Order(ParseStrategy(strategyName).value, fs);
    OrderIsPermutation(ParseStrategy(strategyName).value, fs);
    forall k | 0 <= k < |order| ensures Width(order[k]) == RegisterWidth {
      assert order[k] in multiset(fs);
    }
    FullWidthFields(bank.baseCr, order);
  }

  /** Fields of one width that together exceed the bank fail the capacity check, whatever the strategy. */
  lemma {:induction false} UniformWidthOverflow(bank: Bank, fs: seq<Field>, w: nat, strategyName: string)
    requires UniqueNames(fs)
    requires forall i :: 0 <= i < |fs| ==> Width(fs[i]) == w
    requires |fs| * w > Capacity(bank)
    ensures MapResult(bank, fs, strategyName) == Err(CapacityExceeded(|fs| * w, Capacity(bank)))
  {
    NoFieldTooWide(fs);
    UniformWidthSum(fs, w);
  }

  // ---------------------------------------------------------------------------
  // The register-limit check

  /** The bank check only turns layouts that run past the last register into errors. */
  lemma {:induction false} CorrectionOnlyAddsExhaustion(bank: Bank, fs: seq<Field>, strategyName: string)
    ensures var w := MapResultAsWritten(bank, fs, strategyName);
      MapResult(bank, fs, strategyName) ==
        if w.Ok? && w.value != [] && LastRegister(w.value) > LastCr(bank)
        then Err(RegistersExhausted(LastRegister(w.value), LastCr(bank)))
        else w
  {
  }

  /** Accepted input under first_fit is packed in the order given. */
  lemma {:induction false} FirstFitAccepted(bank: Bank, fs: seq<Field>)
    requires fs != [] && UniqueNames(fs) && SumWidths(fs) <= Capacity(bank)
    ensures MapResultAsWritten(bank, fs, "first_fit") == Ok(Pack(bank.baseCr, fs))
  {
    Accepted(bank, fs, "first_fit");
    assert ParseStrategy("first_fit") == Some(FirstFit);
  }

  /**
   * A layout whose neighbouring fields never share a register needs one register
   * per field, however few bits it requests: with more fields than registers the
   * capacity check passes and the layout runs past the bank.
   */
  lemma {:induction false} CapacityCheckMissesRegisterLimit(bank: Bank, fs: seq<Field>, strategyName: string)
    requires UniqueNames(fs) && SumWidths(fs) <= Capacity(bank)
    requires forall k :: 0 < k < |fs| ==> Width(fs[k - 1]) + Width(fs[k]) > RegisterWidth
    requires |fs| > bank.registerCount
    requires ParseStrategy(strategyName) == Some(FirstFit)
    ensures MapResultAsWritten(bank, fs, strategyName).Ok?
    ensures LastRegister(MapResultAsWritten(bank, fs, strategyName).value) == bank.baseCr + |fs| - 1 > LastCr(bank)
    ensures MapResult(bank, fs, strategyName) == Err(RegistersExhausted(bank.baseCr + |fs| - 1, LastCr(bank)))
  {
    Accepted(bank, fs, strategyName);
    OwnRegisters(bank.baseCr, fs, |fs| - 1);
  }
}
