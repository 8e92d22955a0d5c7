/**
 * The three packing strategies. Each one only reorders the fields; the
 * placement itself is the shared most-significant-bit-first walk.
 */
module PackingStrategies {
  import opened Results
  import opened BasicAppTypes
  import opened RegisterLayout
  import opened KeyedOrder

  datatype Strategy = FirstFit | BestFit | TypeClustering

  function StrategyName(s: Strategy): string
  {
    match s
    case FirstFit => "first_fit"
    case BestFit => "best_fit"
    case TypeClustering => "type_clustering"
  }

  /** Recognises exactly the three strategy names. */
  function ParseStrategy(name: string): (r: Option<Strategy>)
    ensures r.Some? <==> name == "first_fit" || name == "best_fit" || name == "type_clustering"
    ensures r.Some? ==> StrategyName(r.value) == name
  {
    if name == "first_fit" then Some(FirstFit)
    else if name == "best_fit" then Some(BestFit)
    else if name == "type_clustering" then Some(TypeClustering)
    else None
  }

  lemma {:induction false} StrategyNameParses(s: Strategy)
    ensures ParseStrategy(StrategyName(s)) == Some(s)
  {
  }

  function WidthKey(f: Field): int
  {
    Width(f)
  }

  /** Group order of type_clustering: voltage outputs, voltage inputs, durations, booleans. */
  function Precedence(c: Category): (p: int)
    ensures 0 <= p <= 3
  {
    match c
    case VoltageOutput => 3
    case VoltageInput => 2
    case Duration => 1
    case BooleanFlag => 0
  }

  function CategoryOf(f: Field): Category
  {
    Metadata(f.dataType).category
  }

  function PrecedenceKey(f: Field): int
  {
    Precedence(CategoryOf(f))
  }

  /** best_fit: largest width first, equal widths in input order. */
  function ByWidthDescending(fs: seq<Field>): seq<Field>
  {
    Sort(fs, WidthKey)
  }

  /** type_clustering: the four groups in precedence order, each in input order. */
  function ClusterByCategory(fs: seq<Field>): seq<Field>
  {
    Filter(fs, PrecedenceKey, 3) + Filter(fs, PrecedenceKey, 2)
      + Filter(fs, PrecedenceKey, 1) + Filter(fs, PrecedenceKey, 0)
  }

  function Order(s: Strategy, fs: seq<Field>): seq<Field>
  {
    match s
    case FirstFit => fs
    case BestFit => ByWidthDescending(fs)
    case TypeClustering => ClusterByCategory(fs)
  }

  // ---------------------------------------------------------------------------
  // best_fit

  /**
   * best_fit reorders without losing or adding a field, puts widths in
   * non-increasing order and keeps equal-width fields in input order.
   */
  lemma {:induction false} BestFitOrder(fs: seq<Field>)
    ensures multiset(ByWidthDescending(fs)) == multiset(fs)
    ensures forall i, j :: 0 <= i < j < |fs| ==>
      Width(ByWidthDescending(fs)[i]) >= Width(ByWidthDescending(fs)[j])
    ensures forall w :: Filter(ByWidthDescending(fs), WidthKey, w) == Filter(fs, WidthKey, w)
  {
    SortPermutes(fs, WidthKey);
    SortDescending(fs, WidthKey);
    forall w ensures Filter(ByWidthDescending(fs), WidthKey, w) == Filter(fs, WidthKey, w) {
      SortStable(fs, WidthKey, w);
    }
  }

  /** No other order has both properties: best_fit's order is determined by them. */
  lemma {:induction false} BestFitUnique(fs: seq<Field>, y: seq<Field>)
    requires Descending(y, WidthKey)
    requires forall w :: Filter(y, WidthKey, w) == Filter(fs, WidthKey, w)
    ensures y == ByWidthDescending(fs)
  {
    SortCharacterization(fs, y, WidthKey);
  }

  /**
   * For any two orders of the same fields, best_fit fills exactly the same
   * slices; when equal-width fields come in the same relative order it yields
   * the very same mappings.
   */
  lemma {:induction false} BestFitOrderIndependent(baseCr: int, a: seq<Field>, b: seq<Field>)
    requires multiset(a) == multiset(b)
    ensures Slots(Pack(baseCr, ByWidthDescending(a))) == Slots(Pack(baseCr, ByWidthDescending(b)))
    ensures (forall w :: Filter(a, WidthKey, w) == Filter(b, WidthKey, w)) ==>
      Pack(baseCr, ByWidthDescending(a)) == Pack(baseCr, ByWidthDescending(b))
  {
    var sa, sb := ByWidthDescending(a), ByWidthDescending(b);
    SortedKeysPermutationInvariant(a, b, WidthKey);
    assert |sa| == |sb| by {
      assert |sa| == |multiset(sa)| == |multiset(b)| == |sb|;
    }
    forall i | 0 <= i < |sa| ensures Width(sa[i]) == Width(sb[i]) {
      assert Keys(sa, WidthKey)[i] == Keys(sb, WidthKey)[i];
    }
    PlacementDependsOnWidths(Cursor(baseCr, TopBit), sa, sb);
    if forall w :: Filter(a, WidthKey, w) == Filter(b, WidthKey, w) {
      BestFitOrder(b);
      SortDescending(b, WidthKey);
      BestFitUnique(a, sb);
    }
  }

  // ---------------------------------------------------------------------------
  // type_clustering

  lemma {:induction false} FilterAbsent(fs: seq<Field>, k: int)
    requires k < 0 || k > 3
    ensures Filter(fs, PrecedenceKey, k) == []
    decreases |fs|
  {
    if fs != [] {
      FilterAbsent(fs[1..], k);
    }
  }

  lemma {:induction false} DescendingGroups(a: seq<Field>, b: seq<Field>, ka: int, kb: int)
    requires forall x :: x in a ==> PrecedenceKey(x) == ka
    requires Descending(b, PrecedenceKey)
    requires forall x :: x in b ==> PrecedenceKey(x) <= ka
    ensures Descending(a + b, PrecedenceKey)
  {
    var s := a + b;
    forall i, j | 0 <= i < j < |s| ensures PrecedenceKey(s[i]) >= PrecedenceKey(s[j]) {
      if j < |a| {
        assert s[i] in a && s[j] in a;
      } else if i < |a| {
        assert s[i] in a && s[j] == b[j - |a|] && b[j - |a|] in b;
      } else {
        assert s[i] == b[i - |a|] && s[j] == b[j - |a|];
      }
    }
  }

  /** Filtering one group for key `k` leaves the group when it is `k`'s, nothing otherwise. */
  lemma {:induction false} GroupFilter(fs: seq<Field>, j: int, k: int)
    ensures Filter(Filter(fs, PrecedenceKey, j), PrecedenceKey, k) == if j == k then Filter(fs, PrecedenceKey, k) else []
  {
    FilterOfFilter(fs, PrecedenceKey, j, k);
  }

  lemma {:induction false} FilterOfCluster(fs: seq<Field>, k: int)
    ensures Filter(ClusterByCategory(fs), PrecedenceKey, k) == Filter(fs, PrecedenceKey, k)
  {
    var f3, f2, f1, f0 := Filter(fs, PrecedenceKey, 3), Filter(fs, PrecedenceKey, 2),
                          Filter(fs, PrecedenceKey, 1), Filter(fs, PrecedenceKey, 0);
    var g3, g2, g1, g0 := Filter(f3, PrecedenceKey, k), Filter(f2, PrecedenceKey, k),
                          Filter(f1, PrecedenceKey, k), Filter(f0, PrecedenceKey, k);
    FilterAppend(f3 + f2 + f1, f0, PrecedenceKey, k);
    FilterAppend(f3 + f2, f1, PrecedenceKey, k);
    FilterAppend(f3, f2, PrecedenceKey, k);
    assert Filter(ClusterByCategory(fs), PrecedenceKey, k) == g3 + g2 + g1 + g0;
    GroupFilter(fs, 3, k);
    GroupFilter(fs, 2, k);
    GroupFilter(fs, 1, k);
    GroupFilter(fs, 0, k);
    if k == 3 {
      assert g3 + g2 + g1 + g0 == f3;
    } else if k == 2 {
      assert g3 + g2 + g1 + g0 == f2;
    } else if k == 1 {
      assert g3 + g2 + g1 + g0 == f1;
    } else if k == 0 {
      assert g3 + g2 + g1 + g0 == f0;
    } else {
      FilterAbsent(fs, k);
      assert g3 + g2 + g1 + g0 == [];
    }
  }

  /** type_clustering is the stable descending sort by group precedence. */
  lemma {:induction false} ClusterIsSort(fs: seq<Field>)
    ensures ClusterByCategory(fs) == Sort(fs, PrecedenceKey)
  {
    var f3, f2, f1, f0 := Filter(fs, PrecedenceKey, 3), Filter(fs, PrecedenceKey, 2),
                          Filter(fs, PrecedenceKey, 1), Filter(fs, PrecedenceKey, 0);
    DescendingGroups(f0, [], 0, 0);
    assert f0 + [] == f0;
    DescendingGroups(f1, f0, 1, 0);
    DescendingGroups(f2, f1 + f0, 2, 0);
    DescendingGroups(f3, f2 + (f1 + f0), 3, 0);
    assert ClusterByCategory(fs) == f3 + (f2 + (f1 + f0));
    forall k ensures Filter(ClusterByCategory(fs), PrecedenceKey, k) == Filter(fs, PrecedenceKey, k) {
      FilterOfCluster(fs, k);
    }
    SortCharacterization(fs, ClusterByCategory(fs), PrecedenceKey);
  }

  lemma {:induction false} PrecedenceInjective(c: Category, d: Category)
    ensures Precedence(c) == Precedence(d) <==> c == d
  {
  }

  /** Fields of one category sit in one contiguous run. */
  ghost predicate CategoriesContiguous(s: seq<Field>)
  {
    forall i, j, k :: 0 <= i < j < k < |s| && CategoryOf(s[i]) == CategoryOf(s[k]) ==>
      CategoryOf(s[j]) == CategoryOf(s[i])
  }

  /** Nothing but booleans follows a boolean. */
  ghost predicate BooleansLast(s: seq<Field>)
  {
    forall i, j :: 0 <= i < j < |s| && CategoryOf(s[i]) == BooleanFlag ==> CategoryOf(s[j]) == BooleanFlag
  }

  /** An order by non-increasing precedence keeps categories together and booleans last. */
  lemma {:induction false} PrecedenceOrderGroups(s: seq<Field>)
    requires Descending(s, PrecedenceKey)
    ensures CategoriesContiguous(s) && BooleansLast(s)
  {
    forall i, j, k | 0 <= i < j < k < |s| && CategoryOf(s[i]) == CategoryOf(s[k])
      ensures CategoryOf(s[j]) == CategoryOf(s[i])
    {
      assert PrecedenceKey(s[i]) >= PrecedenceKey(s[j]) >= PrecedenceKey(s[k]);
      PrecedenceInjective(CategoryOf(s[j]), CategoryOf(s[i]));
    }
    forall i, j | 0 <= i < j < |s| && CategoryOf(s[i]) == BooleanFlag
      ensures CategoryOf(s[j]) == BooleanFlag
    {
      assert PrecedenceKey(s[i]) >= PrecedenceKey(s[j]);
      PrecedenceInjective(CategoryOf(s[j]), BooleanFlag);
    }
  }

  /**
   * type_clustering keeps every field, keeps each category's fields in input
   * order, orders categories by precedence (voltage outputs, voltage inputs,
   * durations, booleans), so each category is one contiguous run and booleans come last.
   */
  lemma {:induction false} ClusterProperties(fs: seq<Field>)
    ensures multiset(ClusterByCategory(fs)) == multiset(fs)
    ensures forall c :: Filter(ClusterByCategory(fs), PrecedenceKey, Precedence(c)) == Filter(fs, PrecedenceKey, Precedence(c))
    ensures Descending(ClusterByCategory(fs), PrecedenceKey)
    ensures CategoriesContiguous(ClusterByCategory(fs))
    ensures BooleansLast(ClusterByCategory(fs))
  {
    var s := ClusterByCategory(fs);
    ClusterIsSort(fs);
    SortPermutes(fs, PrecedenceKey);
    SortDescending(fs, PrecedenceKey);
    forall c ensures Filter(s, PrecedenceKey, Precedence(c)) == Filter(fs, PrecedenceKey, Precedence(c)) {
      FilterOfCluster(fs, Precedence(c));
    }
    PrecedenceOrderGroups(s);
  }

  /** Every strategy only reorders: the same fields, the same number of them. */
  lemma {:induction false} OrderIsPermutation(s: Strategy, fs: seq<Field>)
    ensures multiset(Order(s, fs)) == multiset(fs)
    ensures |Order(s, fs)| == |fs|
  {
    match s
    case FirstFit =>
    case BestFit =>
      SortPermutes(fs, WidthKey);
    case TypeClustering =>
      ClusterIsSort(fs);
      SortPermutes(fs, PrecedenceKey);
  }
}
