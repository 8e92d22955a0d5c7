/**
 * generate_report: the totals of used and available bits and, per register, the
 * mappings it holds, highest slice first.
 */
module MappingReports {
  import opened BasicAppTypes
  import opened RegisterLayout
  import opened KeyedOrder
  import opened PackingStrategies
  import opened RegisterMapper

  datatype MappingReport = MappingReport(
    totalBitsUsed: int,
    totalBitsAvailable: nat,
    registerMap: map<int, seq<RegisterMapping>>)

  function CrKey(m: RegisterMapping): int
  {
    m.crNumber
  }

  function MsbKey(m: RegisterMapping): int
  {
    m.msb
  }

  /** The registers some mapping occupies. */
  function Registers(ms: seq<RegisterMapping>): (rs: set<int>)
    ensures forall c :: c in rs <==> exists i :: 0 <= i < |ms| && ms[i].crNumber == c
  {
    set i | 0 <= i < |ms| :: ms[i].crNumber
  }

  /** Per register, the mappings in it in the order given. */
  function Groups(ms: seq<RegisterMapping>): map<int, seq<RegisterMapping>>
  {
    map c | c in Registers(ms) :: Filter(ms, CrKey, c)
  }

  /** The report of a list of mappings against a bank; each register's list is reordered highest msb first. */
  function Report(bank: Bank, ms: seq<RegisterMapping>): MappingReport
  {
    MappingReport(SumSliceWidths(ms), Capacity(bank),
                  map c | c in Registers(ms) :: Sort(Filter(ms, CrKey, c), MsbKey))
  }

  lemma {:induction false} RegistersSnoc(pre: seq<RegisterMapping>, m: RegisterMapping)
    ensures Registers(pre + [m]) == Registers(pre) + {m.crNumber}
  {
    var s := pre + [m];
    forall c ensures c in Registers(s) <==> c in Registers(pre) + {m.crNumber} {
      if c in Registers(s) {
        var j :| 0 <= j < |s| && s[j].crNumber == c;
        if j < |pre| { assert pre[j].crNumber == c; }
      }
      if c in Registers(pre) {
        var j :| 0 <= j < |pre| && pre[j].crNumber == c;
        assert s[j].crNumber == c;
      }
      if c == m.crNumber {
        assert s[|pre|].crNumber == c;
      }
    }
  }

  lemma {:induction false} FilterSnoc<T>(pre: seq<T>, x: T, key: T -> int, k: int)
    ensures Filter(pre + [x], key, k) == Filter(pre, key, k) + (if key(x) == k then [x] else [])
  {
    FilterAppend(pre, [x], key, k);
    assert [x][1..] == [];
  }

  /** Adding one mapping appends it to its register's group, opening the group if it is the register's first. */
  lemma {:induction false} GroupsStep(pre: seq<RegisterMapping>, m: RegisterMapping)
    ensures var g := Groups(pre);
      Groups(pre + [m]) == g[m.crNumber := (if m.crNumber in g then g[m.crNumber] else []) + [m]]
  {
    var g, g' := Groups(pre), Groups(pre + [m]);
    var h := g[m.crNumber := (if m.crNumber in g then g[m.crNumber] else []) + [m]];
    RegistersSnoc(pre, m);
    forall c | c in Registers(pre + [m]) ensures g'[c] == h[c] {
      FilterSnoc(pre, m, CrKey, c);
      if c !in Registers(pre) {
        FilterNone(pre, CrKey, c);
      }
    }
  }

  /** `generate_report`: one pass sums the slice widths and groups by register; then each group is ordered by msb. */
  method GenerateReport(bank: Bank, ms: seq<RegisterMapping>) returns (r: MappingReport)
    ensures r == Report(bank, ms)
  {
    var used := 0;
    var groups: map<int, seq<RegisterMapping>> := map[];
    assert Groups(ms[..0]) == map[];
    for i := 0 to |ms|
      invariant used == SumSliceWidths(ms[..i])
      invariant groups == Groups(ms[..i])
    {
      var m := ms[i];
      assert ms[..i + 1] == ms[..i] + [m];
      GroupsStep(ms[..i], m);
      assert [] + [m] == [m];
      if m.crNumber in groups {
        groups := groups[m.crNumber := groups[m.crNumber] + [m]];
      } else {
        groups := groups[m.crNumber := [m]];
      }
      assert ms[..i + 1][..i] == ms[..i];
      used := used + (m.msb - m.lsb + 1);
    }
    assert ms[..|ms|] == ms;
    r := MappingReport(used, Capacity(bank), map c | c in groups :: Sort(groups[c], MsbKey));
  }

  // ---------------------------------------------------------------------------
  // What a report says

  /**
   * The report's registers are exactly those some mapping occupies; each register's
   * list holds exactly its mappings, highest msb first, and every mapping is listed
   * under its own register.
   */
  lemma {:induction false} ReportGroups(bank: Bank, ms: seq<RegisterMapping>)
    ensures var r := Report(bank, ms);
      && r.totalBitsAvailable == Capacity(bank)
      && (forall c :: c in r.registerMap <==> exists i :: 0 <= i < |ms| && ms[i].crNumber == c)
      && (forall c :: c in r.registerMap ==>
            multiset(r.registerMap[c]) == multiset(Filter(ms, CrKey, c)) &&
            Descending(r.registerMap[c], MsbKey) &&
            forall m :: m in r.registerMap[c] ==> m in ms && m.crNumber == c)
      && (forall i :: 0 <= i < |ms| ==> ms[i] in r.registerMap[ms[i].crNumber])
  {
    var r := Report(bank, ms);
    forall c | c in r.registerMap
      ensures multiset(r.registerMap[c]) == multiset(Filter(ms, CrKey, c))
      ensures Descending(r.registerMap[c], MsbKey)
      ensures forall m :: m in r.registerMap[c] ==> m in ms && m.crNumber == c
    {
      SortPermutes(Filter(ms, CrKey, c), MsbKey);
      SortDescending(Filter(ms, CrKey, c), MsbKey);
      forall m | m in r.registerMap[c] ensures m in ms && m.crNumber == c {
        assert m in multiset(r.registerMap[c]);
      }
    }
    forall i | 0 <= i < |ms| ensures ms[i] in r.registerMap[ms[i].crNumber] {
      var c := ms[i].crNumber;
      FilterMember(ms, CrKey, i);
      SortPermutes(Filter(ms, CrKey, c), MsbKey);
      assert ms[i] in multiset(Filter(ms, CrKey, c));
    }
  }

  /** No element has key `k`: the filter keeps nothing. */
  lemma {:induction false} FilterNone<T>(s: seq<T>, key: T -> int, k: int)
    requires forall i :: 0 <= i < |s| ==> key(s[i]) != k
    ensures Filter(s, key, k) == []
    decreases |s|
  {
    if s != [] {
      assert forall i :: 0 <= i < |s[1..]| ==> s[1..][i] == s[i + 1];
      FilterNone(s[1..], key, k);
    }
  }

  /** An element is kept by the filter for its own key. */
  lemma {:induction false} FilterMember<T>(s: seq<T>, key: T -> int, i: nat)
    requires i < |s|
    ensures s[i] in Filter(s, key, key(s[i]))
    decreases i
  {
    if i > 0 {
      FilterMember(s[1..], key, i - 1);
      assert s[1..][i - 1] == s[i];
    }
  }

  /** Filtering a list whose equal-key members already run highest second key first keeps that order. */
  lemma {:induction false} FilterKeepsDescending<T>(s: seq<T>, key: T -> int, second: T -> int, k: int)
    requires forall i, j :: 0 <= i < j < |s| && key(s[i]) == key(s[j]) ==> second(s[i]) >= second(s[j])
    ensures Descending(Filter(s, key, k), second)
    decreases |s|
  {
    if s != [] {
      FilterKeepsDescending(s[1..], key, second, k);
      if key(s[0]) == k {
        var t := Filter(s[1..], key, k);
        forall y | y in t ensures second(s[0]) >= second(y) {
          var j :| 0 <= j < |s[1..]| && s[1..][j] == y;
          assert s[j + 1] == y;
        }
        var f := [s[0]] + t;
        forall i, j | 0 <= i < j < |f| ensures second(f[i]) >= second(f[j]) {
          assert f[j] == t[j - 1];
          if i > 0 { assert f[i] == t[i - 1]; }
        }
      }
    }
  }

  /** A set of consecutive register numbers. */
  function Span(lo: int, hi: int): (rs: set<int>)
    ensures forall c :: c in rs <==> lo <= c <= hi
    ensures |rs| == if hi < lo then 0 else hi - lo + 1
    decreases hi - lo
  {
    if hi < lo then {} else
      var rest := Span(lo + 1, hi);
      assert lo !in rest;
      {lo} + rest
  }

  /** An MSB-first layout occupies every register from the base up to its last one, and no other. */
  lemma {:induction false} LayoutRegisters(baseCr: int, fs: seq<Field>, ms: seq<RegisterMapping>)
    requires MsbFirstLayout(baseCr, fs, ms) && ms != []
    ensures Registers(ms) == Span(baseCr, LastRegister(ms))
  {
    LayoutProperties(baseCr, fs, ms);
    forall c ensures c in Registers(ms) <==> c in Span(baseCr, LastRegister(ms)) {
      if c in Registers(ms) {
        var i :| 0 <= i < |ms| && ms[i].crNumber == c;
        if i < |ms| - 1 {
          assert Precedes(ms[i], ms[|ms| - 1]);
        }
      }
      if baseCr <= c <= LastRegister(ms) {
        RegistersContiguous(baseCr, fs, ms, c);
      }
    }
  }

  /** In an MSB-first layout each register's mappings already run highest msb first. */
  lemma {:induction false} LayoutGroupsOrdered(baseCr: int, fs: seq<Field>, ms: seq<RegisterMapping>, c: int)
    requires MsbFirstLayout(baseCr, fs, ms)
    ensures Sort(Filter(ms, CrKey, c), MsbKey) == Filter(ms, CrKey, c)
  {
    LayoutProperties(baseCr, fs, ms);
    forall i, j | 0 <= i < j < |ms| && CrKey(ms[i]) == CrKey(ms[j]) ensures MsbKey(ms[i]) >= MsbKey(ms[j]) {
      assert Precedes(ms[i], ms[j]);
    }
    FilterKeepsDescending(ms, CrKey, MsbKey, c);
    SortCharacterization(Filter(ms, CrKey, c), Filter(ms, CrKey, c), MsbKey);
  }

  /** The report of an MSB-first layout lists the registers from the base to the last one, each in layout order. */
  lemma {:induction false} ReportOfLayout(bank: Bank, fs: seq<Field>, ms: seq<RegisterMapping>)
    requires MsbFirstLayout(bank.baseCr, fs, ms) && ms != []
    ensures var r := Report(bank, ms);
      && r.registerMap.Keys == Span(bank.baseCr, LastRegister(ms))
      && |r.registerMap| == LastRegister(ms) - bank.baseCr + 1
      && forall c :: c in r.registerMap ==> r.registerMap[c] == Filter(ms, CrKey, c)
  {
    LayoutRegisters(bank.baseCr, fs, ms);
    assert LastRegister(ms) in Registers(ms);
    ReportKeys(bank, ms, bank.baseCr, LastRegister(ms));
    LayoutReportEntries(bank, fs, ms);
  }

  /** A report over registers `lo` to `hi` without gaps has exactly those keys. */
  lemma {:induction false} ReportKeys(bank: Bank, ms: seq<RegisterMapping>, lo: int, hi: int)
    requires Registers(ms) == Span(lo, hi) && lo <= hi
    ensures Report(bank, ms).registerMap.Keys == Span(lo, hi)
    ensures |Report(bank, ms).registerMap| == hi - lo + 1
  {
    var r := Report(bank, ms);
    assert r.registerMap.Keys == Registers(ms);
    assert |r.registerMap| == |r.registerMap.Keys|;
  }

  lemma {:induction false} LayoutReportEntries(bank: Bank, fs: seq<Field>, ms: seq<RegisterMapping>)
    requires MsbFirstLayout(bank.baseCr, fs, ms)
    ensures forall c :: c in Report(bank, ms).registerMap ==> Report(bank, ms).registerMap[c] == Filter(ms, CrKey, c)
  {
    forall c | c in Report(bank, ms).registerMap ensures Report(bank, ms).registerMap[c] == Filter(ms, CrKey, c) {
      LayoutGroupsOrdered(bank.baseCr, fs, ms, c);
    }
  }

  /**
   * The report of a successful mapping: the bits used are the bits requested, at
   * most the bank's capacity; the registers are CR`baseCr` up to the last one
   * used, without gaps, which is the summary's register count; and each register
   * lists its mappings in layout order.
   */
  lemma {:induction false} ReportOfMapping(bank: Bank, fs: seq<Field>, strategyName: string)
    requires MapResult(bank, fs, strategyName).Ok? && fs != []
    ensures var ms := MapResult(bank, fs, strategyName).value;
      var r := Report(bank, ms);
      && r.totalBitsUsed == SumWidths(fs) <= r.totalBitsAvailable == Capacity(bank)
      && r.registerMap.Keys == Span(bank.baseCr, LastRegister(ms))
      && |r.registerMap| == LastRegister(ms) - bank.baseCr + 1
      && RegistersUsed(r) == LastRegister(ms) - bank.baseCr + 1
      && forall c :: c in r.registerMap ==> r.registerMap[c] == Filter(ms, CrKey, c)
  {
    MapSuccess(bank, fs, strategyName);
    ReportOfLayout(bank, Order(ParseStrategy(strategyName).value, fs), MapResult(bank, fs, strategyName).value);
  }

  /** `efficiency_percent`: used bits as a percentage of the available bits. */
  function EfficiencyPercent(r: MappingReport): (p: real)
    requires r.totalBitsAvailable > 0
    ensures 0 <= r.totalBitsUsed <= r.totalBitsAvailable ==> 0.0 <= p <= 100.0
    ensures r.totalBitsUsed == r.totalBitsAvailable ==> p == 100.0
  {
    var u, a := r.totalBitsUsed as real, r.totalBitsAvailable as real;
    RatioBounds(u, a);
    u / a * 100.0
  }

  /** A share of a positive whole, in percent. */
  lemma {:induction false} RatioBounds(u: real, a: real)
    requires a > 0.0
    ensures 0.0 <= u <= a ==> 0.0 <= u / a * 100.0 <= 100.0
    ensures u == a ==> u / a * 100.0 == 100.0
  {
    QuotientBounds(u, a);
  }

  lemma {:induction false} QuotientBounds(u: real, a: real)
    requires a > 0.0
    ensures u >= 0.0 ==> u / a >= 0.0
    ensures u <= a ==> u / a <= 1.0
    ensures u == a ==> u / a == 1.0
  {
  }

  /** The JSON summary's `registers_used`: how many registers the report lists. */
  function RegistersUsed(r: MappingReport): (n: nat)
    ensures n == |r.registerMap.Keys|
  {
    |r.registerMap|
  }

  /** The summary's register count is the number of distinct registers the mappings occupy; it is zero exactly for no mappings. */
  lemma {:induction false} RegistersUsedCount(bank: Bank, ms: seq<RegisterMapping>)
    ensures RegistersUsed(Report(bank, ms)) == |Registers(ms)|
    ensures RegistersUsed(Report(bank, ms)) == 0 <==> ms == []
    ensures RegistersUsed(Report(bank, ms)) <= |ms|
  {
    var r := Report(bank, ms);
    assert r.registerMap.Keys == Registers(ms);
    if ms != [] {
      assert ms[0].crNumber in Registers(ms);
    }
    RegistersAtMostMappings(ms);
  }

  lemma {:induction false} RegistersAtMostMappings(ms: seq<RegisterMapping>)
    ensures |Registers(ms)| <= |ms|
  {
    if ms != [] {
      var pre := ms[..|ms| - 1];
      assert ms == pre + [ms[|ms| - 1]];
      RegistersSnoc(pre, ms[|ms| - 1]);
      RegistersAtMostMappings(pre);
    }
  }
}
