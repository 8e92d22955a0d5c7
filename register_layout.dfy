/**
 * The placement primitive shared by every strategy: walk the fields once,
 * most significant bit first, moving to the next control register when the
 * current one has too few bits left. A field is never split.
 */
module RegisterLayout {
  import opened BasicAppTypes

  /** A field request: a name and the type whose width it occupies. */
  datatype Field = Field(name: string, dataType: DataType)

  /** Where a field landed: control register `crNumber`, inclusive bits msb..lsb. */
  datatype RegisterMapping = RegisterMapping(name: string, dataType: DataType, crNumber: int, msb: int, lsb: int)

  /** The number of bits the slice covers (`bit_width()`). */
  function SliceWidth(m: RegisterMapping): int
  {
    m.msb - m.lsb + 1
  }

  function Width(f: Field): (w: nat)
    ensures 1 <= w <= RegisterWidth
  {
    BitWidth(f.dataType)
  }

  const TopBit: int := RegisterWidth - 1

  /** The register bank: the first control register and how many follow it. */
  datatype Bank = Bank(baseCr: int, registerCount: nat)

  const DefaultBank: Bank := Bank(6, 12)

  function Capacity(b: Bank): nat
  {
    b.registerCount * RegisterWidth
  }

  function LastCr(b: Bank): int
  {
    b.baseCr + b.registerCount - 1
  }

  // ---------------------------------------------------------------------------
  // The placement, as a function

  /** The register being filled and the highest bit still free in it (-1 when it is full). */
  datatype Cursor = Cursor(crNumber: int, bit: int)

  function Place(c: Cursor, f: Field): RegisterMapping
  {
    var w := Width(f);
    if w <= c.bit + 1 then RegisterMapping(f.name, f.dataType, c.crNumber, c.bit, c.bit - w + 1)
    else RegisterMapping(f.name, f.dataType, c.crNumber + 1, TopBit, TopBit - w + 1)
  }

  function After(m: RegisterMapping): Cursor
  {
    Cursor(m.crNumber, m.lsb - 1)
  }

  function PackFrom(c: Cursor, fs: seq<Field>): (ms: seq<RegisterMapping>)
    ensures |ms| == |fs|
    decreases |fs|
  {
    if fs == [] then []
    else
      var m := Place(c, fs[0]);
      [m] + PackFrom(After(m), fs[1..])
  }

  /** The layout of `fs`, starting at the top bit of register `baseCr`. */
  function Pack(baseCr: int, fs: seq<Field>): (ms: seq<RegisterMapping>)
    ensures |ms| == |fs|
  {
    PackFrom(Cursor(baseCr, TopBit), fs)
  }

  // ---------------------------------------------------------------------------
  // The placement, as `RegisterMapper` performs it

  /** One pass over the fields with a register number and a descending bit cursor. */
  method PackSequential(baseCr: int, fields: seq<Field>) returns (ms: seq<RegisterMapping>)
    ensures ms == Pack(baseCr, fields)
    ensures MsbFirstLayout(baseCr, fields, ms)
  {
    var cr, bit := baseCr, TopBit;
    ms := [];
    for i := 0 to |fields|
      invariant ms + PackFrom(Cursor(cr, bit), fields[i..]) == Pack(baseCr, fields)
    {
      var f := fields[i];
      var w := BitWidth(f.dataType);
      ghost var c := Cursor(cr, bit);
      if bit - w + 1 < 0 {
        cr, bit := cr + 1, TopBit;
      }
      var m := RegisterMapping(f.name, f.dataType, cr, bit, bit - w + 1);
      assert m == Place(c, f);
      PackAdvance(ms, c, fields, i, Pack(baseCr, fields));
      ms := ms + [m];
      bit := bit - w;
      assert Cursor(cr, bit) == After(m);
    }
    assert fields[|fields|..] == [];
    PackIsMsbFirst(baseCr, fields);
  }

  /** The layout of a suffix starts with its first field's placement. */
  lemma {:induction false} PackFromStep(c: Cursor, fs: seq<Field>, i: nat)
    requires i < |fs|
    ensures PackFrom(c, fs[i..]) == [Place(c, fs[i])] + PackFrom(After(Place(c, fs[i])), fs[i + 1..])
  {
    assert fs[i..][0] == fs[i] && fs[i..][1..] == fs[i + 1..];
  }

  /** Emitting the next field's placement keeps the layout so far plus the rest's layout equal to the whole. */
  lemma {:induction false} PackAdvance(ms: seq<RegisterMapping>, c: Cursor, fs: seq<Field>, i: nat, whole: seq<RegisterMapping>)
    requires i < |fs| && ms + PackFrom(c, fs[i..]) == whole
    ensures (ms + [Place(c, fs[i])]) + PackFrom(After(Place(c, fs[i])), fs[i + 1..]) == whole
  {
    PackFromStep(c, fs, i);
    var m := Place(c, fs[i]);
    assert (ms + [m]) + PackFrom(After(m), fs[i + 1..]) == ms + ([m] + PackFrom(After(m), fs[i + 1..]));
  }

  /** The layout of `[f] + fs` starts with `f`'s placement and continues from the cursor behind it. */
  lemma {:induction false} PackStep(c: Cursor, f: Field, fs: seq<Field>)
    ensures PackFrom(c, [f] + fs) == [Place(c, f)] + PackFrom(After(Place(c, f)), fs)
  {
    assert ([f] + fs)[0] == f && ([f] + fs)[1..] == fs;
  }

  // ---------------------------------------------------------------------------
  // What the placement guarantees

  /** Each mapping carries its field's name and type, in input order, with a slice as wide as the type. */
  ghost predicate Carries(fs: seq<Field>, ms: seq<RegisterMapping>)
  {
    && |ms| == |fs|
    && forall i :: 0 <= i < |ms| ==>
         ms[i].name == fs[i].name && ms[i].dataType == fs[i].dataType && SliceWidth(ms[i]) == Width(fs[i])
  }

  /** `m` continues right below `prev` when it fits there, otherwise it starts the next register at the top bit. */
  ghost predicate Follows(prev: RegisterMapping, m: RegisterMapping)
  {
    if SliceWidth(m) <= prev.lsb then m.crNumber == prev.crNumber && m.msb == prev.lsb - 1
    else m.crNumber == prev.crNumber + 1 && m.msb == TopBit
  }

  /** Most-significant-bit-first packing: the first field at the top of `baseCr`, each next one following. */
  ghost predicate MsbFirstLayout(baseCr: int, fs: seq<Field>, ms: seq<RegisterMapping>)
  {
    && Carries(fs, ms)
    && (|ms| > 0 ==> ms[0].crNumber == baseCr && ms[0].msb == TopBit)
    && forall i :: 0 < i < |ms| ==> Follows(ms[i - 1], ms[i])
  }

  lemma {:induction false} PackFromChains(c: Cursor, fs: seq<Field>)
    ensures var ms := PackFrom(c, fs);
      && Carries(fs, ms)
      && (fs != [] ==> ms[0] == Place(c, fs[0]))
      && forall i :: 0 < i < |ms| ==> Follows(ms[i - 1], ms[i])
    decreases |fs|
  {
    if fs != [] {
      var m := Place(c, fs[0]);
      var rest := PackFrom(After(m), fs[1..]);
      PackFromChains(After(m), fs[1..]);
      var ms := PackFrom(c, fs);
      assert ms == [m] + rest;
      forall i | 0 < i < |ms| ensures Follows(ms[i - 1], ms[i]) {
        if i > 1 {
          assert ms[i - 1] == rest[i - 2] && ms[i] == rest[i - 1];
        }
      }
    }
  }

  /** The function's layout is the most-significant-bit-first layout. */
  lemma {:induction false} PackIsMsbFirst(baseCr: int, fs: seq<Field>)
    ensures MsbFirstLayout(baseCr, fs, Pack(baseCr, fs))
  {
    PackFromChains(Cursor(baseCr, TopBit), fs);
  }

  lemma {:induction false} MsbFirstAgreeUpTo(baseCr: int, fs: seq<Field>, ms: seq<RegisterMapping>,
                                             ns: seq<RegisterMapping>, i: nat)
    requires MsbFirstLayout(baseCr, fs, ms) && MsbFirstLayout(baseCr, fs, ns) && i < |fs|
    ensures ms[i] == ns[i]
  {
    if i > 0 {
      MsbFirstAgreeUpTo(baseCr, fs, ms, ns, i - 1);
      assert Follows(ms[i - 1], ms[i]) && Follows(ns[i - 1], ns[i]);
    }
  }

  /** The most-significant-bit-first rules leave exactly one layout: the function's. */
  lemma {:induction false} MsbFirstIsPack(baseCr: int, fs: seq<Field>, ms: seq<RegisterMapping>)
    requires MsbFirstLayout(baseCr, fs, ms)
    ensures ms == Pack(baseCr, fs)
  {
    PackIsMsbFirst(baseCr, fs);
    forall i | 0 <= i < |fs| ensures ms[i] == Pack(baseCr, fs)[i] {
      MsbFirstAgreeUpTo(baseCr, fs, ms, Pack(baseCr, fs), i);
    }
  }

  /** `a`'s slice lies in an earlier register than `b`'s, or strictly above it in the same register. */
  predicate Precedes(a: RegisterMapping, b: RegisterMapping)
  {
    a.crNumber < b.crNumber || (a.crNumber == b.crNumber && a.lsb > b.msb)
  }

  lemma {:induction false} LayoutBoundsAt(baseCr: int, fs: seq<Field>, ms: seq<RegisterMapping>, i: nat)
    requires MsbFirstLayout(baseCr, fs, ms) && i < |ms|
    ensures 0 <= ms[i].lsb <= ms[i].msb <= TopBit
    ensures baseCr <= ms[i].crNumber <= baseCr + i
  {
    if i > 0 {
      LayoutBoundsAt(baseCr, fs, ms, i - 1);
      assert Follows(ms[i - 1], ms[i]);
    }
  }

  lemma {:induction false} LayoutOrderedFrom(baseCr: int, fs: seq<Field>, ms: seq<RegisterMapping>, i: nat, j: nat)
    requires MsbFirstLayout(baseCr, fs, ms) && i < j < |ms|
    ensures Precedes(ms[i], ms[j])
    decreases j - i
  {
    assert Follows(ms[j - 1], ms[j]);
    LayoutBoundsAt(baseCr, fs, ms, j - 1);
    if i < j - 1 {
      LayoutOrderedFrom(baseCr, fs, ms, i, j - 1);
    }
  }

  /**
   * Every slice lies within bits 31..0 of a register from `baseCr` on; slices come
   * in strictly descending (register, bit) order, so no two slices of one register overlap.
   */
  lemma {:induction false} LayoutProperties(baseCr: int, fs: seq<Field>, ms: seq<RegisterMapping>)
    requires MsbFirstLayout(baseCr, fs, ms)
    ensures forall i :: 0 <= i < |ms| ==>
      0 <= ms[i].lsb <= ms[i].msb <= TopBit && baseCr <= ms[i].crNumber <= baseCr + i
    ensures forall i, j :: 0 <= i < j < |ms| ==> Precedes(ms[i], ms[j])
    ensures forall i, j :: 0 <= i < |ms| && 0 <= j < |ms| && i != j && ms[i].crNumber == ms[j].crNumber ==>
      ms[i].lsb > ms[j].msb || ms[j].lsb > ms[i].msb
  {
    forall i | 0 <= i < |ms|
      ensures 0 <= ms[i].lsb <= ms[i].msb <= TopBit && baseCr <= ms[i].crNumber <= baseCr + i
    {
      LayoutBoundsAt(baseCr, fs, ms, i);
    }
    forall i, j | 0 <= i < j < |ms| ensures Precedes(ms[i], ms[j]) {
      LayoutOrderedFrom(baseCr, fs, ms, i, j);
    }
  }

  // ---------------------------------------------------------------------------
  // Conservation of bits

  function SumWidths(fs: seq<Field>): (n: nat)
  {
    if fs == [] then 0 else SumWidths(fs[..|fs| - 1]) + Width(fs[|fs| - 1])
  }

  function SumSliceWidths(ms: seq<RegisterMapping>): int
  {
    if ms == [] then 0 else SumSliceWidths(ms[..|ms| - 1]) + SliceWidth(ms[|ms| - 1])
  }

  lemma {:induction false} SumWidthsAppend(a: seq<Field>, b: seq<Field>)
    ensures SumWidths(a + b) == SumWidths(a) + SumWidths(b)
    decreases |b|
  {
    if b == [] {
      assert a + b == a;
    } else {
      var b' := b[..|b| - 1];
      assert (a + b)[..|a + b| - 1] == a + b';
      SumWidthsAppend(a, b');
    }
  }

  /** The slices of a layout cover exactly as many bits as its fields request. */
  lemma {:induction false} Conservation(fs: seq<Field>, ms: seq<RegisterMapping>)
    requires Carries(fs, ms)
    ensures SumSliceWidths(ms) == SumWidths(fs)
    decreases |fs|
  {
    if fs != [] {
      var n := |fs| - 1;
      assert Carries(fs[..n], ms[..n]);
      Conservation(fs[..n], ms[..n]);
    }
  }

  /** Reordering the fields does not change how many bits they request. */
  lemma {:induction false} SumWidthsPermutation(a: seq<Field>, b: seq<Field>)
    requires multiset(a) == multiset(b)
    ensures SumWidths(a) == SumWidths(b)
    decreases |a|
  {
    if a == [] {
      assert |b| == |multiset(b)| == 0;
    } else {
      var x := a[|a| - 1];
      var a' := a[..|a| - 1];
      assert a == a' + [x];
      assert x in multiset(b);
      var i :| 0 <= i < |b| && b[i] == x;
      var b' := b[..i] + b[i + 1..];
      assert b == b[..i] + [x] + b[i + 1..];
      assert multiset(a) == multiset(a') + multiset{x};
      assert multiset(b) == multiset(b[..i]) + multiset{x} + multiset(b[i + 1..]);
      assert multiset(b') == multiset(b[..i]) + multiset(b[i + 1..]);
      assert multiset(a') == multiset(a) - multiset{x};
      assert multiset(b') == multiset(b) - multiset{x};
      SumWidthsPermutation(a', b');
      SumWidthsAppend(a', [x]);
      SumWidthsAppend(b[..i], [x]);
      SumWidthsAppend(b[..i] + [x], b[i + 1..]);
      SumWidthsAppend(b[..i], b[i + 1..]);
      assert SumWidths([x]) == Width(x) by {
        assert [x][..0] == [];
      }
    }
  }

  /** Fields that all have width `w` request `w` bits each. */
  lemma {:induction false} UniformWidthSum(fs: seq<Field>, w: nat)
    requires forall i :: 0 <= i < |fs| ==> Width(fs[i]) == w
    ensures SumWidths(fs) == |fs| * w
    decreases |fs|
  {
    if fs != [] {
      UniformWidthSum(fs[..|fs| - 1], w);
    }
  }

  /** No field is wider than a register, so `n` fields never request more than `n` registers' bits. */
  lemma {:induction false} SumWidthsBound(fs: seq<Field>)
    ensures SumWidths(fs) <= |fs| * RegisterWidth
    decreases |fs|
  {
    if fs != [] {
      SumWidthsBound(fs[..|fs| - 1]);
    }
  }

  // ---------------------------------------------------------------------------
  // Register usage

  /** Registers are used without gaps from `baseCr` up to the last field's register. */
  lemma {:induction false} RegistersContiguous(baseCr: int, fs: seq<Field>, ms: seq<RegisterMapping>, r: int)
    requires MsbFirstLayout(baseCr, fs, ms) && ms != []
    requires baseCr <= r <= ms[|ms| - 1].crNumber
    ensures exists i :: 0 <= i < |ms| && ms[i].crNumber == r
    decreases |ms|
  {
    var n := |ms| - 1;
    if r < ms[n].crNumber {
      assert n > 0;
      assert Follows(ms[n - 1], ms[n]);
      assert MsbFirstLayout(baseCr, fs[..n], ms[..n]);
      RegistersContiguous(baseCr, fs[..n], ms[..n], r);
      var i :| 0 <= i < n && ms[..n][i].crNumber == r;
      assert ms[i].crNumber == r;
    }
  }

  /** When no two neighbouring fields fit in one register together, each field gets a register of its own. */
  lemma {:induction false} OwnRegisters(baseCr: int, fs: seq<Field>, i: nat)
    requires forall k :: 0 < k < |fs| ==> Width(fs[k - 1]) + Width(fs[k]) > RegisterWidth
    requires i < |fs|
    ensures Pack(baseCr, fs)[i].crNumber == baseCr + i
    ensures Pack(baseCr, fs)[i].msb == TopBit
  {
    var ms := Pack(baseCr, fs);
    PackIsMsbFirst(baseCr, fs);
    if i > 0 {
      OwnRegisters(baseCr, fs, i - 1);
      assert Follows(ms[i - 1], ms[i]);
    }
  }

  /** Fields of a full register width each fill one register, bits 31..0, in consecutive registers. */
  lemma {:induction false} FullWidthFields(baseCr: int, fs: seq<Field>)
    requires forall k :: 0 <= k < |fs| ==> Width(fs[k]) == RegisterWidth
    ensures forall i :: 0 <= i < |fs| ==>
      Pack(baseCr, fs)[i] == RegisterMapping(fs[i].name, fs[i].dataType, baseCr + i, TopBit, 0)
  {
    PackIsMsbFirst(baseCr, fs);
    forall i | 0 <= i < |fs|
      ensures Pack(baseCr, fs)[i] == RegisterMapping(fs[i].name, fs[i].dataType, baseCr + i, TopBit, 0)
    {
      OwnRegisters(baseCr, fs, i);
    }
  }

  /** The field requests a layout holds, in layout order. */
  function Requests(ms: seq<RegisterMapping>): (r: seq<Field>)
    ensures |r| == |ms|
    ensures forall i :: 0 <= i < |ms| ==> r[i] == Field(ms[i].name, ms[i].dataType)
  {
    seq(|ms|, i requires 0 <= i < |ms| => Field(ms[i].name, ms[i].dataType))
  }

  /** A layout that carries `fs` holds exactly the requests `fs`, in order. */
  lemma {:induction false} CarriesRequests(fs: seq<Field>, ms: seq<RegisterMapping>)
    requires Carries(fs, ms)
    ensures Requests(ms) == fs
  {
    assert forall i :: 0 <= i < |fs| ==> Requests(ms)[i] == fs[i];
  }

  // ---------------------------------------------------------------------------
  // Positions only

  /** The position of a mapping, without the field it holds. */
  datatype Slot = Slot(crNumber: int, msb: int, lsb: int)

  function Slots(ms: seq<RegisterMapping>): (r: seq<Slot>)
    ensures |r| == |ms|
    ensures forall i :: 0 <= i < |ms| ==> r[i] == Slot(ms[i].crNumber, ms[i].msb, ms[i].lsb)
  {
    seq(|ms|, i requires 0 <= i < |ms| => Slot(ms[i].crNumber, ms[i].msb, ms[i].lsb))
  }

  /** Where fields land depends only on their widths, not on their names or types. */
  lemma {:induction false} PlacementDependsOnWidths(c: Cursor, fs: seq<Field>, gs: seq<Field>)
    requires |fs| == |gs|
    requires forall i :: 0 <= i < |fs| ==> Width(fs[i]) == Width(gs[i])
    ensures Slots(PackFrom(c, fs)) == Slots(PackFrom(c, gs))
    decreases |fs|
  {
    if fs != [] {
      var m, n := Place(c, fs[0]), Place(c, gs[0]);
      assert After(m) == After(n);
      PlacementDependsOnWidths(After(m), fs[1..], gs[1..]);
      var p, q := PackFrom(c, fs), PackFrom(c, gs);
      assert p == [m] + PackFrom(After(m), fs[1..]);
      assert q == [n] + PackFrom(After(n), gs[1..]);
      forall i | 0 <= i < |fs| ensures Slots(p)[i] == Slots(q)[i] {
        if i > 0 {
          assert Slots(p)[i] == Slots(PackFrom(After(m), fs[1..]))[i - 1];
          assert Slots(q)[i] == Slots(PackFrom(After(n), gs[1..]))[i - 1];
        }
      }
    }
  }
}
