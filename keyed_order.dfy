/**
 * Ordering sequences by an integer key, largest key first, keeping the input
 * order among elements of equal key (a stable descending sort), and the
 * per-key subsequences that characterise such an order.
 */
module KeyedOrder {

  /** The elements of `s` whose key is `k`, in their order in `s`. */
  function Filter<T>(s: seq<T>, key: T -> int, k: int): (r: seq<T>)
    ensures |r| <= |s|
    ensures forall x :: x in r ==> x in s && key(x) == k
  {
    if s == [] then []
    else if key(s[0]) == k then [s[0]] + Filter(s[1..], key, k)
    else Filter(s[1..], key, k)
  }

  /** Keys never increase from left to right. */
  predicate Descending<T>(s: seq<T>, key: T -> int)
  {
    forall i, j :: 0 <= i < j < |s| ==> key(s[i]) >= key(s[j])
  }

  function Keys<T>(s: seq<T>, key: T -> int): (r: seq<int>)
    ensures |r| == |s|
    ensures forall i :: 0 <= i < |s| ==> r[i] == key(s[i])
  {
    seq(|s|, i requires 0 <= i < |s| => key(s[i]))
  }

  /** Insert `x` before the first element whose key is not larger than its own. */
  function Insert<T>(x: T, s: seq<T>, key: T -> int): (r: seq<T>)
    ensures |r| == |s| + 1
  {
    if s == [] || key(x) >= key(s[0]) then [x] + s
    else
      assert s == [s[0]] + s[1..];
      [s[0]] + Insert(x, s[1..], key)
  }

  /** Stable sort by descending key (insertion sort from the back). */
  function Sort<T>(s: seq<T>, key: T -> int): (r: seq<T>)
    ensures |r| == |s|
  {
    if s == [] then []
    else
      assert s == [s[0]] + s[1..];
      Insert(s[0], Sort(s[1..], key), key)
  }

  /** Inserting adds exactly one occurrence of `x`. */
  lemma {:induction false} InsertPermutes<T>(x: T, s: seq<T>, key: T -> int)
    ensures multiset(Insert(x, s, key)) == multiset(s) + multiset{x}
    decreases |s|
  {
    if s != [] && key(x) < key(s[0]) {
      InsertPermutes(x, s[1..], key);
      assert s == [s[0]] + s[1..];
    }
  }

  /** The sort is a permutation of its input. */
  lemma {:induction false} SortPermutes<T>(s: seq<T>, key: T -> int)
    ensures multiset(Sort(s, key)) == multiset(s)
    decreases |s|
  {
    if s != [] {
      SortPermutes(s[1..], key);
      InsertPermutes(s[0], Sort(s[1..], key), key);
      assert s == [s[0]] + s[1..];
    }
  }

  /** `x` goes behind a prefix whose keys all exceed its own. */
  lemma {:induction false} InsertBehind<T>(x: T, p: seq<T>, q: seq<T>, key: T -> int)
    requires forall i :: 0 <= i < |p| ==> key(p[i]) > key(x)
    ensures Insert(x, p + q, key) == p + Insert(x, q, key)
    decreases |p|
  {
    if p == [] {
      assert p + q == q;
    } else {
      assert (p + q)[0] == p[0] && (p + q)[1..] == p[1..] + q;
      InsertBehind(x, p[1..], q, key);
      assert p == [p[0]] + p[1..];
    }
  }

  /** `x` goes behind a prefix of larger keys and in front of a suffix that starts with a key no larger. */
  lemma {:induction false} InsertBetween<T>(x: T, p: seq<T>, q: seq<T>, key: T -> int)
    requires forall i :: 0 <= i < |p| ==> key(p[i]) > key(x)
    requires q != [] ==> key(q[0]) <= key(x)
    ensures Insert(x, p + q, key) == p + [x] + q
  {
    InsertBehind(x, p, q, key);
  }

  /** Sorting `[x] + s` inserts `x` into the sorted `s`. */
  lemma {:induction false} SortStep<T>(x: T, s: seq<T>, key: T -> int)
    ensures Sort([x] + s, key) == Insert(x, Sort(s, key), key)
  {
    assert ([x] + s)[0] == x && ([x] + s)[1..] == s;
  }

  lemma {:induction false} FilterAppend<T>(a: seq<T>, b: seq<T>, key: T -> int, k: int)
    ensures Filter(a + b, key, k) == Filter(a, key, k) + Filter(b, key, k)
  {
    if a == [] {
      assert a + b == b;
    } else {
      assert (a + b)[0] == a[0];
      assert (a + b)[1..] == a[1..] + b;
      FilterAppend(a[1..], b, key, k);
      if key(a[0]) == k {
        assert Filter(a + b, key, k) == [a[0]] + Filter(a[1..] + b, key, k);
      } else {
        assert Filter(a + b, key, k) == Filter(a[1..] + b, key, k);
      }
    }
  }

  lemma {:induction false} FilterOfFilter<T>(s: seq<T>, key: T -> int, j: int, k: int)
    ensures Filter(Filter(s, key, j), key, k) == if j == k then Filter(s, key, j) else []
  {
    if s != [] {
      FilterOfFilter(s[1..], key, j, k);
      if key(s[0]) == j {
        assert Filter(s, key, j) == [s[0]] + Filter(s[1..], key, j);
        assert ([s[0]] + Filter(s[1..], key, j))[1..] == Filter(s[1..], key, j);
      }
    }
  }

  lemma {:induction false} InsertDescending<T>(x: T, s: seq<T>, key: T -> int)
    requires Descending(s, key)
    ensures Descending(Insert(x, s, key), key)
    ensures Insert(x, s, key)[0] == x || (s != [] && Insert(x, s, key)[0] == s[0])
  {
    if s != [] && key(x) < key(s[0]) {
      InsertDescending(x, s[1..], key);
      var r := Insert(x, s[1..], key);
      assert Insert(x, s, key) == [s[0]] + r;
      InsertPermutes(x, s[1..], key);
      forall i | 0 <= i < |r| ensures key(s[0]) >= key(r[i]) {
        assert r[i] in multiset(r);
        assert r[i] in multiset(s[1..]) + multiset{x};
        if r[i] != x {
          assert r[i] in s[1..];
        }
      }
    }
  }

  lemma {:induction false} SortDescending<T>(s: seq<T>, key: T -> int)
    ensures Descending(Sort(s, key), key)
  {
    if s != [] {
      SortDescending(s[1..], key);
      InsertDescending(s[0], Sort(s[1..], key), key);
    }
  }

  /** Inserting `x` adds it in front of its own key's subsequence and changes no other. */
  lemma {:induction false} FilterInsert<T>(x: T, s: seq<T>, key: T -> int, k: int)
    ensures Filter(Insert(x, s, key), key, k)
            == if key(x) == k then [x] + Filter(s, key, k) else Filter(s, key, k)
  {
    if s != [] && key(x) < key(s[0]) {
      FilterInsert(x, s[1..], key, k);
      assert Insert(x, s, key) == [s[0]] + Insert(x, s[1..], key);
    }
  }

  /** Stability: the sort keeps each key's elements in their input order. */
  lemma {:induction false} SortStable<T>(s: seq<T>, key: T -> int, k: int)
    ensures Filter(Sort(s, key), key, k) == Filter(s, key, k)
  {
    if s != [] {
      SortStable(s[1..], key, k);
      FilterInsert(s[0], Sort(s[1..], key), key, k);
    }
  }

  lemma {:induction false} FilterHead<T>(s: seq<T>, key: T -> int)
    requires s != []
    ensures Filter(s, key, key(s[0])) == [s[0]] + Filter(s[1..], key, key(s[0]))
    ensures forall k :: k != key(s[0]) ==> Filter(s, key, k) == Filter(s[1..], key, k)
  {
  }

  lemma {:induction false} MemberKeyBound<T>(s: seq<T>, x: T, key: T -> int)
    requires Descending(s, key) && x in s
    ensures key(x) <= key(s[0])
  {
    var i :| 0 <= i < |s| && s[i] == x;
    if i > 0 {
      assert key(s[0]) >= key(s[i]);
    }
  }

  lemma {:induction false} HeadsAgree<T>(x: seq<T>, y: seq<T>, key: T -> int)
    requires Descending(x, key) && Descending(y, key)
    requires forall k :: Filter(x, key, k) == Filter(y, key, k)
    ensures x == [] <==> y == []
    ensures x != [] ==> x[0] == y[0]
  {
    if x == [] && y != [] {
      FilterHead(y, key);
    } else if x != [] && y == [] {
      FilterHead(x, key);
    } else if x != [] {
      var a, b := key(x[0]), key(y[0]);
      FilterHead(x, key);
      FilterHead(y, key);
      assert x[0] in Filter(y, key, a);
      MemberKeyBound(y, x[0], key);
      assert y[0] in Filter(x, key, b);
      MemberKeyBound(x, y[0], key);
      assert a == b;
      assert Filter(x, key, a) == Filter(y, key, a);
      assert Filter(x, key, a)[0] == x[0];
    }
  }

  lemma {:induction false} TailFiltersAgree<T>(x: seq<T>, y: seq<T>, key: T -> int)
    requires x != [] && y != [] && x[0] == y[0]
    requires forall k :: Filter(x, key, k) == Filter(y, key, k)
    ensures forall k :: Filter(x[1..], key, k) == Filter(y[1..], key, k)
  {
    FilterHead(x, key);
    FilterHead(y, key);
    var a := key(x[0]);
    forall k ensures Filter(x[1..], key, k) == Filter(y[1..], key, k) {
      if k == a {
        assert [x[0]] + Filter(x[1..], key, a) == [y[0]] + Filter(y[1..], key, a);
        assert Filter(x[1..], key, a) == ([x[0]] + Filter(x[1..], key, a))[1..];
        assert Filter(y[1..], key, a) == ([y[0]] + Filter(y[1..], key, a))[1..];
      } else {
        assert Filter(x, key, k) == Filter(y, key, k);
      }
    }
  }

  lemma {:induction false} DescendingTail<T>(s: seq<T>, key: T -> int)
    requires s != [] && Descending(s, key)
    ensures Descending(s[1..], key)
  {
  }

  /** A descending sequence is determined by its per-key subsequences. */
  lemma {:induction false} UniqueByFilters<T>(x: seq<T>, y: seq<T>, key: T -> int)
    requires Descending(x, key) && Descending(y, key)
    requires forall k :: Filter(x, key, k) == Filter(y, key, k)
    ensures x == y
    decreases |x|
  {
    HeadsAgree(x, y, key);
    if x != [] {
      TailFiltersAgree(x, y, key);
      DescendingTail(x, key);
      DescendingTail(y, key);
      UniqueByFilters(x[1..], y[1..], key);
      assert x == [x[0]] + x[1..];
      assert y == [y[0]] + y[1..];
    }
  }

  /** The sort is the only descending order that keeps every key's elements in input order. */
  lemma {:induction false} SortCharacterization<T>(s: seq<T>, y: seq<T>, key: T -> int)
    requires Descending(y, key)
    requires forall k :: Filter(y, key, k) == Filter(s, key, k)
    ensures y == Sort(s, key)
  {
    SortDescending(s, key);
    forall k ensures Filter(y, key, k) == Filter(Sort(s, key), key, k) {
      SortStable(s, key, k);
    }
    UniqueByFilters(y, Sort(s, key), key);
  }

  lemma {:induction false} KeysAppend<T>(a: seq<T>, b: seq<T>, key: T -> int)
    ensures Keys(a + b, key) == Keys(a, key) + Keys(b, key)
  {
  }

  /** Permuting a sequence permutes its keys. */
  lemma {:induction false} MultisetKeys<T>(a: seq<T>, b: seq<T>, key: T -> int)
    requires multiset(a) == multiset(b)
    ensures multiset(Keys(a, key)) == multiset(Keys(b, key))
    decreases |a|
  {
    if a == [] {
      assert |b| == |multiset(b)| == 0;
    } else {
      var x := a[0];
      assert x in multiset(b);
      var i :| 0 <= i < |b| && b[i] == x;
      var rest := b[..i] + b[i + 1..];
      assert b == b[..i] + [x] + b[i + 1..];
      assert a == [x] + a[1..];
      assert multiset(b) == multiset(b[..i]) + multiset{x} + multiset(b[i + 1..]);
      assert multiset(rest) == multiset(b[..i]) + multiset(b[i + 1..]);
      assert multiset(a) == multiset{x} + multiset(a[1..]);
      assert multiset(a[1..]) == multiset(a) - multiset{x};
      assert multiset(rest) == multiset(b) - multiset{x};
      MultisetKeys(a[1..], rest, key);
      KeysAppend([x], a[1..], key);
      KeysAppend(b[..i], [x], key);
      KeysAppend(b[..i] + [x], b[i + 1..], key);
      KeysAppend(b[..i], b[i + 1..], key);
    }
  }

  predicate DescendingInts(s: seq<int>)
  {
    forall i, j :: 0 <= i < j < |s| ==> s[i] >= s[j]
  }

  lemma {:induction false} IntHeadsAgree(x: seq<int>, y: seq<int>)
    requires DescendingInts(x) && DescendingInts(y) && multiset(x) == multiset(y) && x != []
    ensures y != [] && x[0] == y[0]
  {
    assert x[0] in multiset(y);
    var i :| 0 <= i < |y| && y[i] == x[0];
    assert y[0] >= y[i];
    assert y[0] in multiset(x);
    var j :| 0 <= j < |x| && x[j] == y[0];
    assert x[0] >= x[j];
  }

  /** Two descending integer sequences with the same elements are equal. */
  lemma {:induction false} DescendingIntsUnique(x: seq<int>, y: seq<int>)
    requires DescendingInts(x) && DescendingInts(y) && multiset(x) == multiset(y)
    ensures x == y
    decreases |x|
  {
    if x == [] {
      assert |y| == |multiset(y)| == 0;
    } else {
      IntHeadsAgree(x, y);
      assert x == [x[0]] + x[1..] && y == [y[0]] + y[1..];
      assert multiset(x) == multiset{x[0]} + multiset(x[1..]);
      assert multiset(y) == multiset{y[0]} + multiset(y[1..]);
      assert multiset(x[1..]) == multiset(x) - multiset{x[0]};
      assert multiset(y[1..]) == multiset(y) - multiset{y[0]};
      DescendingIntsUnique(x[1..], y[1..]);
    }
  }

  /** Sorting permutations of one another yields the same key sequence. */
  lemma {:induction false} SortedKeysPermutationInvariant<T>(a: seq<T>, b: seq<T>, key: T -> int)
    requires multiset(a) == multiset(b)
    ensures Keys(Sort(a, key), key) == Keys(Sort(b, key), key)
  {
    SortDescending(a, key);
    SortDescending(b, key);
    SortPermutes(a, key);
    SortPermutes(b, key);
    MultisetKeys(Sort(a, key), a, key);
    MultisetKeys(a, b, key);
    MultisetKeys(b, Sort(b, key), key);
    DescendingIntsUnique(Keys(Sort(a, key), key), Keys(Sort(b, key), key));
  }

  // ---------------------------------------------------------------------------
  // Repeated elements

  /** Two positions holding the same element make it occur at least twice. */
  lemma {:induction false} CountTwo<T>(s: seq<T>, i: nat, j: nat)
    requires i < j < |s| && s[i] == s[j]
    ensures multiset(s)[s[i]] >= 2
  {
    assert s == s[..i] + [s[i]] + s[i + 1..j] + [s[j]] + s[j + 1..];
  }

  /** An element occurring at least twice sits at two positions. */
  lemma {:induction false} TwoOccurrences<T>(s: seq<T>, x: T)
    requires multiset(s)[x] >= 2
    ensures exists i, j :: 0 <= i < j < |s| && s[i] == x && s[j] == x
    decreases |s|
  {
    assert s != [];
    assert s == [s[0]] + s[1..];
    assert multiset(s) == multiset{s[0]} + multiset(s[1..]);
    if s[0] == x {
      assert x in multiset(s[1..]);
      var j :| 0 <= j < |s[1..]| && s[1..][j] == x;
      assert s[0] == x && s[j + 1] == x;
    } else {
      TwoOccurrences(s[1..], x);
      var i, j :| 0 <= i < j < |s[1..]| && s[1..][i] == x && s[1..][j] == x;
      assert s[i + 1] == x && s[j + 1] == x;
    }
  }
}
