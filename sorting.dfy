/** The ordering the core gets from `Array.prototype.sort` with a numeric
    comparator `(a, b) => key(b) - key(a)`: a stable sort, non-increasing in
    the key.  An ascending sort by `key` is the descending sort by `-key`. */
module Sorting {

  predicate SortedDesc<T>(s: seq<T>, key: T -> int) {
    forall i, j :: 0 <= i < j < |s| ==> key(s[i]) >= key(s[j])
  }

  /** Places `x` after every element whose key is at least `key(x)`. */
  function Insert<T>(x: T, s: seq<T>, key: T -> int): (r: seq<T>)
    ensures |r| == |s| + 1
  {
    if s == [] then [x]
    else if key(s[0]) >= key(x) then [s[0]] + Insert(x, s[1..], key)
    else [x] + s
  }

  lemma {:induction false} InsertPerm<T>(x: T, s: seq<T>, key: T -> int)
    ensures multiset(Insert(x, s, key)) == multiset(s) + multiset{x}
  {
    if s != [] && key(s[0]) >= key(x) {
      InsertPerm(x, s[1..], key);
      assert s == [s[0]] + s[1..];
    }
  }

  /** No key of `Insert(x, s, key)` exceeds a bound that holds for `x` and
      for every element of `s`. */
  lemma {:induction false} InsertBounded<T>(x: T, s: seq<T>, key: T -> int, b: int)
    requires key(x) <= b && forall m :: 0 <= m < |s| ==> key(s[m]) <= b
    ensures forall m :: 0 <= m < |Insert(x, s, key)| ==> key(Insert(x, s, key)[m]) <= b
  {
    if s != [] && key(s[0]) >= key(x) {
      InsertBounded(x, s[1..], key, b);
      var rest := Insert(x, s[1..], key);
      assert Insert(x, s, key) == [s[0]] + rest;
      assert forall m :: 1 <= m <= |rest| ==> Insert(x, s, key)[m] == rest[m - 1];
    }
  }

  /** A head whose key bounds a sorted tail keeps it sorted. */
  lemma SortedCons<T>(h: T, t: seq<T>, key: T -> int)
    requires SortedDesc(t, key) && forall m :: 0 <= m < |t| ==> key(t[m]) <= key(h)
    ensures SortedDesc([h] + t, key)
  {
    var r := [h] + t;
    forall i, j | 0 <= i < j < |r|
      ensures key(r[i]) >= key(r[j])
    {
      assert r[j] == t[j - 1];
      if i > 0 {
        assert r[i] == t[i - 1];
      }
    }
  }

  lemma {:induction false} InsertSorted<T>(x: T, s: seq<T>, key: T -> int)
    requires SortedDesc(s, key)
    ensures SortedDesc(Insert(x, s, key), key)
  {
    if s == [] {
      assert Insert(x, s, key) == [x];
    } else {
      SortedTail(s, key);
      if key(s[0]) >= key(x) {
        InsertSorted(x, s[1..], key);
        assert forall m :: 0 <= m < |s[1..]| ==> key(s[1..][m]) <= key(s[0]);
        InsertBounded(x, s[1..], key, key(s[0]));
        SortedCons(s[0], Insert(x, s[1..], key), key);
      } else {
        SortedCons(x, s, key);
      }
    }
  }

  /** Stable insertion sort, non-increasing in `key`. */
  function SortDesc<T>(s: seq<T>, key: T -> int): (r: seq<T>)
    ensures |r| == |s|
    ensures SortedDesc(r, key)
  {
    if s == [] then []
    else
      var sorted := SortDesc(s[..|s| - 1], key);
      InsertSorted(s[|s| - 1], sorted, key);
      Insert(s[|s| - 1], sorted, key)
  }

  /** Sorting only reorders: the result is a permutation of the input. */
  lemma {:induction false} SortDescPerm<T>(s: seq<T>, key: T -> int)
    ensures multiset(SortDesc(s, key)) == multiset(s)
  {
    if s != [] {
      SortDescPerm(s[..|s| - 1], key);
      InsertPerm(s[|s| - 1], SortDesc(s[..|s| - 1], key), key);
      assert s == s[..|s| - 1] + [s[|s| - 1]];
    }
  }

  /** The elements of `s` whose key is `k`, in their order in `s`. */
  function WithKey<T>(s: seq<T>, key: T -> int, k: int): seq<T> {
    if s == [] then []
    else WithKey(s[..|s| - 1], key, k) + (if key(s[|s| - 1]) == k then [s[|s| - 1]] else [])
  }

  lemma {:induction false} WithKeyAppend<T>(a: seq<T>, b: seq<T>, key: T -> int, k: int)
    ensures WithKey(a + b, key, k) == WithKey(a, key, k) + WithKey(b, key, k)
    decreases |b|
  {
    if b == [] {
      assert a + b == a;
    } else {
      assert (a + b)[..|a + b| - 1] == a + b[..|b| - 1];
      WithKeyAppend(a, b[..|b| - 1], key, k);
    }
  }

  lemma {:induction false} WithKeyAllBelow<T>(s: seq<T>, key: T -> int, k: int)
    requires forall i :: 0 <= i < |s| ==> key(s[i]) < k
    ensures WithKey(s, key, k) == []
  {
    if s != [] {
      WithKeyAllBelow(s[..|s| - 1], key, k);
    }
  }

  lemma SortedTail<T>(s: seq<T>, key: T -> int)
    requires s != [] && SortedDesc(s, key)
    ensures SortedDesc(s[1..], key)
    ensures forall m :: 0 <= m < |s| ==> key(s[m]) <= key(s[0])
  {
    assert forall i :: 0 <= i < |s[1..]| ==> s[1..][i] == s[i + 1];
  }

  lemma WithKeySingle<T>(x: T, key: T -> int, k: int)
    ensures WithKey([x], key, k) == if key(x) == k then [x] else []
  {
    assert [x][..0] == [];
  }

  lemma WithKeyCons<T>(y: T, t: seq<T>, key: T -> int, k: int)
    ensures WithKey([y] + t, key, k) == WithKey([y], key, k) + WithKey(t, key, k)
  {
    WithKeyAppend([y], t, key, k);
  }

  /** `x` goes in front of `s`: none of `s` can share its key. */
  lemma InsertFrontWithKey<T>(x: T, s: seq<T>, key: T -> int, k: int)
    requires s != [] && key(s[0]) < key(x)
    requires forall m :: 0 <= m < |s| ==> key(s[m]) <= key(s[0])
    ensures WithKey(Insert(x, s, key), key, k) == WithKey(s, key, k) + WithKey([x], key, k)
  {
    assert Insert(x, s, key) == [x] + s;
    WithKeyAppend([x], s, key, k);
    WithKeySingle(x, key, k);
    if key(x) == k {
      WithKeyAllBelow(s, key, k);
    }
  }

  /** `x` goes behind the head of `s`, given the fact for the tail. */
  lemma InsertBehindWithKey<T>(x: T, s: seq<T>, key: T -> int, k: int)
    requires s != [] && key(s[0]) >= key(x)
    requires WithKey(Insert(x, s[1..], key), key, k) == WithKey(s[1..], key, k) + WithKey([x], key, k)
    ensures WithKey(Insert(x, s, key), key, k) == WithKey(s, key, k) + WithKey([x], key, k)
  {
    var h, t := s[0], s[1..];
    var r := Insert(x, t, key);
    assert Insert(x, s, key) == [h] + r;
    assert s == [h] + t;
    WithKeyCons(h, r, key, k);
    WithKeyCons(h, t, key, k);
  }

  /** Inserting into a sorted sequence puts `x` after every element of
      `s` that has the same key. */
  lemma {:induction false} InsertWithKey<T>(x: T, s: seq<T>, key: T -> int, k: int)
    requires SortedDesc(s, key)
    ensures WithKey(Insert(x, s, key), key, k) == WithKey(s, key, k) + WithKey([x], key, k)
  {
    if s == [] {
      assert Insert(x, [], key) == [x];
    } else {
      SortedTail(s, key);
      if key(s[0]) >= key(x) {
        InsertWithKey(x, s[1..], key, k);
        InsertBehindWithKey(x, s, key, k);
      } else {
        InsertFrontWithKey(x, s, key, k);
      }
    }
  }

  /** Stability: the elements sharing any one key keep their input order. */
  lemma {:induction false} SortDescStable<T>(s: seq<T>, key: T -> int, k: int)
    ensures WithKey(SortDesc(s, key), key, k) == WithKey(s, key, k)
  {
    if s != [] {
      SortDescStable(s[..|s| - 1], key, k);
      InsertWithKey(s[|s| - 1], SortDesc(s[..|s| - 1], key), key, k);
      WithKeySingle(s[|s| - 1], key, k);
    }
  }

  /** Sum of a weight over the elements. */
  function SumKeys<T>(s: seq<T>, weight: T -> int): int {
    if s == [] then 0 else SumKeys(s[..|s| - 1], weight) + weight(s[|s| - 1])
  }

  lemma {:induction false} SumKeysCons<T>(x: T, s: seq<T>, weight: T -> int)
    ensures SumKeys([x] + s, weight) == weight(x) + SumKeys(s, weight)
    decreases |s|
  {
    if s == [] {
      assert [x] + s == [x];
      assert [x][..0] == [];
    } else {
      assert ([x] + s)[..|s|] == [x] + s[..|s| - 1];
      SumKeysCons(x, s[..|s| - 1], weight);
    }
  }

  lemma {:induction false} SumKeysInsert<T>(x: T, s: seq<T>, key: T -> int, weight: T -> int)
    ensures SumKeys(Insert(x, s, key), weight) == weight(x) + SumKeys(s, weight)
  {
    if s == [] {
      SumKeysCons(x, s, weight);
    } else if key(s[0]) >= key(x) {
      SumKeysInsert(x, s[1..], key, weight);
      SumKeysCons(s[0], Insert(x, s[1..], key), weight);
      SumKeysCons(s[0], s[1..], weight);
      assert [s[0]] + s[1..] == s;
    } else {
      SumKeysCons(x, s, weight);
    }
  }

  /** Sorting by any key keeps the total of any weight. */
  lemma {:induction false} SumKeysSortDesc<T>(s: seq<T>, key: T -> int, weight: T -> int)
    ensures SumKeys(SortDesc(s, key), weight) == SumKeys(s, weight)
  {
    if s != [] {
      SumKeysSortDesc(s[..|s| - 1], key, weight);
      SumKeysInsert(s[|s| - 1], SortDesc(s[..|s| - 1], key), key, weight);
    }
  }

  /** `Insert` places `x` at the first position whose element has a
      smaller key. */
  lemma {:induction false} InsertAt<T>(x: T, p: seq<T>, j: nat, key: T -> int)
    requires j <= |p|
    requires forall m :: 0 <= m < j ==> key(p[m]) >= key(x)
    requires forall m :: j <= m < |p| ==> key(p[m]) < key(x)
    ensures Insert(x, p, key) == p[..j] + [x] + p[j..]
  {
    if j == 0 {
      if p != [] {
        assert key(p[0]) < key(x);
      }
      assert p[..0] + [x] + p[0..] == [x] + p;
    } else {
      var h, t := p[0], p[1..];
      assert key(h) >= key(x);
      assert forall m :: 0 <= m < j - 1 ==> t[m] == p[m + 1];
      assert forall m :: j - 1 <= m < |t| ==> t[m] == p[m + 1];
      InsertAt(x, t, j - 1, key);
      assert p[..j] == [h] + t[..j - 1];
      assert p[j..] == t[j - 1..];
    }
  }

  /** One step of the in-place sort: shifts the prefix elements with a
      smaller key than `a[i]` one place right and drops `a[i]` into the gap. */
  method InsertStep<T>(a: array<T>, i: nat, key: T -> int)
    requires i < a.Length && SortedDesc(a[..i], key)
    modifies a
    ensures a[..i + 1] == Insert(old(a[i]), old(a[..i]), key)
    ensures a[i + 1..] == old(a[i + 1..])
  {
    var x := a[i];
    ghost var p := a[..i];
    var j := ShiftSmaller(a, i, x, key);
    a[j] := x;
    SortedAbove(p, j, x, key);
    InsertAt(x, p, j, key);
    ghost var q := p[..j] + [x] + p[j..];
    assert forall m :: 0 <= m <= i ==> a[m] == q[m];
  }

  /** The shifting loop of `InsertStep`: moves the elements just before
      `a[i]` whose key is smaller than `key(x)` one place right, and returns
      the gap it leaves. */
  method ShiftSmaller<T>(a: array<T>, i: nat, x: T, key: T -> int) returns (j: nat)
    requires i < a.Length
    modifies a
    ensures j <= i
    ensures forall m :: 0 <= m < j ==> a[m] == old(a[m])
    ensures forall m :: j < m <= i ==> a[m] == old(a[m - 1])
    ensures forall m :: i < m < a.Length ==> a[m] == old(a[m])
    ensures forall m :: j <= m < i ==> key(old(a[m])) < key(x)
    ensures j > 0 ==> key(old(a[j - 1])) >= key(x)
  {
    j := i;
    while j > 0 && key(a[j - 1]) < key(x)
      invariant 0 <= j <= i
      invariant forall m :: 0 <= m < j ==> a[m] == old(a[m])
      invariant forall m :: j < m <= i ==> a[m] == old(a[m - 1])
      invariant forall m :: i < m < a.Length ==> a[m] == old(a[m])
      invariant forall m :: j <= m < i ==> key(old(a[m])) < key(x)
    {
      a[j] := a[j - 1];
      j := j - 1;
    }
  }

  /** In a sorted sequence, everything before a position whose predecessor
      has a key at least `key(x)` has a key at least `key(x)`. */
  lemma SortedAbove<T>(p: seq<T>, j: nat, x: T, key: T -> int)
    requires j <= |p| && SortedDesc(p, key)
    requires j > 0 ==> key(p[j - 1]) >= key(x)
    ensures forall m :: 0 <= m < j ==> key(p[m]) >= key(x)
  {
  }

  /** In-place stable insertion sort of an array; the result is the one
      `SortDesc` specifies. */
  method SortInPlace<T>(a: array<T>, key: T -> int)
    modifies a
    ensures a[..] == SortDesc(old(a[..]), key)
  {
    ghost var input := a[..];
    var i := 0;
    while i < a.Length
      invariant 0 <= i <= a.Length
      invariant a[..i] == SortDesc(input[..i], key)
      invariant a[i..] == input[i..]
    {
      assert a[i] == input[i];
      InsertStep(a, i, key);
      assert input[..i + 1][..i] == input[..i];
      i := i + 1;
    }
    assert input[..a.Length] == input;
  }
}
