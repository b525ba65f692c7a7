/** Python's `list.sort(key=..., reverse=...)` on lists whose keys are
    `str` or `int` values.

    The sort is stable, also with `reverse=True` (records with equal keys keep
    their original order), so its result is determined by the list, the key
    function and the direction: `StableSort` is that result, written as an
    insertion sort, and `SortInPlace` sorts an array against it. */
module ListSort {

  import opened PyStrings

  /** A sort key: text compares as Python `str`, numbers as `int`. The key
      functions used here each yield one kind only, so the order placed
      between the kinds is never consulted. */
  datatype Key = Text(t: string) | Number(n: int)

  predicate KeyLt(a: Key, b: Key) {
    match (a, b)
    case (Number(x), Number(y)) => x < y
    case (Text(x), Text(y)) => StrLt(x, y)
    case (Number(_), Text(_)) => true
    case (Text(_), Number(_)) => false
  }

  lemma KeyLtIrreflexive(a: Key)
    ensures !KeyLt(a, a)
  {
    if a.Text? {
      StrLtIrreflexive(a.t);
    }
  }

  lemma KeyLtTransitive(a: Key, b: Key, c: Key)
    requires KeyLt(a, b) && KeyLt(b, c)
    ensures KeyLt(a, c)
  {
    if a.Text? && b.Text? && c.Text? {
      StrLtTransitive(a.t, b.t, c.t);
    }
  }

  lemma KeyLtTotal(a: Key, b: Key)
    ensures a == b || KeyLt(a, b) || KeyLt(b, a)
  {
    if a.Text? && b.Text? {
      StrLtTotal(a.t, b.t);
    }
  }

  /** `x` must come before `y` in the sorted list: its key is smaller, or
      larger with `reverse=True`. Equal keys never move past each other. */
  predicate Before<T>(x: T, y: T, key: T -> Key, desc: bool) {
    if desc then KeyLt(key(y), key(x)) else KeyLt(key(x), key(y))
  }

  lemma BeforeAsymmetric<T>(x: T, y: T, key: T -> Key, desc: bool)
    requires Before(x, y, key, desc)
    ensures !Before(y, x, key, desc) && key(x) != key(y)
  {
    KeyLtIrreflexive(key(x));
    if desc {
      if KeyLt(key(x), key(y)) {
        KeyLtTransitive(key(y), key(x), key(y));
        KeyLtIrreflexive(key(y));
      }
    } else {
      if KeyLt(key(y), key(x)) {
        KeyLtTransitive(key(x), key(y), key(x));
      }
    }
  }

  /** "Not before" is transitive: the order is total on keys. */
  lemma NotBeforeTransitive<T>(a: T, b: T, x: T, key: T -> Key, desc: bool)
    requires !Before(b, a, key, desc) && !Before(x, b, key, desc)
    ensures !Before(x, a, key, desc)
  {
    var ka, kb, kx := key(a), key(b), key(x);
    KeyLtTotal(ka, kb);
    KeyLtTotal(kb, kx);
    if Before(x, a, key, desc) {
      if kb != ka && kb != kx {
        if desc {
          KeyLtTransitive(kx, kb, ka);
          KeyLtTransitive(ka, kx, ka);
          KeyLtIrreflexive(ka);
        } else {
          KeyLtTransitive(ka, kb, kx);
          KeyLtTransitive(kx, ka, kx);
          KeyLtIrreflexive(kx);
        }
      }
    }
  }

  /** Put `x` into the sorted `t` after every element it does not have to
      precede. */
  function Insert<T>(t: seq<T>, x: T, key: T -> Key, desc: bool): seq<T>
    decreases |t|
  {
    if t == [] then [x]
    else if Before(x, t[|t| - 1], key, desc) then Insert(t[..|t| - 1], x, key, desc) + [t[|t| - 1]]
    else t + [x]
  }

  /** `list.sort(key=..., reverse=desc)`: the unique stable sort. */
  function StableSort<T>(s: seq<T>, key: T -> Key, desc: bool): seq<T>
    decreases |s|
  {
    if s == [] then [] else Insert(StableSort(s[..|s| - 1], key, desc), s[|s| - 1], key, desc)
  }

  /** No element has to precede one that comes before it. */
  predicate Sorted<T>(s: seq<T>, key: T -> Key, desc: bool) {
    forall i, j :: 0 <= i < j < |s| ==> !Before(s[j], s[i], key, desc)
  }

  /** The elements of `s` whose key is `k`, in their order in `s`. */
  function WithKey<T>(s: seq<T>, key: T -> Key, k: Key): seq<T>
    decreases |s|
  {
    if s == [] then []
    else WithKey(s[..|s| - 1], key, k) + (if key(s[|s| - 1]) == k then [s[|s| - 1]] else [])
  }

  lemma {:induction false} InsertPermutation<T>(t: seq<T>, x: T, key: T -> Key, desc: bool)
    ensures multiset(Insert(t, x, key, desc)) == multiset(t) + multiset{x}
    decreases |t|
  {
    if t != [] && Before(x, t[|t| - 1], key, desc) {
      InsertPermutation(t[..|t| - 1], x, key, desc);
      assert t == t[..|t| - 1] + [t[|t| - 1]];
    }
  }

  /** Every element of `Insert(t, x)` is `x` or an element of `t`. */
  lemma InsertMembers<T>(t: seq<T>, x: T, key: T -> Key, desc: bool, i: nat)
    requires i < |Insert(t, x, key, desc)|
    ensures Insert(t, x, key, desc)[i] == x || Insert(t, x, key, desc)[i] in t
  {
    var u := Insert(t, x, key, desc);
    InsertPermutation(t, x, key, desc);
    assert u[i] in multiset(u);
  }

  /** An element that must precede the last element of a sorted list goes
      before it, and the result stays sorted. */
  lemma InsertSortedBefore<T>(t: seq<T>, x: T, key: T -> Key, desc: bool)
    requires t != [] && Sorted(t, key, desc) && Before(x, t[|t| - 1], key, desc)
    requires Sorted(Insert(t[..|t| - 1], x, key, desc), key, desc)
    ensures Sorted(Insert(t, x, key, desc), key, desc)
  {
    var init, last := t[..|t| - 1], t[|t| - 1];
    var u := Insert(init, x, key, desc);
    forall i | 0 <= i < |u|
      ensures !Before(last, u[i], key, desc)
    {
      InsertMembers(init, x, key, desc, i);
      if u[i] == x {
        BeforeAsymmetric(x, last, key, desc);
      } else {
        var m :| 0 <= m < |init| && init[m] == u[i];
        assert t[m] == u[i];
      }
    }
    assert Insert(t, x, key, desc) == u + [last];
  }

  /** An element that need not precede the last element of a sorted list
      need not precede any of them. */
  lemma InsertSortedAfter<T>(t: seq<T>, x: T, key: T -> Key, desc: bool)
    requires t != [] && Sorted(t, key, desc) && !Before(x, t[|t| - 1], key, desc)
    ensures Sorted(t + [x], key, desc)
  {
    forall i | 0 <= i < |t|
      ensures !Before(x, t[i], key, desc)
    {
      if i < |t| - 1 {
        NotBeforeTransitive(t[i], t[|t| - 1], x, key, desc);
      }
    }
  }

  lemma {:induction false} InsertSorted<T>(t: seq<T>, x: T, key: T -> Key, desc: bool)
    requires Sorted(t, key, desc)
    ensures Sorted(Insert(t, x, key, desc), key, desc)
    decreases |t|
  {
    if t != [] {
      if Before(x, t[|t| - 1], key, desc) {
        InsertSorted(t[..|t| - 1], x, key, desc);
        InsertSortedBefore(t, x, key, desc);
      } else {
        InsertSortedAfter(t, x, key, desc);
      }
    }
  }

  lemma WithKeySnoc<T>(t: seq<T>, y: T, key: T -> Key, k: Key)
    ensures WithKey(t + [y], key, k) == WithKey(t, key, k) + (if key(y) == k then [y] else [])
  {
    assert (t + [y])[..|t|] == t;
  }

  /** Unfolding `Insert` at the last element of a non-empty list. */
  lemma InsertSnoc<T>(t: seq<T>, y: T, x: T, key: T -> Key, desc: bool)
    ensures Insert(t + [y], x, key, desc) ==
      if Before(x, y, key, desc) then Insert(t, x, key, desc) + [y] else t + [y] + [x]
  {
    assert (t + [y])[..|t|] == t;
  }

  lemma {:induction false} InsertWithKey<T>(t: seq<T>, x: T, key: T -> Key, desc: bool, k: Key)
    ensures WithKey(Insert(t, x, key, desc), key, k) == WithKey(t, key, k) + (if key(x) == k then [x] else [])
    decreases |t|
  {
    if t == [] {
      WithKeySnoc([], x, key, k);
      assert [] + [x] == [x];
    } else {
      var init, last := t[..|t| - 1], t[|t| - 1];
      assert t == init + [last];
      InsertSnoc(init, last, x, key, desc);
      WithKeySnoc(init, last, key, k);
      if Before(x, last, key, desc) {
        InsertWithKey(init, x, key, desc, k);
        BeforeAsymmetric(x, last, key, desc);
        WithKeySnoc(Insert(init, x, key, desc), last, key, k);
      } else {
        WithKeySnoc(t, x, key, k);
      }
    }
  }

  /** The sorted list holds exactly the records it was given. */
  lemma {:induction false} StableSortPermutation<T>(s: seq<T>, key: T -> Key, desc: bool)
    ensures multiset(StableSort(s, key, desc)) == multiset(s)
    decreases |s|
  {
    if s != [] {
      StableSortPermutation(s[..|s| - 1], key, desc);
      InsertPermutation(StableSort(s[..|s| - 1], key, desc), s[|s| - 1], key, desc);
      assert s == s[..|s| - 1] + [s[|s| - 1]];
    }
  }

  /** The sorted list is in key order (descending keys when `desc`). */
  lemma {:induction false} StableSortSorted<T>(s: seq<T>, key: T -> Key, desc: bool)
    ensures Sorted(StableSort(s, key, desc), key, desc)
    decreases |s|
  {
    if s != [] {
      StableSortSorted(s[..|s| - 1], key, desc);
      InsertSorted(StableSort(s[..|s| - 1], key, desc), s[|s| - 1], key, desc);
    }
  }

  /** Stability: the records sharing a key keep their relative order. */
  lemma {:induction false} StableSortStable<T>(s: seq<T>, key: T -> Key, desc: bool, k: Key)
    ensures WithKey(StableSort(s, key, desc), key, k) == WithKey(s, key, k)
    decreases |s|
  {
    if s != [] {
      StableSortStable(s[..|s| - 1], key, desc, k);
      InsertWithKey(StableSort(s[..|s| - 1], key, desc), s[|s| - 1], key, desc, k);
    }
  }

  /** Where all keys are equal the sort leaves the list as it is. */
  lemma {:induction false} StableSortSameKey<T>(s: seq<T>, key: T -> Key, desc: bool, k: Key)
    requires forall i :: 0 <= i < |s| ==> key(s[i]) == k
    ensures StableSort(s, key, desc) == s
    decreases |s|
  {
    if s != [] {
      var init := s[..|s| - 1];
      StableSortSameKey(init, key, desc, k);
      KeyLtIrreflexive(k);
      if init != [] {
        assert !Before(s[|s| - 1], init[|init| - 1], key, desc);
      }
      assert s == init + [s[|s| - 1]];
    }
  }

  /** `Insert` places `x` at `j` when every element from `j` on must follow
      it and the one before `j`, if any, need not. */
  lemma {:induction false} InsertAt<T>(t: seq<T>, x: T, j: nat, key: T -> Key, desc: bool)
    requires j <= |t|
    requires forall m :: j <= m < |t| ==> Before(x, t[m], key, desc)
    requires j == 0 || !Before(x, t[j - 1], key, desc)
    ensures Insert(t, x, key, desc) == t[..j] + [x] + t[j..]
    decreases |t|
  {
    if t != [] {
      var init, last := t[..|t| - 1], t[|t| - 1];
      assert t == init + [last];
      InsertSnoc(init, last, x, key, desc);
      if j < |t| {
        assert Before(x, last, key, desc);
        assert forall m :: j <= m < |init| ==> init[m] == t[m];
        InsertAt(init, x, j, key, desc);
        assert t[j..] == init[j..] + [last];
        assert t[..j] == init[..j];
        assert init[..j] + [x] + (init[j..] + [last]) == (init[..j] + [x] + init[j..]) + [last];
      } else {
        assert t[..j] == t && t[j..] == [];
      }
    }
  }

  lemma SplicedAt<T>(t: seq<T>, x: T, j: nat, m: nat)
    requires j <= |t| && m <= |t|
    ensures (t[..j] + [x] + t[j..])[m] == if m < j then t[m] else if m == j then x else t[m - 1]
  {
    if j < m {
      assert (t[..j] + [x] + t[j..])[m] == t[j..][m - j - 1];
    }
  }

  lemma StableSortSnoc<T>(s: seq<T>, i: nat, key: T -> Key, desc: bool)
    requires i < |s|
    ensures StableSort(s[..i + 1], key, desc) == Insert(StableSort(s[..i], key, desc), s[i], key, desc)
  {
    assert s[..i + 1][..i] == s[..i];
  }

  /** One step of the insertion sort: `a[..i]` is sorted, and `a[i]` is
      moved left past the elements it must precede. */
  method InsertStep<T>(a: array<T>, i: nat, key: T -> Key, desc: bool)
    requires i < a.Length
    modifies a
    ensures a[..i + 1] == Insert(old(a[..i]), old(a[i]), key, desc)
    ensures a[i + 1..] == old(a[i + 1..])
  {
    var x := a[i];
    ghost var sorted := a[..i];
    ghost var rest := a[i + 1..];
    var j := i;
    while j > 0 && Before(x, a[j - 1], key, desc)
      invariant 0 <= j <= i
      invariant forall m :: 0 <= m < j ==> a[m] == sorted[m]
      invariant forall m :: j < m <= i ==> a[m] == sorted[m - 1]
      invariant forall m :: j <= m < i ==> Before(x, sorted[m], key, desc)
      invariant a[i + 1..] == rest
    {
      a[j] := a[j - 1];
      j := j - 1;
    }
    a[j] := x;
    InsertAt(sorted, x, j, key, desc);
    ghost var placed := sorted[..j] + [x] + sorted[j..];
    forall m | 0 <= m <= i
      ensures a[m] == placed[m]
    {
      SplicedAt(sorted, x, j, m);
    }
    assert a[..i + 1] == placed;
  }

  /** In-place stable insertion sort of the whole array. */
  method SortInPlace<T>(a: array<T>, key: T -> Key, desc: bool)
    modifies a
    ensures a[..] == StableSort(old(a[..]), key, desc)
  {
    ghost var s := a[..];
    var i := 0;
    while i < a.Length
      invariant 0 <= i <= a.Length
      invariant a[..i] == StableSort(s[..i], key, desc)
      invariant a[i..] == s[i..]
    {
      assert a[i] == s[i] by {
        assert a[i..][0] == s[i..][0];
      }
      InsertStep(a, i, key, desc);
      StableSortSnoc(s, i, key, desc);
      assert a[i + 1..] == s[i + 1..] by {
        assert s[i + 1..] == s[i..][1..];
      }
      i := i + 1;
    }
    assert s[..a.Length] == s;
  }
}
