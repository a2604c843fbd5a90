// Sorting by descending key with ties in their original order: what
// `list.sort(key=..., reverse=True)` and sorting by a negated key both do.
module StableSort {
  import opened Filters

  /** `x` goes after everything with a greater key and before everything else. */
  function Insert<T>(x: T, s: seq<T>, key: T -> real): seq<T> {
    if s == [] || key(s[0]) <= key(x) then [x] + s
    else [s[0]] + Insert(x, s[1..], key)
  }

  function SortDesc<T>(s: seq<T>, key: T -> real): seq<T> {
    if s == [] then [] else Insert(s[0], SortDesc(s[1..], key), key)
  }

  ghost predicate Descending<T>(s: seq<T>, key: T -> real) {
    forall i, j :: 0 <= i < j < |s| ==> key(s[i]) >= key(s[j])
  }

  /** The elements whose key is `v`, in order. */
  function WithKey<T>(s: seq<T>, key: T -> real, v: real): seq<T> {
    if s == [] then []
    else if key(s[0]) == v then [s[0]] + WithKey(s[1..], key, v)
    else WithKey(s[1..], key, v)
  }

  lemma {:induction false} InsertKeeps<T>(x: T, s: seq<T>, key: T -> real)
    ensures multiset(Insert(x, s, key)) == multiset{x} + multiset(s)
    ensures |Insert(x, s, key)| == |s| + 1
  {
    if s == [] || key(s[0]) <= key(x) {
    } else {
      InsertKeeps(x, s[1..], key);
      assert s == [s[0]] + s[1..];
    }
  }

  /** Descending, by its neighbours. */
  lemma DescendingCons<T>(x: T, s: seq<T>, key: T -> real)
    requires Descending(s, key)
    requires s != [] ==> key(x) >= key(s[0])
    ensures Descending([x] + s, key)
  {
    var r := [x] + s;
    forall i, j | 0 <= i < j < |r| ensures key(r[i]) >= key(r[j]) {
      assert r[j] == s[j - 1];
      if i > 0 {
        assert r[i] == s[i - 1];
      }
    }
  }

  lemma {:induction false} InsertSorts<T>(x: T, s: seq<T>, key: T -> real)
    requires Descending(s, key)
    ensures Descending(Insert(x, s, key), key)
  {
    if s == [] || key(s[0]) <= key(x) {
      DescendingCons(x, s, key);
    } else {
      InsertSorts(x, s[1..], key);
      DescendingCons(s[0], Insert(x, s[1..], key), key);
    }
  }

  /** The result is in descending order and holds the same elements. */
  lemma {:induction false} SortSorts<T>(s: seq<T>, key: T -> real)
    ensures Descending(SortDesc(s, key), key)
    ensures multiset(SortDesc(s, key)) == multiset(s) && |SortDesc(s, key)| == |s|
  {
    if s != [] {
      SortSorts(s[1..], key);
      InsertSorts(s[0], SortDesc(s[1..], key), key);
      InsertKeeps(s[0], SortDesc(s[1..], key), key);
      assert s == [s[0]] + s[1..];
    }
  }

  lemma {:induction false} InsertStable<T>(x: T, s: seq<T>, key: T -> real, v: real)
    requires Descending(s, key)
    ensures WithKey(Insert(x, s, key), key, v) == (if key(x) == v then [x] else []) + WithKey(s, key, v)
  {
    if s == [] || key(s[0]) <= key(x) {
      assert Insert(x, s, key)[1..] == s;
    } else {
      InsertStable(x, s[1..], key, v);
      assert Insert(x, s, key)[1..] == Insert(x, s[1..], key);
      if key(x) == v {
        LaterKeysSmaller(s, key, v);
      }
    }
  }

  lemma LaterKeysSmaller<T>(s: seq<T>, key: T -> real, v: real)
    requires s != [] && key(s[0]) > v
    ensures WithKey(s, key, v) == WithKey(s[1..], key, v)
  {
  }

  /** Ties keep their order: the elements of each key are the same sequence. */
  lemma {:induction false} SortStable<T>(s: seq<T>, key: T -> real, v: real)
    ensures WithKey(SortDesc(s, key), key, v) == WithKey(s, key, v)
  {
    if s != [] {
      SortStable(s[1..], key, v);
      SortSorts(s[1..], key);
      InsertStable(s[0], SortDesc(s[1..], key), key, v);
    }
  }

  /** `s[i]` is the first element of greatest key. */
  ghost predicate FirstMax<T>(s: seq<T>, key: T -> real, i: int) {
    && 0 <= i < |s|
    && (forall j :: 0 <= j < |s| ==> key(s[j]) <= key(s[i]))
    && forall j :: 0 <= j < i ==> key(s[j]) < key(s[i])
  }

  /** The sorted sequence starts with the first element of greatest key. */
  lemma {:induction false} SortHead<T>(s: seq<T>, key: T -> real) returns (i: nat)
    requires s != []
    ensures FirstMax(s, key, i) && SortDesc(s, key) != [] && SortDesc(s, key)[0] == s[i]
  {
    if |s| == 1 {
      i := 0;
    } else {
      var k := SortHead(s[1..], key);
      var sorted := SortDesc(s[1..], key);
      assert forall j :: 1 <= j < |s| ==> s[j] == s[1..][j - 1];
      if key(sorted[0]) <= key(s[0]) {
        i := 0;
      } else {
        i := k + 1;
      }
    }
  }

  /** Sorting is determined by order and stability alone. */
  lemma {:induction false} SortUnique<T>(s: seq<T>, t: seq<T>, key: T -> real)
    requires Descending(s, key) && Descending(t, key)
    requires forall v :: WithKey(s, key, v) == WithKey(t, key, v)
    ensures s == t
  {
    if s == [] {
      if t != [] {
        SameHead(t, s, key);
      }
    } else {
      var v := key(s[0]);
      assert WithKey(s, key, v) == WithKey(t, key, v);
      SameHead(s, t, key);
      forall u ensures WithKey(s[1..], key, u) == WithKey(t[1..], key, u) {
        assert WithKey(s, key, u) == WithKey(t, key, u);
        if u == v {
          assert WithKey(s, key, u)[1..] == WithKey(s[1..], key, u);
          assert WithKey(t, key, u)[1..] == WithKey(t[1..], key, u);
        }
      }
      SortUnique(s[1..], t[1..], key);
      assert s == [s[0]] + s[1..] && t == [t[0]] + t[1..];
    }
  }

  lemma {:induction false} WithKeyIn<T>(s: seq<T>, key: T -> real, v: real)
    ensures forall x :: x in WithKey(s, key, v) <==> x in s && key(x) == v
  {
    if s != [] {
      WithKeyIn(s[1..], key, v);
      assert s == [s[0]] + s[1..];
    }
  }

  lemma SameHead<T>(s: seq<T>, t: seq<T>, key: T -> real)
    requires s != [] && Descending(s, key) && Descending(t, key)
    requires forall v :: WithKey(s, key, v) == WithKey(t, key, v)
    ensures t != [] && t[0] == s[0]
  {
    var v := key(s[0]);
    WithKeyIn(s, key, v);
    WithKeyIn(t, key, v);
    assert WithKey(s, key, v) == WithKey(t, key, v);
    assert s[0] in WithKey(t, key, v);
    var u := key(t[0]);
    WithKeyIn(s, key, u);
    WithKeyIn(t, key, u);
    assert WithKey(s, key, u) == WithKey(t, key, u);
    assert t[0] in WithKey(s, key, u);
    assert u == v;
    assert WithKey(s, key, v)[0] == s[0] && WithKey(t, key, v)[0] == t[0];
  }

  /** Falling keys, and rising positions where keys are equal. */
  ghost predicate Ranked<T>(s: seq<T>, key: T -> real, pos: T -> int) {
    forall i, j :: 0 <= i < j < |s| ==> Precedes(s[i], s[j], key, pos)
  }

  predicate Precedes<T>(x: T, y: T, key: T -> real, pos: T -> int) {
    key(x) > key(y) || (key(x) == key(y) && pos(x) < pos(y))
  }

  lemma RankedAt<T>(s: seq<T>, key: T -> real, pos: T -> int, i: nat, j: nat)
    requires Ranked(s, key, pos) && i < j < |s|
    ensures Precedes(s[i], s[j], key, pos)
  {
  }

  lemma RankedCons<T>(x: T, s: seq<T>, key: T -> real, pos: T -> int)
    requires Ranked(s, key, pos) && forall y :: y in s ==> Precedes(x, y, key, pos)
    ensures Ranked([x] + s, key, pos)
  {
    hide Precedes;
    var r := [x] + s;
    forall i, j | 0 <= i < j < |r| ensures Precedes(r[i], r[j], key, pos) {
      assert r[j] == s[j - 1] && s[j - 1] in s;
      if i > 0 {
        assert r[i] == s[i - 1];
      }
    }
  }

  lemma RankedTail<T>(s: seq<T>, key: T -> real, pos: T -> int)
    requires s != [] && Ranked(s, key, pos)
    ensures Ranked(s[1..], key, pos) && forall y :: y in s[1..] ==> Precedes(s[0], y, key, pos)
  {
    hide Precedes;
    assert forall i :: 0 <= i < |s| - 1 ==> s[1..][i] == s[i + 1];
  }

  lemma {:induction false} InsertRanks<T>(x: T, s: seq<T>, key: T -> real, pos: T -> int)
    requires Ranked(s, key, pos) && forall y :: y in s ==> pos(x) < pos(y)
    ensures Ranked(Insert(x, s, key), key, pos)
  {
    if s == [] {
      RankedCons(x, s, key, pos);
    } else {
      RankedTail(s, key, pos);
      assert s == [s[0]] + s[1..];
      if key(s[0]) <= key(x) {
        RankedCons(x, s, key, pos);
      } else {
        InsertRanks(x, s[1..], key, pos);
        InsertKeeps(x, s[1..], key);
        forall y | y in Insert(x, s[1..], key) ensures Precedes(s[0], y, key, pos) {
          assert y in multiset(Insert(x, s[1..], key));
        }
        RankedCons(s[0], Insert(x, s[1..], key), key, pos);
      }
    }
  }

  /** The list runs by rising position. */
  ghost predicate Rising<T>(s: seq<T>, pos: T -> int) {
    forall i, j :: 0 <= i < j < |s| ==> pos(s[i]) < pos(s[j])
  }

  /** Sorting a list that runs by rising position ranks it. */
  lemma {:induction false} SortRanks<T>(s: seq<T>, key: T -> real, pos: T -> int)
    requires Rising(s, pos)
    ensures Ranked(SortDesc(s, key), key, pos)
  {
    if s != [] {
      var rest := s[1..];
      assert s == [s[0]] + rest;
      assert forall i :: 0 <= i < |rest| ==> rest[i] == s[i + 1];
      SortRanks(rest, key, pos);
      SortSorts(rest, key);
      forall y | y in SortDesc(rest, key) ensures pos(s[0]) < pos(y) {
        assert y in multiset(SortDesc(rest, key));
        var i :| 0 <= i < |rest| && rest[i] == y;
        assert s[i + 1] == y;
      }
      InsertRanks(s[0], SortDesc(rest, key), key, pos);
    }
  }

  /** Leaving elements out does not change the order of the others. */
  lemma RisingFilter<T>(s: seq<T>, p: T -> bool, pos: T -> int)
    requires Rising(s, pos)
    ensures Rising(Filter(s, p), pos)
  {
    hide Filter;
    var kept := Filter(s, p);
    forall i, j | 0 <= i < j < |kept| ensures pos(kept[i]) < pos(kept[j]) {
      var a, b := FilterInOrder(s, p, i, j);
    }
  }
}
