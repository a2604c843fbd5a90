// Keeping the elements of a sequence that pass a test, in order.
module Filters {

  function Filter<T>(s: seq<T>, p: T -> bool): (r: seq<T>)
    ensures |r| <= |s|
  {
    if s == [] then []
    else (if p(s[0]) then [s[0]] else []) + Filter(s[1..], p)
  }

  lemma {:induction false} FilterConcat<T>(s: seq<T>, t: seq<T>, p: T -> bool)
    ensures Filter(s + t, p) == Filter(s, p) + Filter(t, p)
  {
    hide Filter;
    if s == [] {
      FilterAll(s, p);
      assert s + t == t;
      assert [] + Filter(t, p) == Filter(t, p);
    } else {
      FilterConcat(s[1..], t, p);
      FilterHead(s + t, p);
      FilterHead(s, p);
      assert (s + t)[1..] == s[1..] + t;
      var head := if p(s[0]) then [s[0]] else [];
      Associates(head, Filter(s[1..], p), Filter(t, p));
    }
  }

  lemma Associates<T>(a: seq<T>, b: seq<T>, c: seq<T>)
    ensures a + (b + c) == (a + b) + c
  {
  }

  lemma FilterHead<T>(s: seq<T>, p: T -> bool)
    requires s != []
    ensures Filter(s, p) == (if p(s[0]) then [s[0]] else []) + Filter(s[1..], p)
  {
  }

  /** Filtering one element more. */
  lemma FilterNext<T>(s: seq<T>, i: nat, p: T -> bool)
    requires i < |s|
    ensures Filter(s[..i + 1], p) == Filter(s[..i], p) + if p(s[i]) then [s[i]] else []
  {
    assert s[..i + 1] == s[..i] + [s[i]];
    FilterConcat(s[..i], [s[i]], p);
  }

  lemma {:induction false} FilterMember<T>(s: seq<T>, p: T -> bool)
    ensures forall x :: x in Filter(s, p) <==> x in s && p(x)
  {
    if s != [] {
      FilterMember(s[1..], p);
      assert s == [s[0]] + s[1..];
    }
  }

  lemma {:induction false} FilterAgree<T>(s: seq<T>, p: T -> bool, q: T -> bool)
    requires forall x :: x in s ==> p(x) == q(x)
    ensures Filter(s, p) == Filter(s, q)
  {
    if s != [] {
      assert s[0] in s;
      assert forall x :: x in s[1..] ==> x in s;
      FilterAgree(s[1..], p, q);
    }
  }

  lemma {:induction false} FilterNested<T>(s: seq<T>, p: T -> bool, q: T -> bool, both: T -> bool)
    requires forall x :: x in s ==> both(x) == (p(x) && q(x))
    ensures Filter(Filter(s, p), q) == Filter(s, both)
  {
    if s != [] {
      assert s[0] in s;
      assert forall x :: x in s[1..] ==> x in s;
      FilterNested(s[1..], p, q, both);
      FilterConcat(if p(s[0]) then [s[0]] else [], Filter(s[1..], p), q);
    }
  }

  lemma {:induction false} FilterAll<T>(s: seq<T>, p: T -> bool)
    requires forall x :: x in s ==> p(x)
    ensures Filter(s, p) == s
  {
    if s != [] {
      assert s[0] in s;
      assert forall x :: x in s[1..] ==> x in s;
      FilterAll(s[1..], p);
    }
  }

  lemma {:induction false} FilterNone<T>(s: seq<T>, p: T -> bool)
    requires forall x :: x in s ==> !p(x)
    ensures Filter(s, p) == []
  {
    if s != [] {
      assert s[0] in s;
      assert forall x :: x in s[1..] ==> x in s;
      FilterNone(s[1..], p);
    }
  }

  lemma {:induction false} FilterSplits<T>(s: seq<T>, p: T -> bool, q: T -> bool)
    requires forall x :: x in s ==> q(x) == !p(x)
    ensures multiset(Filter(s, p)) + multiset(Filter(s, q)) == multiset(s)
    ensures |Filter(s, p)| + |Filter(s, q)| == |s|
  {
    if s != [] {
      assert s[0] in s;
      assert forall x :: x in s[1..] ==> x in s;
      FilterSplits(s[1..], p, q);
      FilterHead(s, p);
      FilterHead(s, q);
      assert s == [s[0]] + s[1..];
      hide Filter;
      if p(s[0]) {
        AddFirst(s[0], Filter(s[1..], p), Filter(s[1..], q), s[1..]);
      } else {
        AddSecond(s[0], Filter(s[1..], p), Filter(s[1..], q), s[1..]);
      }
    }
  }

  lemma AddFirst<T>(x: T, a: seq<T>, b: seq<T>, s: seq<T>)
    requires multiset(a) + multiset(b) == multiset(s)
    ensures multiset([x] + a) + multiset([] + b) == multiset([x] + s)
  {
    assert [] + b == b;
    assert multiset([x] + a) == multiset{x} + multiset(a) && multiset([x] + s) == multiset{x} + multiset(s);
  }

  lemma AddSecond<T>(x: T, a: seq<T>, b: seq<T>, s: seq<T>)
    requires multiset(a) + multiset(b) == multiset(s)
    ensures multiset([] + a) + multiset([x] + b) == multiset([x] + s)
  {
    assert [] + a == a;
    assert multiset([x] + b) == multiset{x} + multiset(b) && multiset([x] + s) == multiset{x} + multiset(s);
  }

  /** The first element of the result is the first that passes. */
  lemma {:induction false} FilterFirst<T>(s: seq<T>, p: T -> bool) returns (i: nat)
    requires Filter(s, p) != []
    ensures i < |s| && p(s[i]) && Filter(s, p)[0] == s[i]
    ensures forall j :: 0 <= j < i ==> !p(s[j])
  {
    if p(s[0]) {
      i := 0;
    } else {
      i := FilterFirst(s[1..], p);
      assert forall j :: 1 <= j < |s| ==> s[j] == s[1..][j - 1];
      i := i + 1;
    }
  }

  function Map<T, U>(s: seq<T>, f: T -> U): (r: seq<U>)
    ensures |r| == |s| && forall k :: 0 <= k < |s| ==> r[k] == f(s[k])
  {
    if s == [] then [] else [f(s[0])] + Map(s[1..], f)
  }

  lemma {:induction false} MapConcat<T, U>(s: seq<T>, t: seq<T>, f: T -> U)
    ensures Map(s + t, f) == Map(s, f) + Map(t, f)
  {
  }

  function Without<T>(t: seq<T>, k: nat): (r: seq<T>)
    requires k < |t|
    ensures |r| == |t| - 1
  {
    t[..k] + t[k + 1..]
  }

  lemma WithoutSplits<T>(t: seq<T>, k: nat)
    requires k < |t|
    ensures multiset(t) == multiset{t[k]} + multiset(Without(t, k))
  {
    assert t == t[..k] + [t[k]] + t[k + 1..];
  }

  lemma MapWithout<T, U>(t: seq<T>, k: nat, f: T -> U)
    requires k < |t|
    ensures Map(Without(t, k), f) == Without(Map(t, f), k)
  {
    hide Map;
    var a, b := Map(Without(t, k), f), Without(Map(t, f), k);
    assert |a| == |b|;
    forall j | 0 <= j < |a| ensures a[j] == b[j] {
    }
  }

  /** Mapping two orders of the same elements gives two orders of the same
      images. */
  lemma {:induction false} MapPermutes<T, U>(s: seq<T>, t: seq<T>, f: T -> U)
    requires multiset(s) == multiset(t)
    ensures multiset(Map(s, f)) == multiset(Map(t, f))
  {
    if s == [] {
      assert |multiset(t)| == 0;
    } else {
      hide Without, Map;
      assert s[0] in multiset(t);
      var k :| 0 <= k < |t| && t[k] == s[0];
      WithoutSplits(s, 0);
      WithoutSplits(t, k);
      assert multiset(Without(s, 0)) == multiset(s) - multiset{s[0]};
      assert multiset(Without(t, k)) == multiset(t) - multiset{s[0]};
      MapPermutes(Without(s, 0), Without(t, k), f);
      MapWithout(s, 0, f);
      MapWithout(t, k, f);
      WithoutSplits(Map(s, f), 0);
      WithoutSplits(Map(t, f), k);
    }
  }

  lemma {:induction false} FilterCounts<T>(s: seq<T>, p: T -> bool, x: T)
    ensures multiset(Filter(s, p))[x] == if p(x) then multiset(s)[x] else 0
  {
    if s != [] {
      FilterCounts(s[1..], p, x);
      assert s == [s[0]] + s[1..];
      FilterHead(s, p);
    }
  }

  /** The number of elements that pass does not depend on the order. */
  lemma FilterPermutes<T(!new)>(s: seq<T>, t: seq<T>, p: T -> bool)
    requires multiset(s) == multiset(t)
    ensures |Filter(s, p)| == |Filter(t, p)|
  {
    hide Filter;
    forall x: T ensures multiset(Filter(s, p))[x] == multiset(Filter(t, p))[x] {
      FilterCounts(s, p, x);
      FilterCounts(t, p, x);
    }
    assert multiset(Filter(s, p)) == multiset(Filter(t, p));
    assert |multiset(Filter(s, p))| == |Filter(s, p)| && |multiset(Filter(t, p))| == |Filter(t, p)|;
  }

  /** Where element `k` of the filtered sequence comes from: what stands before it
      there is what passes before it here. */
  lemma {:induction false} FilterPlace<T>(s: seq<T>, p: T -> bool, k: nat) returns (i: nat)
    requires k < |Filter(s, p)|
    ensures i < |s| && s[i] == Filter(s, p)[k] && Filter(s[..i], p) == Filter(s, p)[..k]
  {
    hide Filter;
    FilterHead(s, p) by {
      NoneLeft(s, p);
    }
    var rest := Filter(s[1..], p);
    if p(s[0]) && k == 0 {
      i := 0;
      FilterAll(s[..0], p);
    } else {
      var m := if p(s[0]) then k - 1 else k;
      var n := FilterPlace(s[1..], p, m);
      i := n + 1;
      assert s[..i] == [s[0]] + s[1..][..n];
      FilterHead(s[..i], p);
      assert s[..i][1..] == s[1..][..n];
    }
  }

  lemma NoneLeft<T>(s: seq<T>, p: T -> bool)
    requires Filter(s, p) != []
    ensures s != []
  {
  }

  lemma FilterGrows<T>(s: seq<T>, p: T -> bool, m: nat, n: nat)
    requires m <= n <= |s|
    ensures |Filter(s[..m], p)| <= |Filter(s[..n], p)|
  {
    FilterConcat(s[..m], s[m..n], p);
    assert s[..n] == s[..m] + s[m..n];
  }

  /** Two elements of the filtered sequence stand in the same order in the whole one. */
  lemma FilterInOrder<T>(s: seq<T>, p: T -> bool, i: nat, j: nat) returns (a: nat, b: nat)
    requires i < j < |Filter(s, p)|
    ensures a < b < |s| && s[a] == Filter(s, p)[i] && s[b] == Filter(s, p)[j]
  {
    hide Filter;
    a := FilterPlace(s, p, i);
    b := FilterPlace(s, p, j);
    if b <= a {
      FilterGrows(s, p, b, a);
    }
  }

  /** Where the first element that passes stands, or the length if none does. */
  function FirstPlace<T>(s: seq<T>, p: T -> bool): (n: nat)
    ensures n <= |s|
    ensures n < |s| ==> p(s[n])
    ensures forall j :: 0 <= j < n ==> !p(s[j])
  {
    if s == [] || p(s[0]) then 0
    else
      var n := FirstPlace(s[1..], p);
      assert forall j :: 1 <= j < |s| ==> s[j] == s[1..][j - 1];
      n + 1
  }
}
