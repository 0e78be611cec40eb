/** Python's `list.sort`: stable, by a total preorder. */
module Sorting {

  ghost predicate TotalPreorder<T(!new)>(le: (T, T) -> bool) {
    && (forall x, y :: le(x, y) || le(y, x))
    && (forall x, y, z :: le(x, y) && le(y, z) ==> le(x, z))
  }

  ghost predicate Sorted<T>(le: (T, T) -> bool, s: seq<T>) {
    forall i, j :: 0 <= i < j < |s| ==> le(s[i], s[j])
  }

  function Insert<T>(le: (T, T) -> bool, x: T, s: seq<T>): (r: seq<T>)
    ensures multiset(r) == multiset(s) + multiset{x}
  {
    if s == [] then [x]
    else if le(x, s[0]) then [x] + s
    else
      assert s == [s[0]] + s[1..];
      [s[0]] + Insert(le, x, s[1..])
  }

  /** The stable sort: equal elements keep the order they arrive in. */
  function SortBy<T>(le: (T, T) -> bool, s: seq<T>): (r: seq<T>)
    ensures multiset(r) == multiset(s) && |r| == |s|
  {
    if s == [] then []
    else
      assert s == [s[0]] + s[1..];
      var r := Insert(le, s[0], SortBy(le, s[1..]));
      assert |multiset(r)| == |multiset(s)|;
      r
  }

  /** The elements of `s` equivalent to `k`, in order. */
  ghost function Alike<T>(le: (T, T) -> bool, k: T, s: seq<T>): seq<T> {
    if s == [] then []
    else (if le(k, s[0]) && le(s[0], k) then [s[0]] else []) + Alike(le, k, s[1..])
  }

  lemma InMultiset<T>(s: seq<T>, t: seq<T>, x: T)
    requires multiset(s) == multiset(t)
    ensures x in s <==> x in t
  {
    assert x in s <==> x in multiset(s);
    assert x in t <==> x in multiset(t);
  }

  lemma {:induction false} InsertSorted<T(!new)>(le: (T, T) -> bool, x: T, s: seq<T>)
    requires TotalPreorder(le) && Sorted(le, s)
    ensures Sorted(le, Insert(le, x, s))
  {
    if s != [] && !le(x, s[0]) {
      InsertSorted(le, x, s[1..]);
      var r := Insert(le, x, s[1..]);
      forall j | 0 <= j < |r| ensures le(s[0], r[j]) {
        assert r[j] in multiset(r);
        assert r[j] == x || r[j] in s[1..];
      }
    }
  }

  lemma {:induction false} SortBySorted<T(!new)>(le: (T, T) -> bool, s: seq<T>)
    requires TotalPreorder(le)
    ensures Sorted(le, SortBy(le, s))
  {
    if s != [] {
      SortBySorted(le, s[1..]);
      InsertSorted(le, s[0], SortBy(le, s[1..]));
    }
  }

  lemma AlikeCons<T>(le: (T, T) -> bool, k: T, x: T, s: seq<T>)
    ensures Alike(le, k, [x] + s) == (if le(k, x) && le(x, k) then [x] else []) + Alike(le, k, s)
  {
    assert ([x] + s)[1..] == s;
  }

  lemma AlikeSwap<T(!new)>(le: (T, T) -> bool, k: T, x: T, y: T, t: seq<T>)
    requires TotalPreorder(le) && !le(x, y)
    ensures Alike(le, k, [y] + ([x] + t)) == Alike(le, k, [x] + ([y] + t))
  {
    AlikeCons(le, k, x, t);
    AlikeCons(le, k, y, t);
    AlikeCons(le, k, x, [y] + t);
    AlikeCons(le, k, y, [x] + t);
    var a := Alike(le, k, t);
    assert [x] + ([] + a) == [] + ([x] + a) && [y] + ([] + a) == [] + ([y] + a);
  }

  lemma {:induction false} AlikeInsert<T(!new)>(le: (T, T) -> bool, k: T, x: T, s: seq<T>)
    requires TotalPreorder(le)
    ensures Alike(le, k, Insert(le, x, s)) == Alike(le, k, [x] + s)
  {
    if s == [] {
      assert [x] + [] == [x];
    } else if !le(x, s[0]) {
      hide Alike, TotalPreorder;
      AlikeInsert(le, k, x, s[1..]);
      AlikeInsertStep(le, k, x, s[0], s[1..], Insert(le, x, s[1..]));
      assert s == [s[0]] + s[1..];
    }
  }

  lemma AlikeInsertStep<T(!new)>(le: (T, T) -> bool, k: T, x: T, y: T, rest: seq<T>, inserted: seq<T>)
    requires TotalPreorder(le) && !le(x, y) && Alike(le, k, inserted) == Alike(le, k, [x] + rest)
    ensures Alike(le, k, [y] + inserted) == Alike(le, k, [x] + ([y] + rest))
  {
    hide Alike, TotalPreorder;
    AlikeCons(le, k, y, inserted);
    AlikeCons(le, k, y, [x] + rest);
    AlikeSwap(le, k, x, y, rest);
  }

  /** Stability: within a class of equivalent elements the order of arrival is kept. */
  lemma {:induction false} SortByStable<T(!new)>(le: (T, T) -> bool, k: T, s: seq<T>)
    requires TotalPreorder(le)
    ensures Alike(le, k, SortBy(le, s)) == Alike(le, k, s)
  {
    if s != [] {
      SortByStable(le, k, s[1..]);
      var t := SortBy(le, s[1..]);
      AlikeInsert(le, k, s[0], t);
      assert ([s[0]] + t)[1..] == t;
    }
  }

  lemma {:induction false} AlikeHead<T(!new)>(le: (T, T) -> bool, k: T, s: seq<T>)
    requires TotalPreorder(le) && k in s
    ensures Alike(le, k, s) != []
  {
    if s[0] != k {
      AlikeHead(le, k, s[1..]);
    }
  }

  lemma {:induction false} AlikeMember<T(!new)>(le: (T, T) -> bool, k: T, s: seq<T>)
    requires Alike(le, k, s) != []
    ensures exists x :: x in s && le(k, x) && le(x, k)
  {
    if le(k, s[0]) && le(s[0], k) {
      assert s[0] in s;
    } else {
      AlikeMember(le, k, s[1..]);
      var x :| x in s[1..] && le(k, x) && le(x, k);
      assert x in s;
    }
  }

  lemma HeadIsLeast<T(!new)>(le: (T, T) -> bool, k: T, s: seq<T>)
    requires TotalPreorder(le) && Sorted(le, s) && Alike(le, k, s) != []
    ensures s != [] && le(s[0], k)
  {
    AlikeMember(le, k, s);
    var x :| x in s && le(k, x) && le(x, k);
    var i :| 0 <= i < |s| && s[i] == x;
    assert i == 0 || le(s[0], s[i]);
    assert le(s[0], s[0]);
  }

  /** A sorted sequence is determined by its classes of equivalent elements. */
  lemma {:induction false} SortedDetermined<T(!new)>(le: (T, T) -> bool, a: seq<T>, b: seq<T>)
    requires TotalPreorder(le) && Sorted(le, a) && Sorted(le, b)
    requires forall k :: Alike(le, k, a) == Alike(le, k, b)
    ensures a == b
  {
    if b != [] {
      AlikeHead(le, b[0], b);
    }
    if a != [] {
      var k := a[0];
      assert le(k, k);
      AlikeHead(le, k, a);
      HeadIsLeast(le, k, b);
      AlikeHead(le, b[0], b);
      HeadIsLeast(le, b[0], a);
      assert Alike(le, k, a)[0] == k && Alike(le, k, b)[0] == b[0];
      forall j ensures Alike(le, j, a[1..]) == Alike(le, j, b[1..]) {
        var c := if le(j, k) && le(k, j) then [k] else [];
        assert Alike(le, j, a) == c + Alike(le, j, a[1..]);
        assert Alike(le, j, b) == c + Alike(le, j, b[1..]);
        assert (c + Alike(le, j, a[1..]))[|c|..] == Alike(le, j, a[1..]);
        assert (c + Alike(le, j, b[1..]))[|c|..] == Alike(le, j, b[1..]);
      }
      SortedDetermined(le, a[1..], b[1..]);
      assert a == [k] + a[1..] && b == [k] + b[1..];
    }
  }

  /** Two arrival orders that agree on every class sort to the same sequence. */
  lemma SortByDetermined<T(!new)>(le: (T, T) -> bool, a: seq<T>, b: seq<T>)
    requires TotalPreorder(le)
    requires forall k :: Alike(le, k, a) == Alike(le, k, b)
    ensures SortBy(le, a) == SortBy(le, b)
  {
    SortBySorted(le, a);
    SortBySorted(le, b);
    forall k ensures Alike(le, k, SortBy(le, a)) == Alike(le, k, SortBy(le, b)) {
      SortByStable(le, k, a);
      SortByStable(le, k, b);
    }
    SortedDetermined(le, SortBy(le, a), SortBy(le, b));
  }

  /** Elements equivalent under the order are the same element. */
  ghost predicate NoTies<T>(le: (T, T) -> bool, s: seq<T>) {
    forall x, y :: x in s && y in s && le(x, y) && le(y, x) ==> x == y
  }

  lemma MultisetHead<T>(le: (T, T) -> bool, a: seq<T>, b: seq<T>)
    requires Sorted(le, a) && Sorted(le, b) && NoTies(le, a) && multiset(a) == multiset(b) && a != []
    ensures b != [] && a[0] == b[0]
  {
    assert a[0] in multiset(a);
    InMultiset(a, b, a[0]);
    InMultiset(a, b, b[0]);
    var i :| 0 <= i < |a| && a[i] == b[0];
    var j :| 0 <= j < |b| && b[j] == a[0];
    if i != 0 && j != 0 {
      assert le(a[0], a[i]) && le(b[0], b[j]);
    }
  }

  /** Without ties, a sorted sequence is determined by its elements. */
  lemma {:induction false} SortedByElements<T>(le: (T, T) -> bool, a: seq<T>, b: seq<T>)
    requires Sorted(le, a) && Sorted(le, b) && NoTies(le, a) && multiset(a) == multiset(b)
    ensures a == b
  {
    if a == [] {
      assert |multiset(b)| == |b|;
    } else {
      MultisetHead(le, a, b);
      assert a == [a[0]] + a[1..] && b == [b[0]] + b[1..];
      assert multiset(a[1..]) == multiset(a) - multiset{a[0]} == multiset(b[1..]);
      SortedByElements(le, a[1..], b[1..]);
    }
  }

  /** Without ties, sorting forgets the order of arrival. */
  lemma SortByDecides<T(!new)>(le: (T, T) -> bool, a: seq<T>, b: seq<T>)
    requires TotalPreorder(le) && NoTies(le, a) && multiset(a) == multiset(b)
    ensures SortBy(le, a) == SortBy(le, b)
  {
    SortBySorted(le, a);
    SortBySorted(le, b);
    forall x, y | x in SortBy(le, a) && y in SortBy(le, a) && le(x, y) && le(y, x) ensures x == y {
      InMultiset(SortBy(le, a), a, x);
      InMultiset(SortBy(le, a), a, y);
    }
    SortedByElements(le, SortBy(le, a), SortBy(le, b));
  }
}
