// The library's stable sort, for any order.
module Sorting {

  // `before` is a strict order in which incomparable elements may stand either way round.
  ghost predicate Orders<T(!new)>(before: (T, T) -> bool) {
    (forall x, y :: !(before(x, y) && before(y, x))) &&
    forall x, y, z :: !before(y, x) && !before(z, y) ==> !before(z, x)
  }

  ghost predicate Sorted<T>(s: seq<T>, before: (T, T) -> bool) {
    forall i, j :: 0 <= i < j < |s| ==> !before(s[j], s[i])
  }

  function Insert<T>(x: T, s: seq<T>, before: (T, T) -> bool): seq<T> {
    if s == [] || before(x, s[0]) then [x] + s else [s[0]] + Insert(x, s[1..], before)
  }

  function Sort<T>(s: seq<T>, before: (T, T) -> bool): seq<T> {
    if s == [] then [] else Insert(s[|s| - 1], Sort(s[..|s| - 1], before), before)
  }

  lemma {:induction false} InsertKeepsElements<T>(x: T, s: seq<T>, before: (T, T) -> bool)
    ensures multiset(Insert(x, s, before)) == multiset(s) + multiset{x}
    ensures forall t :: t in Insert(x, s, before) <==> t == x || t in s
    decreases |s|
  {
    if s == [] || before(x, s[0]) {
    } else {
      InsertKeepsElements(x, s[1..], before);
      assert s == [s[0]] + s[1..];
    }
  }

  lemma {:induction false} InsertSorts<T(!new)>(x: T, s: seq<T>, before: (T, T) -> bool)
    requires Orders(before) && Sorted(s, before)
    ensures Sorted(Insert(x, s, before), before)
    decreases |s|
  {
    var r := Insert(x, s, before);
    if s == [] {
    } else if before(x, s[0]) {
      forall j | 0 < j < |r| ensures !before(r[j], x) {
        assert r[j] == s[j - 1];
        assert !before(s[0], x);
        assert !before(s[j - 1], s[0]);
      }
    } else {
      var rest := Insert(x, s[1..], before);
      InsertSorts(x, s[1..], before);
      InsertKeepsElements(x, s[1..], before);
      forall j | 0 <= j < |rest| ensures !before(rest[j], s[0]) {
        assert rest[j] in rest;
      }
    }
  }

  lemma {:induction false} SortSorts<T(!new)>(s: seq<T>, before: (T, T) -> bool)
    requires Orders(before)
    ensures Sorted(Sort(s, before), before)
    decreases |s|
  {
    if s == [] {
    } else {
      SortSorts(s[..|s| - 1], before);
      InsertSorts(s[|s| - 1], Sort(s[..|s| - 1], before), before);
    }
  }

  lemma {:induction false} SortedStays<T>(s: seq<T>, before: (T, T) -> bool)
    requires Sorted(s, before)
    ensures Sort(s, before) == s
    decreases |s|
  {
    if s == [] {
    } else {
      SortedStays(s[..|s| - 1], before);
      InsertLast(s[|s| - 1], s[..|s| - 1], before);
    }
  }

  lemma {:induction false} InsertLast<T>(x: T, s: seq<T>, before: (T, T) -> bool)
    requires forall i :: 0 <= i < |s| ==> !before(x, s[i])
    ensures Insert(x, s, before) == s + [x]
    decreases |s|
  {
    if s == [] {
    } else {
      InsertLast(x, s[1..], before);
    }
  }

  lemma {:induction false} SortKeepsElements<T>(s: seq<T>, before: (T, T) -> bool)
    ensures multiset(Sort(s, before)) == multiset(s) && |Sort(s, before)| == |s|
    ensures forall t :: t in Sort(s, before) <==> t in s
    decreases |s|
  {
    if s == [] {
    } else {
      var rest := s[..|s| - 1];
      SortKeepsElements(rest, before);
      InsertKeepsElements(s[|s| - 1], Sort(rest, before), before);
      assert s == rest + [s[|s| - 1]];
      assert |multiset(Sort(s, before))| == |multiset(s)|;
    }
  }

  lemma SameRest<T>(a: multiset<T>, b: multiset<T>, x: T)
    requires a + multiset{x} == b + multiset{x}
    ensures a == b
  {
    assert a == (a + multiset{x}) - multiset{x};
    assert b == (b + multiset{x}) - multiset{x};
  }

  ghost predicate StrictlySorted<T>(s: seq<T>, before: (T, T) -> bool) {
    forall i, j :: 0 <= i < j < |s| ==> before(s[i], s[j])
  }

  // Two elements that may stand either way round are the same element.
  ghost predicate TiesAreSame<T>(s: seq<T>, before: (T, T) -> bool) {
    forall x, y :: x in s && y in s && !before(x, y) && !before(y, x) ==> x == y
  }

  lemma FirstIsSame<T(!new)>(s: seq<T>, t: seq<T>, before: (T, T) -> bool)
    requires Sorted(s, before) && Sorted(t, before) && TiesAreSame(s, before)
    requires multiset(s) == multiset(t) && s != [] && t != [] && !before(s[0], s[0]) && !before(t[0], t[0])
    ensures s[0] == t[0]
  {
    assert s[0] in multiset(t) && t[0] in multiset(s);
    assert s[0] in t && t[0] in s;
  }

  // Where only the same elements tie there is one way to sort.
  lemma {:induction false} OrderIsUnique<T(!new)>(s: seq<T>, t: seq<T>, before: (T, T) -> bool)
    requires Orders(before) && Sorted(s, before) && Sorted(t, before) && TiesAreSame(s, before) &&
             multiset(s) == multiset(t)
    ensures s == t
    decreases |s|
  {
    assert |s| == |multiset(s)| == |multiset(t)| == |t|;
    if s == [] {
    } else {
      FirstIsSame(s, t, before);
      assert s == [s[0]] + s[1..] && t == [t[0]] + t[1..];
      assert multiset(s) == multiset(s[1..]) + multiset{s[0]} && multiset(t) == multiset(t[1..]) + multiset{s[0]};
      SameRest(multiset(s[1..]), multiset(t[1..]), s[0]);
      assert forall x :: x in s[1..] ==> x in s;
      OrderIsUnique(s[1..], t[1..], before);
    }
  }

  // So sorting compares multisets exactly where only the same elements tie.
  lemma SortingCompares<T(!new)>(s: seq<T>, t: seq<T>, before: (T, T) -> bool)
    requires Orders(before) && TiesAreSame(s, before)
    ensures Sort(s, before) == Sort(t, before) <==> multiset(s) == multiset(t)
  {
    hide Orders;
    SortKeepsElements(s, before);
    SortKeepsElements(t, before);
    if multiset(s) == multiset(t) {
      SortSorts(s, before);
      SortSorts(t, before);
      OrderIsUnique(Sort(s, before), Sort(t, before), before);
    }
  }

  lemma {:induction false} InsertStrictlyBefore<T(!new)>(x: T, s: seq<T>, before: (T, T) -> bool)
    requires Orders(before) && StrictlySorted(s, before)
    requires forall i :: 0 <= i < |s| ==> before(x, s[i]) || before(s[i], x)
    ensures StrictlySorted(Insert(x, s, before), before)
    decreases |s|
  {
    var r := Insert(x, s, before);
    if s == [] {
    } else if before(x, s[0]) {
      forall j | 0 < j < |r| ensures before(x, r[j]) {
        if j > 1 { Follows(x, s[0], s[j - 1], before); }
      }
    } else {
      var rest := Insert(x, s[1..], before);
      InsertStrictlyBefore(x, s[1..], before);
      InsertKeepsElements(x, s[1..], before);
      forall j | 0 <= j < |rest| ensures before(s[0], rest[j]) {
        assert rest[j] in rest;
      }
    }
  }

  lemma Follows<T(!new)>(x: T, y: T, z: T, before: (T, T) -> bool)
    requires Orders(before) && before(x, y) && before(y, z)
    ensures before(x, z)
  {
    assert !before(y, x);
    assert !before(x, z) && !before(y, x) ==> !before(y, z);
  }
}
