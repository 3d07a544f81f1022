/**
 A stable sort, standing for `Array.prototype.sort`: what the source's loops rely on is that the
 result is ordered, holds the same elements, and keeps equal elements in their input order.
 */
module Sorting {

  ghost predicate TotalPreorder<T(!new)>(le: (T, T) -> bool) {
    && (forall a, b :: le(a, b) || le(b, a))
    && (forall a, b, c :: le(a, b) && le(b, c) ==> le(a, c))
  }

  ghost predicate SortedBy<T(!new)>(le: (T, T) -> bool, s: seq<T>) {
    forall i, j | 0 <= i < j < |s| :: le(s[i], s[j])
  }

  function Insert<T>(le: (T, T) -> bool, x: T, s: seq<T>): seq<T> {
    if s == [] || le(x, s[0]) then [x] + s else [s[0]] + Insert(le, x, s[1..])
  }

  function Sort<T>(le: (T, T) -> bool, s: seq<T>): seq<T> {
    if s == [] then [] else Insert(le, s[0], Sort(le, s[1..]))
  }

  function Filter<T>(keep: T -> bool, s: seq<T>): seq<T> {
    if s == [] then []
    else if keep(s[0]) then [s[0]] + Filter(keep, s[1..])
    else Filter(keep, s[1..])
  }

  lemma {:induction false} InsertElements<T>(le: (T, T) -> bool, x: T, s: seq<T>)
    ensures multiset(Insert(le, x, s)) == multiset{x} + multiset(s)
  {
    if s == [] || le(x, s[0]) {
    } else {
      InsertElements(le, x, s[1..]);
      assert s == [s[0]] + s[1..];
    }
  }

  lemma {:induction false} SortElements<T>(le: (T, T) -> bool, s: seq<T>)
    ensures multiset(Sort(le, s)) == multiset(s)
    ensures |Sort(le, s)| == |s|
    ensures forall x :: x in Sort(le, s) <==> x in s
  {
    if s == [] {
    } else {
      SortElements(le, s[1..]);
      InsertElements(le, s[0], Sort(le, s[1..]));
      assert s == [s[0]] + s[1..];
    }
    assert |multiset(Sort(le, s))| == |multiset(s)|;
    assert forall x :: x in Sort(le, s) <==> x in multiset(Sort(le, s));
    assert forall x :: x in s <==> x in multiset(s);
  }

  lemma {:induction false} InsertSorted<T(!new)>(le: (T, T) -> bool, x: T, s: seq<T>)
    requires TotalPreorder(le) && SortedBy(le, s)
    ensures SortedBy(le, Insert(le, x, s))
  {
    if s == [] || le(x, s[0]) {
    } else {
      InsertSorted(le, x, s[1..]);
      var r := Insert(le, x, s[1..]);
      InsertElements(le, x, s[1..]);
      forall j | 0 <= j < |r| ensures le(s[0], r[j]) {
        assert r[j] in multiset(r);
        assert r[j] == x || r[j] in s[1..];
      }
    }
  }

  /** The result is ordered. */
  lemma {:induction false} SortSorted<T(!new)>(le: (T, T) -> bool, s: seq<T>)
    requires TotalPreorder(le)
    ensures SortedBy(le, Sort(le, s))
  {
    if s == [] {
    } else {
      SortSorted(le, s[1..]);
      InsertSorted(le, s[0], Sort(le, s[1..]));
    }
  }

  /** A sorted sequence is left as it is. */
  lemma {:induction false} SortOfSorted<T(!new)>(le: (T, T) -> bool, s: seq<T>)
    requires SortedBy(le, s)
    ensures Sort(le, s) == s
  {
    if |s| < 2 {
      if |s| == 1 { assert Sort(le, s[1..]) == []; }
    } else {
      SortOfSorted(le, s[1..]);
      assert s == [s[0]] + s[1..];
    }
  }

  lemma {:induction false} FilterInsert<T(!new)>(le: (T, T) -> bool, keep: T -> bool, x: T, s: seq<T>)
    requires TotalPreorder(le) && SortedBy(le, s)
    ensures Filter(keep, Insert(le, x, s)) == if keep(x) then Insert(le, x, Filter(keep, s)) else Filter(keep, s)
  {
    if s == [] {
    } else if le(x, s[0]) {
      assert ([x] + s)[1..] == s;
      FilterMembers(keep, s);
      var f := Filter(keep, s);
      if f != [] { assert f[0] in s; }
    } else {
      var rest := Insert(le, x, s[1..]);
      assert ([s[0]] + rest)[1..] == rest;
      FilterInsert(le, keep, x, s[1..]);
      if keep(s[0]) {
        assert Filter(keep, s)[1..] == Filter(keep, s[1..]);
      }
    }
  }

  lemma {:induction false} FilterMembers<T>(keep: T -> bool, s: seq<T>)
    ensures forall x :: x in Filter(keep, s) <==> x in s && keep(x)
    ensures |Filter(keep, s)| <= |s|
  {
    if s == [] {
    } else {
      FilterMembers(keep, s[1..]);
      assert s == [s[0]] + s[1..];
    }
  }

  /** Stability: picking out some elements before or after the sort is the same. */
  lemma {:induction false} FilterSort<T(!new)>(le: (T, T) -> bool, keep: T -> bool, s: seq<T>)
    requires TotalPreorder(le)
    ensures Filter(keep, Sort(le, s)) == Sort(le, Filter(keep, s))
  {
    if s == [] {
    } else {
      FilterSort(le, keep, s[1..]);
      SortSorted(le, s[1..]);
      FilterInsert(le, keep, s[0], Sort(le, s[1..]));
      if keep(s[0]) {
        assert Filter(keep, s)[1..] == Filter(keep, s[1..]);
      }
    }
  }

  lemma {:induction false} FilterAppend<T>(keep: T -> bool, a: seq<T>, b: seq<T>)
    ensures Filter(keep, a + b) == Filter(keep, a) + Filter(keep, b)
  {
    if a == [] {
      assert a + b == b;
    } else {
      FilterAppend(keep, a[1..], b);
      assert (a + b)[1..] == a[1..] + b;
    }
  }

  function Mapped<T, U>(f: T -> U, s: seq<T>): (r: seq<U>)
    ensures |r| == |s| && forall i | 0 <= i < |s| :: r[i] == f(s[i])
  {
    seq(|s|, i requires 0 <= i < |s| => f(s[i]))
  }

  lemma {:induction false} MappedFirst<T, U>(f: T -> U, x: T, s: seq<T>)
    ensures Mapped(f, [x] + s) == [f(x)] + Mapped(f, s)
  {}

  lemma {:induction false} InsertMapped<T(!new), U>(f: T -> U, le: (T, T) -> bool, on: (U, U) -> bool, x: T, s: seq<T>)
    requires forall a, b :: on(f(a), f(b)) <==> le(a, b)
    ensures Insert(on, f(x), Mapped(f, s)) == Mapped(f, Insert(le, x, s))
  {
    if s == [] || le(x, s[0]) {
      MappedFirst(f, x, s);
    } else {
      assert Mapped(f, s)[1..] == Mapped(f, s[1..]);
      InsertMapped(f, le, on, x, s[1..]);
      MappedFirst(f, s[0], Insert(le, x, s[1..]));
    }
  }

  /** Changing the elements before or after the sort is the same, if it leaves their order as it was. */
  lemma {:induction false} SortMapped<T(!new), U>(f: T -> U, le: (T, T) -> bool, on: (U, U) -> bool, s: seq<T>)
    requires forall a, b :: on(f(a), f(b)) <==> le(a, b)
    ensures Sort(on, Mapped(f, s)) == Mapped(f, Sort(le, s))
  {
    if s != [] {
      assert Mapped(f, s)[1..] == Mapped(f, s[1..]);
      SortMapped(f, le, on, s[1..]);
      InsertMapped(f, le, on, s[0], Sort(le, s[1..]));
    }
  }

  lemma {:induction false} FilterMapped<T(!new), U>(f: T -> U, keep: T -> bool, on: U -> bool, s: seq<T>)
    requires forall x | x in s :: on(f(x)) <==> keep(x)
    ensures Filter(on, Mapped(f, s)) == Mapped(f, Filter(keep, s))
  {
    if s != [] {
      assert Mapped(f, s)[1..] == Mapped(f, s[1..]);
      FilterMapped(f, keep, on, s[1..]);
      if keep(s[0]) { MappedFirst(f, s[0], Filter(keep, s[1..])); }
    }
  }

  ghost predicate NoRepeats<T(!new)>(s: seq<T>) {
    forall i, j | 0 <= i < j < |s| :: s[i] != s[j]
  }

  lemma {:induction false} FilterNoRepeats<T(!new)>(keep: T -> bool, s: seq<T>)
    requires NoRepeats(s)
    ensures NoRepeats(Filter(keep, s))
  {
    if s != [] {
      FilterNoRepeats(keep, s[1..]);
      FilterMembers(keep, s[1..]);
      var f := Filter(keep, s[1..]);
      forall j | 0 <= j < |f| ensures f[j] != s[0] { assert f[j] in s[1..]; }
    }
  }

  lemma {:induction false} InsertNoRepeats<T(!new)>(le: (T, T) -> bool, x: T, s: seq<T>)
    requires NoRepeats(s) && x !in s
    ensures NoRepeats(Insert(le, x, s))
  {
    if s == [] || le(x, s[0]) {
    } else {
      InsertNoRepeats(le, x, s[1..]);
      InsertElements(le, x, s[1..]);
      var r := Insert(le, x, s[1..]);
      forall j | 0 <= j < |r| ensures r[j] != s[0] {
        assert r[j] in multiset(r);
        assert r[j] == x || r[j] in s[1..];
      }
    }
  }

  lemma {:induction false} SortNoRepeats<T(!new)>(le: (T, T) -> bool, s: seq<T>)
    requires NoRepeats(s)
    ensures NoRepeats(Sort(le, s))
  {
    if s != [] {
      SortNoRepeats(le, s[1..]);
      SortElements(le, s[1..]);
      InsertNoRepeats(le, s[0], Sort(le, s[1..]));
    }
  }
}
