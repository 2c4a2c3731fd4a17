/** Stable sorting by any order, as Python's sort with a key does it. */
module Sorting {
  import opened Prelude

  /** Insertion behind everything the element does not come before. */
  function Insert<T>(before: (T, T) -> bool, x: T, s: seq<T>): seq<T> {
    if s == [] || !before(x, s[|s| - 1]) then s + [x]
    else Insert(before, x, s[..|s| - 1]) + [s[|s| - 1]]
  }

  function Sort<T>(before: (T, T) -> bool, s: seq<T>): seq<T> {
    if s == [] then [] else Insert(before, s[|s| - 1], Sort(before, s[..|s| - 1]))
  }

  ghost predicate Ordered<T>(before: (T, T) -> bool, s: seq<T>) {
    forall i, j :: 0 <= i < j < |s| ==> !before(s[j], s[i])
  }

  /** An order of the elements of `all`, up to ties. */
  ghost predicate WeakOrder<T>(before: (T, T) -> bool, all: seq<T>) {
    && (forall x, y :: x in all && y in all && before(x, y) ==> !before(y, x))
    && forall x, y, z :: x in all && y in all && z in all && before(x, z) ==> before(x, y) || before(y, z)
  }

  /** What is in order stays as it is. */
  lemma {:induction false} SortKeepsOrdered<T>(before: (T, T) -> bool, s: seq<T>)
    requires Ordered(before, s)
    ensures Sort(before, s) == s
  {
    if s != [] {
      var n := |s| - 1;
      SortKeepsOrdered(before, s[..n]);
      assert s == s[..n] + [s[n]];
      assert n > 0 ==> s[..n][n - 1] == s[n - 1];
    }
  }

  lemma {:induction false} InsertMember<T>(before: (T, T) -> bool, x: T, s: seq<T>, y: T)
    ensures y in Insert(before, x, s) <==> y == x || y in s
  {
    if !(s == [] || !before(x, s[|s| - 1])) {
      var n := |s| - 1;
      InsertMember(before, x, s[..n], y);
      assert s == s[..n] + [s[n]];
    }
  }

  lemma {:induction false} SortMember<T>(before: (T, T) -> bool, s: seq<T>, y: T)
    ensures y in Sort(before, s) <==> y in s
  {
    if s != [] {
      var n := |s| - 1;
      SortMember(before, s[..n], y);
      InsertMember(before, s[n], Sort(before, s[..n]), y);
      assert s == s[..n] + [s[n]];
    }
  }

  lemma {:induction false} InsertDistinct<T>(before: (T, T) -> bool, x: T, s: seq<T>)
    requires Distinct(s) && x !in s
    ensures Distinct(Insert(before, x, s))
  {
    if !(s == [] || !before(x, s[|s| - 1])) {
      var n := |s| - 1;
      InsertDistinct(before, x, s[..n]);
      InsertMember(before, x, s[..n], s[n]);
    }
  }

  lemma {:induction false} SortDistinct<T>(before: (T, T) -> bool, s: seq<T>)
    requires Distinct(s)
    ensures Distinct(Sort(before, s))
  {
    if s != [] {
      var n := |s| - 1;
      SortDistinct(before, s[..n]);
      SortMember(before, s[..n], s[n]);
      assert s[n] !in s[..n];
      InsertDistinct(before, s[n], Sort(before, s[..n]));
    }
  }

  lemma NotBefore<T>(before: (T, T) -> bool, all: seq<T>, x: T, y: T, z: T)
    requires WeakOrder(before, all) && x in all && y in all && z in all
    requires !before(x, z) && (y == z || !before(z, y))
    ensures !before(x, y)
  {
  }

  lemma {:induction false} InsertOrdered<T>(before: (T, T) -> bool, all: seq<T>, x: T, s: seq<T>)
    requires WeakOrder(before, all) && x in all && forall y :: y in s ==> y in all
    requires Ordered(before, s)
    ensures Ordered(before, Insert(before, x, s))
  {
    if s != [] {
      var n := |s| - 1;
      if before(x, s[n]) {
        InsertOrdered(before, all, x, s[..n]);
        var r := Insert(before, x, s[..n]);
        forall i | 0 <= i < |r| ensures !before(s[n], r[i]) {
          InsertMember(before, x, s[..n], r[i]);
        }
      } else {
        forall i | 0 <= i < |s| ensures !before(x, s[i]) {
          NotBefore(before, all, x, s[i], s[n]);
        }
      }
    }
  }

  lemma {:induction false} SortOrdersAll<T>(before: (T, T) -> bool, all: seq<T>, s: seq<T>)
    requires WeakOrder(before, all) && forall y :: y in s ==> y in all
    ensures Ordered(before, Sort(before, s))
  {
    if s != [] {
      var n := |s| - 1;
      SortOrdersAll(before, all, s[..n]);
      forall y | y in Sort(before, s[..n]) ensures y in all {
        SortMember(before, s[..n], y);
      }
      InsertOrdered(before, all, s[n], Sort(before, s[..n]));
    }
  }

  /** Sorting orders. */
  lemma SortOrders<T>(before: (T, T) -> bool, s: seq<T>)
    requires WeakOrder(before, s)
    ensures Ordered(before, Sort(before, s))
  {
    SortOrdersAll(before, s, s);
  }
}
