/** Sorting by a strict order. The engine calls Go's library sort; this module
    fixes what such a call returns, and shows that a strictly sorted list is
    determined by its elements, so map iteration order cannot show through. */
module Sorting {
  import opened Text

  ghost predicate Strict<T(!new)>(less: (T, T) -> bool) {
    (forall x :: !less(x, x)) &&
    (forall x, y, z :: less(x, y) && less(y, z) ==> less(x, z))
  }

  ghost predicate Sorted<T>(s: seq<T>, less: (T, T) -> bool) {
    forall i, j :: 0 <= i < j < |s| ==> less(s[i], s[j])
  }

  /** Every two positions hold comparable elements. */
  ghost predicate Comparable<T>(s: seq<T>, less: (T, T) -> bool) {
    forall i, j :: 0 <= i < j < |s| ==> less(s[i], s[j]) || less(s[j], s[i])
  }

  function Insert<T>(x: T, s: seq<T>, less: (T, T) -> bool): seq<T> {
    if s == [] || less(x, s[0]) then [x] + s else [s[0]] + Insert(x, s[1..], less)
  }

  function Sort<T>(s: seq<T>, less: (T, T) -> bool): seq<T> {
    if s == [] then [] else Insert(s[0], Sort(s[1..], less), less)
  }

  lemma {:induction false} InsertElements<T>(x: T, s: seq<T>, less: (T, T) -> bool)
    ensures multiset(Insert(x, s, less)) == multiset{x} + multiset(s)
  {
    if s != [] && !less(x, s[0]) {
      InsertElements(x, s[1..], less);
      assert s == [s[0]] + s[1..];
    }
  }

  lemma {:induction false} SortElements<T>(s: seq<T>, less: (T, T) -> bool)
    ensures multiset(Sort(s, less)) == multiset(s)
  {
    if s != [] {
      SortElements(s[1..], less);
      InsertElements(s[0], Sort(s[1..], less), less);
      assert s == [s[0]] + s[1..];
    }
  }

  lemma {:induction false} InsertSorted<T(!new)>(x: T, s: seq<T>, less: (T, T) -> bool)
    requires Strict(less) && Sorted(s, less)
    requires forall y :: y in s ==> less(x, y) || less(y, x)
    ensures Sorted(Insert(x, s, less), less)
  {
    if s == [] {
    } else if less(x, s[0]) {
      var r := [x] + s;
      forall i, j | 0 <= i < j < |r|
        ensures less(r[i], r[j])
      {
        if i == 0 && j > 1 {
          assert less(s[0], s[j - 1]);
        }
      }
    } else {
      assert less(s[0], x);
      InsertSorted(x, s[1..], less);
      InsertElements(x, s[1..], less);
      var rest := Insert(x, s[1..], less);
      forall j | 0 <= j < |rest|
        ensures less(s[0], rest[j])
      {
        assert rest[j] in multiset(rest);
        if rest[j] != x {
          assert rest[j] in s[1..];
        }
      }
    }
  }

  lemma {:induction false} SortSorts<T(!new)>(s: seq<T>, less: (T, T) -> bool)
    requires Strict(less) && Comparable(s, less)
    ensures Sorted(Sort(s, less), less)
    ensures forall x :: x in Sort(s, less) <==> x in s
  {
    SortElements(s, less);
    forall x
      ensures x in Sort(s, less) <==> x in s
    {
      assert x in Sort(s, less) <==> x in multiset(Sort(s, less));
      assert x in s <==> x in multiset(s);
    }
    if s != [] {
      SortSorts(s[1..], less);
      InsertSorted(s[0], Sort(s[1..], less), less);
    }
  }

  /** A strictly sorted list is determined by its elements. */
  lemma {:induction false} SortedUnique<T(!new)>(a: seq<T>, b: seq<T>, less: (T, T) -> bool)
    requires Strict(less) && Sorted(a, less) && Sorted(b, less)
    requires forall x :: x in a <==> x in b
    ensures a == b
  {
    assert a != [] ==> a[0] in b;
    assert b != [] ==> b[0] in a;
    if a != [] {
      assert a[0] == b[0];
      forall x
        ensures x in a[1..] <==> x in b[1..]
      {
        if x in a[1..] {
          assert less(a[0], x);
          assert x in b;
        }
        if x in b[1..] {
          assert less(b[0], x);
          assert x in a;
        }
      }
      SortedUnique(a[1..], b[1..], less);
    }
  }

  // ----- sorting IDs -----

  lemma LessIsStrict()
    ensures Strict(Less)
  {
    forall x
      ensures !Less(x, x)
    {
      LessIrreflexive(x);
    }
    forall x, y, z | Less(x, y) && Less(y, z)
      ensures Less(x, z)
    {
      LessTransitive(x, y, z);
    }
  }

  /** Any finite set can be listed in order. */
  lemma SortedExists<T(!new)>(items: set<T>, less: (T, T) -> bool) returns (out: seq<T>)
    requires Strict(less)
    requires forall x, y :: x in items && y in items && x != y ==> less(x, y) || less(y, x)
    ensures Sorted(out, less) && forall x :: x in out <==> x in items
    decreases items
  {
    if items == {} {
      out := [];
    } else {
      var item :| item in items;
      var rest := SortedExists(items - {item}, less);
      InsertSorted(item, rest, less);
      InsertElements(item, rest, less);
      out := Insert(item, rest, less);
      forall x
        ensures x in out <==> x in items
      {
        assert x in out <==> x in multiset(out);
        assert x in rest <==> x in multiset(rest);
      }
    }
  }

  lemma LessIsTotal(ids: set<string>)
    ensures forall x, y :: x in ids && y in ids && x != y ==> Less(x, y) || Less(y, x)
  {
    forall x, y | x in ids && y in ids && x != y
      ensures Less(x, y) || Less(y, x)
    {
      LessTotal(x, y);
    }
  }

  /** The members of a set in byte order. */
  ghost function SortedSet(ids: set<string>): (out: seq<string>)
    ensures Sorted(out, Less) && forall id :: id in out <==> id in ids
  {
    assert exists out :: Sorted(out, Less) && forall id :: id in out <==> id in ids by {
      LessIsStrict();
      LessIsTotal(ids);
      var out := SortedExists(ids, Less);
    }
    var out :| Sorted(out, Less) && forall id :: id in out <==> id in ids;
    out
  }

  lemma SortedSetIs(ids: set<string>, out: seq<string>)
    requires Sorted(out, Less) && forall id :: id in out <==> id in ids
    ensures out == SortedSet(ids)
  {
    LessIsStrict();
    SortedUnique(out, SortedSet(ids), Less);
  }

  /** Collect the members of a set in whatever order they come. */
  method Listed<T(==)>(items: set<T>) returns (out: seq<T>)
    ensures forall x :: x in out <==> x in items
    ensures forall i, j :: 0 <= i < j < |out| ==> out[i] != out[j]
    ensures |out| == |items|
  {
    out := [];
    var todo := items;
    while todo != {}
      invariant todo <= items && |out| == |items| - |todo|
      invariant forall x :: x in out <==> x in items - todo
      invariant forall i, j :: 0 <= i < j < |out| ==> out[i] != out[j]
      decreases |todo|
    {
      var x :| x in todo;
      todo := todo - {x};
      out := out + [x];
    }
  }

  /** Sort the members of a set by an order that is total on them. */
  method SortSet<T(==, !new)>(items: set<T>, less: (T, T) -> bool) returns (out: seq<T>)
    requires Strict(less)
    requires forall x, y :: x in items && y in items && x != y ==> less(x, y) || less(y, x)
    ensures Sorted(out, less) && |out| == |items|
    ensures forall x :: x in out <==> x in items
  {
    var listed := Listed(items);
    forall i, j | 0 <= i < j < |listed|
      ensures less(listed[i], listed[j]) || less(listed[j], listed[i])
    {
      assert listed[i] in items && listed[j] in items;
    }
    SortSorts(listed, less);
    SortElements(listed, less);
    out := Sort(listed, less);
    assert |out| == |multiset(out)| == |multiset(listed)| == |listed|;
  }

  method SortIds(ids: set<string>) returns (out: seq<string>)
    ensures Sorted(out, Less) && out == SortedSet(ids)
    ensures forall id :: id in out <==> id in ids
  {
    LessIsStrict();
    LessIsTotal(ids);
    out := SortSet(ids, Less);
    SortedSetIs(ids, out);
  }
}
