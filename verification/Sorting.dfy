/** Stable sorting by a comparison function, as Go's `sort.SliceStable(s, less)` does it.
    The source never sorts by hand: it always calls the library with a `less` closure. */
module Sorting {

  /** `less` is a strict weak order: what Go's sort package demands of its callers. */
  ghost predicate StrictWeakOrder<T(!new)>(less: (T, T) -> bool) {
    && (forall a, b :: less(a, b) ==> !less(b, a))
    && (forall a, b, c :: less(a, b) && !less(c, b) ==> less(a, c))
  }

  ghost predicate Sorted<T>(less: (T, T) -> bool, s: seq<T>) {
    forall i, j :: 0 <= i < j < |s| ==> !less(s[j], s[i])
  }

  /** Puts `x` behind every element that `x` does not precede. */
  function Insert<T>(less: (T, T) -> bool, s: seq<T>, x: T): seq<T> {
    if s == [] then [x]
    else if less(x, s[0]) then [x] + s
    else [s[0]] + Insert(less, s[1..], x)
  }

  function Sort<T>(less: (T, T) -> bool, s: seq<T>): seq<T> {
    if s == [] then [] else Insert(less, Sort(less, s[..|s| - 1]), s[|s| - 1])
  }

  lemma {:induction false} InsertMultiset<T>(less: (T, T) -> bool, s: seq<T>, x: T)
    ensures multiset(Insert(less, s, x)) == multiset(s) + multiset{x}
  {
    if s != [] && !less(x, s[0]) {
      InsertMultiset(less, s[1..], x);
      assert s == [s[0]] + s[1..];
    }
  }

  lemma {:induction false} SortMultiset<T>(less: (T, T) -> bool, s: seq<T>)
    ensures multiset(Sort(less, s)) == multiset(s)
    ensures |Sort(less, s)| == |s|
  {
    if s != [] {
      var n := |s| - 1;
      SortMultiset(less, s[..n]);
      InsertMultiset(less, Sort(less, s[..n]), s[n]);
      assert s == s[..n] + [s[n]];
    }
    assert |multiset(Sort(less, s))| == |Sort(less, s)|;
  }

  lemma MultisetMembers<T>(a: seq<T>, b: seq<T>)
    requires multiset(a) == multiset(b)
    ensures forall x :: x in a <==> x in b
  {
    forall x ensures x in a <==> x in b {
      assert x in a <==> x in multiset(a);
      assert x in b <==> x in multiset(b);
    }
  }

  lemma {:induction false} InsertSorted<T(!new)>(less: (T, T) -> bool, s: seq<T>, x: T)
    requires StrictWeakOrder(less) && Sorted(less, s)
    ensures Sorted(less, Insert(less, s, x))
  {
    if s != [] && !less(x, s[0]) {
      InsertSorted(less, s[1..], x);
      InsertMultiset(less, s[1..], x);
      var r := Insert(less, s[1..], x);
      forall j | 0 <= j < |r| ensures !less(r[j], s[0]) {
        assert r[j] in multiset(r);
        assert r[j] == x || r[j] in s[1..];
      }
    }
  }

  lemma {:induction false} SortSorted<T(!new)>(less: (T, T) -> bool, s: seq<T>)
    requires StrictWeakOrder(less)
    ensures Sorted(less, Sort(less, s))
  {
    if s != [] {
      SortSorted(less, s[..|s| - 1]);
      InsertSorted(less, Sort(less, s[..|s| - 1]), s[|s| - 1]);
    }
  }

  /** An element that precedes nothing goes to the end. */
  lemma {:induction false} InsertLast<T>(less: (T, T) -> bool, s: seq<T>, x: T)
    requires forall i :: 0 <= i < |s| ==> !less(x, s[i])
    ensures Insert(less, s, x) == s + [x]
  {
    if s != [] {
      InsertLast(less, s[1..], x);
      assert s == [s[0]] + s[1..];
    }
  }

  lemma {:induction false} SortOfSorted<T>(less: (T, T) -> bool, s: seq<T>)
    requires Sorted(less, s)
    ensures Sort(less, s) == s
  {
    if s != [] {
      var n := |s| - 1;
      SortOfSorted(less, s[..n]);
      InsertLast(less, s[..n], s[n]);
      assert s == s[..n] + [s[n]];
    }
  }

  lemma WithoutHead<T>(a: seq<T>, b: seq<T>)
    requires a != [] && b != [] && a[0] == b[0] && multiset(a) == multiset(b)
    ensures multiset(a[1..]) == multiset(b[1..])
  {
    assert a == [a[0]] + a[1..] && b == [b[0]] + b[1..];
    assert multiset(a[1..]) == multiset(a) - multiset{a[0]};
    assert multiset(b[1..]) == multiset(b) - multiset{b[0]};
  }

  /** An element at two positions counts twice. */
  lemma Twice<T>(a: seq<T>, i: nat, j: nat)
    requires i < j < |a| && a[i] == a[j]
    ensures multiset(a)[a[i]] >= 2
  {
    assert a == a[..j] + a[j..];
    assert a[..j][i] in multiset(a[..j]) && a[j..][0] in multiset(a[j..]);
  }

  /** Two arrangements stay arrangements of each other without the first one's head. */
  lemma RemovedFromBoth<T>(a: seq<T>, b: seq<T>, i: nat)
    requires multiset(a) == multiset(b) && a != [] && i < |b| && b[i] == a[0]
    ensures multiset(a[1..]) == multiset(b[..i] + b[i + 1..])
  {
    assert a == [a[0]] + a[1..];
    assert b == b[..i] + [b[i]] + b[i + 1..];
    assert multiset(b) - multiset{a[0]} == multiset(b[..i] + b[i + 1..]);
    assert multiset(a) - multiset{a[0]} == multiset(a[1..]);
  }

  /** When no two distinct elements tie, only one arrangement is sorted, so any sorting
      routine, stable or not, returns what `Sort` returns. */
  lemma {:induction false} SortedIsUnique<T(!new)>(less: (T, T) -> bool, a: seq<T>, b: seq<T>)
    requires StrictWeakOrder(less) && Sorted(less, a) && Sorted(less, b)
    requires multiset(a) == multiset(b)
    requires forall x, y :: x in a && y in a && x != y ==> less(x, y) || less(y, x)
    ensures a == b
  {
    assert |multiset(a)| == |a| && |multiset(b)| == |b|;
    if a != [] {
      MultisetMembers(a, b);
      assert a[0] in b && b[0] in a;
      assert a[0] == b[0];
      WithoutHead(a, b);
      SortedIsUnique(less, a[1..], b[1..]);
      assert a == [a[0]] + a[1..] && b == [b[0]] + b[1..];
    }
  }
}
