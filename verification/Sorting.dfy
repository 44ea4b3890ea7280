/** Stable insertion by a strict weak order: what a library `sort` with a comparator, or an `order by`, returns. */
module Sorting {
  ghost predicate WeakOrder<T(!new)>(less: (T, T) -> bool) {
    && (forall a, b :: less(a, b) ==> !less(b, a))
    && (forall a, b, c :: !less(b, a) && !less(c, b) ==> !less(c, a))
  }

  function Insert<T>(less: (T, T) -> bool, x: T, s: seq<T>): seq<T> {
    if s == [] || !less(s[0], x) then [x] + s else [s[0]] + Insert(less, x, s[1..])
  }

  function Sorted<T>(less: (T, T) -> bool, s: seq<T>): seq<T> {
    if s == [] then [] else Insert(less, s[0], Sorted(less, s[1..]))
  }

  ghost predicate InOrder<T>(less: (T, T) -> bool, s: seq<T>) {
    forall i, j | 0 <= i < j < |s| :: !less(s[j], s[i])
  }

  lemma {:induction false} InsertKeeps<T>(less: (T, T) -> bool, x: T, s: seq<T>)
    ensures multiset(Insert(less, x, s)) == multiset(s) + multiset{x}
  {
    if !(s == [] || !less(s[0], x)) {
      InsertKeeps(less, x, s[1..]);
      assert s == [s[0]] + s[1..];
    }
  }

  lemma {:induction false} InsertSorts<T(!new)>(less: (T, T) -> bool, x: T, s: seq<T>)
    requires WeakOrder(less) && InOrder(less, s)
    ensures InOrder(less, Insert(less, x, s))
  {
    if s == [] {
    } else if !less(s[0], x) {
      forall j | 0 <= j < |s| ensures !less(s[j], x) {
        assert j > 0 ==> !less(s[j], s[0]);
      }
    } else {
      InsertSorts(less, x, s[1..]);
      var r := Insert(less, x, s[1..]);
      forall j | 0 <= j < |r| ensures !less(r[j], s[0]) {
        InsertKeeps(less, x, s[1..]);
        assert r[j] in multiset(r);
        assert r[j] == x || r[j] in s[1..];
      }
    }
  }

  lemma {:induction false} SortedIsAPermutation<T>(less: (T, T) -> bool, s: seq<T>)
    ensures multiset(Sorted(less, s)) == multiset(s)
  {
    if s != [] {
      SortedIsAPermutation(less, s[1..]);
      InsertKeeps(less, s[0], Sorted(less, s[1..]));
      assert s == [s[0]] + s[1..];
    }
  }

  lemma SortedKeeps<T>(less: (T, T) -> bool, s: seq<T>)
    ensures multiset(Sorted(less, s)) == multiset(s)
    ensures |Sorted(less, s)| == |s|
    ensures forall y :: y in Sorted(less, s) <==> y in s
  {
    SortedIsAPermutation(less, s);
    SameMultiset(Sorted(less, s), s);
  }

  lemma SameMultiset<T>(s: seq<T>, t: seq<T>)
    requires multiset(s) == multiset(t)
    ensures |s| == |t| && forall y :: y in s <==> y in t
  {
    assert |multiset(s)| == |multiset(t)|;
    assert forall y :: y in s <==> y in multiset(s);
    assert forall y :: y in t <==> y in multiset(t);
  }

  /** The result holds the same elements, in order. */
  lemma {:induction false} SortedSorts<T(!new)>(less: (T, T) -> bool, s: seq<T>)
    requires WeakOrder(less)
    ensures InOrder(less, Sorted(less, s))
  {
    if s != [] {
      SortedSorts(less, s[1..]);
      InsertSorts(less, s[0], Sorted(less, s[1..]));
    }
  }

  /** Code-unit order, JavaScript's `<` on strings. */
  predicate StringLess(a: string, b: string)
    decreases |a|
  {
    b != [] && (a == [] || a[0] < b[0] || (a[0] == b[0] && StringLess(a[1..], b[1..])))
  }

  /** `a` is a proper beginning of `b`, or the two first differ where `a` has the lower code unit. */
  ghost predicate InTextOrder(a: string, b: string) {
    || (|a| < |b| && a == b[..|a|])
    || exists n :: 0 <= n < |a| && n < |b| && a[..n] == b[..n] && a[n] < b[n]
  }

  lemma {:induction false} StringLessIsTextOrder(a: string, b: string)
    ensures StringLess(a, b) <==> InTextOrder(a, b)
    decreases |a|
  {
    if a != [] && b != [] {
      StringLessIsTextOrder(a[1..], b[1..]);
      if a[0] == b[0] { TextOrderShifts(a, b); }
      if a[0] < b[0] { assert a[..0] == b[..0]; }
    }
  }

  lemma TextOrderShifts(a: string, b: string)
    requires a != [] && b != [] && a[0] == b[0]
    ensures InTextOrder(a, b) <==> InTextOrder(a[1..], b[1..])
  {
    forall n | 1 <= n <= |a| && n <= |b| ensures a[..n] == b[..n] <==> a[1..][..n - 1] == b[1..][..n - 1] {
      assert a[..n] == [a[0]] + a[1..][..n - 1] && b[..n] == [b[0]] + b[1..][..n - 1];
    }
    if n :| 0 <= n < |a| && n < |b| && a[..n] == b[..n] && a[n] < b[n] {
      assert a[1..][..n - 1] == b[1..][..n - 1] && a[1..][n - 1] < b[1..][n - 1];
    }
    if n :| 0 <= n < |a[1..]| && n < |b[1..]| && a[1..][..n] == b[1..][..n] && a[1..][n] < b[1..][n] {
      assert a[..n + 1] == b[..n + 1] && a[n + 1] < b[n + 1];
    }
    assert a == [a[0]] + a[1..] && b == [b[0]] + b[1..];
  }

  lemma {:induction false} StringLessTotal(a: string, b: string)
    ensures a != b ==> StringLess(a, b) || StringLess(b, a)
    ensures !(StringLess(a, b) && StringLess(b, a))
    decreases |a|
  {
    if a != [] && b != [] && a[0] == b[0] {
      StringLessTotal(a[1..], b[1..]);
      assert a == [a[0]] + a[1..] && b == [b[0]] + b[1..];
    }
  }

  lemma StringOrder()
    ensures WeakOrder(StringLess)
  {
    forall a, b ensures StringLess(a, b) ==> !StringLess(b, a) { StringLessTotal(a, b); }
    forall a, b, c | !StringLess(b, a) && !StringLess(c, b) ensures !StringLess(c, a) { StringLessTrans(a, b, c); }
  }

  lemma {:induction false} StringLessTrans(a: string, b: string, c: string)
    requires !StringLess(b, a) && !StringLess(c, b)
    ensures !StringLess(c, a)
    decreases |a|
  {
    if a != [] && b != [] && c != [] && a[0] == b[0] == c[0] { StringLessTrans(a[1..], b[1..], c[1..]); }
  }
}
