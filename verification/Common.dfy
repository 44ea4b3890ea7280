/** Small shared vocabulary: optional values and finite sums over an index range. */
module Common {
  datatype Option<+T> = None | Some(value: T)

  /** A service call's answer: a value, or a refusal with its code. */
  datatype Result<+T, +E> = Ok(value: T) | Err(error: E)

  ghost function Sum(n: nat, f: nat -> int): int {
    if n == 0 then 0 else Sum(n - 1, f) + f(n - 1)
  }

  lemma {:induction false} SumSame(n: nat, f: nat -> int, g: nat -> int)
    requires forall i: nat | i < n :: f(i) == g(i)
    ensures Sum(n, f) == Sum(n, g)
  {
    if n > 0 { SumSame(n - 1, f, g); }
  }

  lemma {:induction false} SumPlus(n: nat, f: nat -> int, g: nat -> int, h: nat -> int)
    requires forall i: nat | i < n :: h(i) == f(i) + g(i)
    ensures Sum(n, h) == Sum(n, f) + Sum(n, g)
  {
    if n > 0 { SumPlus(n - 1, f, g, h); }
  }

  lemma {:induction false} SumOneChanged(n: nat, f: nat -> int, g: nat -> int, k: nat)
    requires k < n
    requires forall i: nat | i < n && i != k :: f(i) == g(i)
    ensures Sum(n, g) == Sum(n, f) + g(k) - f(k)
  {
    if k == n - 1 { SumSame(n - 1, f, g); } else { SumOneChanged(n - 1, f, g, k); }
  }

  lemma {:induction false} SumZero(n: nat, f: nat -> int)
    requires forall i: nat | i < n :: f(i) == 0
    ensures Sum(n, f) == 0
  {
    if n > 0 { SumZero(n - 1, f); }
  }

  lemma {:induction false} SumLess(n: nat, f: nat -> int, g: nat -> int, k: nat)
    requires k < n && f(k) < g(k)
    requires forall i: nat | i < n :: f(i) <= g(i)
    ensures Sum(n, f) < Sum(n, g)
  {
    if k == n - 1 { SumAtMost(n - 1, f, g); } else { SumLess(n - 1, f, g, k); }
  }

  lemma {:induction false} SumAtMost(n: nat, f: nat -> int, g: nat -> int)
    requires forall i: nat | i < n :: f(i) <= g(i)
    ensures Sum(n, f) <= Sum(n, g)
  {
    if n > 0 { SumAtMost(n - 1, f, g); }
  }

  /** A sum of non-positive terms is at most any one of them. */
  lemma {:induction false} SumBelowTerm(n: nat, f: nat -> int, k: nat)
    requires k < n
    requires forall i: nat | i < n :: f(i) <= 0
    ensures Sum(n, f) <= f(k)
  {
    if k == n - 1 {
      if n > 1 { SumBelowTerm(n - 1, f, 0); }
    } else {
      SumBelowTerm(n - 1, f, k);
    }
  }

  ghost predicate Distinct<T>(s: seq<T>) {
    forall i, j | 0 <= i < j < |s| :: s[i] != s[j]
  }

  /** The elements of `s` at their first occurrence: a JavaScript `Set` spread back into a list. */
  function Dedup<T(==)>(s: seq<T>): seq<T> {
    if s == [] then [] else
      var init, last := Dedup(s[..|s| - 1]), s[|s| - 1];
      if last in init then init else init + [last]
  }

  lemma {:induction false} DedupKeeps<T>(s: seq<T>)
    ensures Distinct(Dedup(s)) && forall x :: x in Dedup(s) <==> x in s
  {
    if s != [] {
      DedupKeeps(s[..|s| - 1]);
      assert s == s[..|s| - 1] + [s[|s| - 1]];
    }
  }

  lemma LastIsNew<T>(s: seq<T>)
    requires s != [] && Distinct(s)
    ensures Distinct(s[..|s| - 1]) && s[|s| - 1] !in s[..|s| - 1]
    ensures forall x :: x in s <==> x in s[..|s| - 1] || x == s[|s| - 1]
  {
    assert s == s[..|s| - 1] + [s[|s| - 1]];
  }
}
