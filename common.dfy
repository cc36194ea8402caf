/** Failure-carrying values and small sequence queries shared by every module.
    Python exceptions become `Failure(kind)`; `None`/`False` sentinels stay values. */
module Common {

  datatype Option<T> = None | Some(value: T)

  /** The exception classes the services raise (HTTPException carries its status). */
  datatype ErrorKind =
    | ValueError
    | PermissionError
    | RuntimeError
    | StorageError
    | HttpError(status: int)

  datatype Result<T> = Success(value: T) | Failure(error: ErrorKind) {
    predicate IsFailure() { Failure? }

    function PropagateFailure<U>(): Result<U>
      requires Failure?
    {
      Failure(error)
    }

    function Extract(): T
      requires Success?
    {
      value
    }
  }

  /** A check that either passes or raises. */
  datatype Outcome = Pass | Fail(error: ErrorKind) {
    predicate IsFailure() { Fail? }

    function PropagateFailure<U>(): Result<U>
      requires Fail?
    {
      Failure(error)
    }
  }

  /** The elements of `s` that satisfy `p`, in their original order (a WHERE clause). */
  function Filter<T>(s: seq<T>, p: T -> bool): (r: seq<T>)
    ensures |r| <= |s|
    ensures forall i :: 0 <= i < |r| ==> r[i] in s && p(r[i])
    ensures forall i :: 0 <= i < |s| && p(s[i]) ==> s[i] in r
  {
    if s == [] then [] else (if p(s[0]) then [s[0]] else []) + Filter(s[1..], p)
  }

  lemma {:induction false} FilterAppend<T>(a: seq<T>, b: seq<T>, p: T -> bool)
    ensures Filter(a + b, p) == Filter(a, p) + Filter(b, p)
  {
    if a == [] {
      assert a + b == b;
    } else {
      assert (a + b)[1..] == a[1..] + b;
      FilterAppend(a[1..], b, p);
    }
  }

  /** `key` strictly increases along `s`. */
  predicate IncreasingBy<T>(s: seq<T>, key: T -> nat) {
    forall i, j :: 0 <= i < j < |s| ==> key(s[i]) < key(s[j])
  }

  /** Filtering keeps a strictly increasing key strictly increasing (a WHERE clause keeps id order). */
  lemma {:induction false} FilterKeepsIncreasing<T>(s: seq<T>, p: T -> bool, key: T -> nat)
    requires IncreasingBy(s, key)
    ensures IncreasingBy(Filter(s, p), key)
  {
    if s != [] {
      var rest := Filter(s[1..], p);
      TailIncreasing(s, key);
      FilterKeepsIncreasing(s[1..], p, key);
      if p(s[0]) {
        FilterKeysAbove(s[1..], p, key, key(s[0]));
        ConsIncreasing(s[0], rest, key);
        assert Filter(s, p) == [s[0]] + rest;
      } else {
        assert Filter(s, p) == rest;
      }
    }
  }

  lemma TailIncreasing<T>(s: seq<T>, key: T -> nat)
    requires IncreasingBy(s, key) && s != []
    ensures IncreasingBy(s[1..], key)
    ensures forall k :: 0 <= k < |s[1..]| ==> key(s[0]) < key(s[1..][k])
  {
    forall a, b | 0 <= a < b < |s[1..]|
      ensures key(s[1..][a]) < key(s[1..][b])
    {
      assert s[1..][a] == s[a + 1] && s[1..][b] == s[b + 1];
    }
    forall k | 0 <= k < |s[1..]|
      ensures key(s[0]) < key(s[1..][k])
    {
      assert s[1..][k] == s[k + 1];
    }
  }

  lemma ConsIncreasing<T>(x: T, rest: seq<T>, key: T -> nat)
    requires IncreasingBy(rest, key)
    requires forall k :: 0 <= k < |rest| ==> key(x) < key(rest[k])
    ensures IncreasingBy([x] + rest, key)
  {
    var r := [x] + rest;
    forall i, j | 0 <= i < j < |r|
      ensures key(r[i]) < key(r[j])
    {
      assert r[j] == rest[j - 1];
      if i > 0 {
        assert r[i] == rest[i - 1];
      }
    }
  }

  lemma FilterKeysAbove<T>(s: seq<T>, p: T -> bool, key: T -> nat, bound: int)
    requires forall i :: 0 <= i < |s| ==> bound < key(s[i])
    ensures forall i :: 0 <= i < |Filter(s, p)| ==> bound < key(Filter(s, p)[i])
  {
    var r := Filter(s, p);
    forall i | 0 <= i < |r|
      ensures bound < key(r[i])
    {
      var m :| 0 <= m < |s| && s[m] == r[i];
    }
  }

  lemma FilterKeysBelow<T>(s: seq<T>, p: T -> bool, key: T -> nat, bound: int)
    requires forall i :: 0 <= i < |s| ==> key(s[i]) < bound
    ensures forall i :: 0 <= i < |Filter(s, p)| ==> key(Filter(s, p)[i]) < bound
  {
    var r := Filter(s, p);
    forall i | 0 <= i < |r|
      ensures key(r[i]) < bound
    {
      var m :| 0 <= m < |s| && s[m] == r[i];
    }
  }

  /** Filtering drops something exactly when some element fails `p` (a DELETE's rowcount is positive). */
  lemma {:induction false} FilterShrinks<T>(s: seq<T>, p: T -> bool)
    ensures |Filter(s, p)| < |s| <==> exists i :: 0 <= i < |s| && !p(s[i])
  {
    if s != [] {
      FilterShrinks(s[1..], p);
      if p(s[0]) {
        forall i | 1 <= i < |s| && !p(s[i])
          ensures exists j :: 0 <= j < |s[1..]| && !p(s[1..][j])
        {
          assert s[1..][i - 1] == s[i];
        }
      }
    }
  }

  /** A filter and its complement split `s` into two parts that together hold all of it. */
  lemma {:induction false} FilterPartition<T>(s: seq<T>, p: T -> bool, q: T -> bool)
    requires forall x :: q(x) == !p(x)
    ensures multiset(Filter(s, p)) + multiset(Filter(s, q)) == multiset(s)
  {
    if s != [] {
      var x, rest := s[0], s[1..];
      FilterPartition(rest, p, q);
      assert s == [x] + rest;
      assert q(x) == !p(x);
      PartitionStep(x, rest, Filter(rest, p), Filter(rest, q), Filter(s, p), Filter(s, q));
    }
  }

  /** Putting `x` in front of one of two parts of `rest` gives two parts of `[x] + rest`. */
  lemma PartitionStep<T>(x: T, rest: seq<T>, a: seq<T>, b: seq<T>, a2: seq<T>, b2: seq<T>)
    requires multiset(a) + multiset(b) == multiset(rest)
    requires (a2 == [x] + a && b2 == b) || (a2 == a && b2 == [x] + b)
    ensures multiset(a2) + multiset(b2) == multiset([x] + rest)
  {
  }

  /** Two sequences with the same multiset have the same elements. */
  lemma SameElements<T>(a: seq<T>, b: seq<T>)
    requires multiset(a) == multiset(b)
    ensures forall i :: 0 <= i < |a| ==> a[i] in b
    ensures forall i :: 0 <= i < |b| ==> b[i] in a
  {
    forall i | 0 <= i < |a|
      ensures a[i] in b
    {
      assert a[i] in multiset(b);
    }
    forall i | 0 <= i < |b|
      ensures b[i] in a
    {
      assert b[i] in multiset(a);
    }
  }

  /** How many elements of `s` satisfy `p`. */
  function Count<T>(s: seq<T>, p: T -> bool): (n: nat)
    ensures n <= |s|
    ensures n == 0 <==> forall i :: 0 <= i < |s| ==> !p(s[i])
  {
    if s == [] then 0 else (if p(s[0]) then 1 else 0) + Count(s[1..], p)
  }

  lemma {:induction false} CountAppend<T>(a: seq<T>, b: seq<T>, p: T -> bool)
    ensures Count(a + b, p) == Count(a, p) + Count(b, p)
  {
    if a == [] {
      assert a + b == b;
    } else {
      assert (a + b)[1..] == a[1..] + b;
      CountAppend(a[1..], b, p);
    }
  }

  lemma CountSingleton<T>(x: T, p: T -> bool)
    ensures Count([x], p) == if p(x) then 1 else 0
  {
    assert [x][1..] == [];
  }

  /** A filter keeps exactly the counted elements. */
  lemma {:induction false} FilterCount<T>(s: seq<T>, p: T -> bool)
    ensures |Filter(s, p)| == Count(s, p)
  {
    if s != [] {
      FilterCount(s[1..], p);
    }
  }

  /** The first element of `s` satisfying `p` (a `fetchone()` over a WHERE clause). */
  function Find<T>(s: seq<T>, p: T -> bool): (r: Option<T>)
    ensures r.Some? ==> r.value in s && p(r.value)
    ensures r.None? <==> forall i :: 0 <= i < |s| ==> !p(s[i])
  {
    if s == [] then None else if p(s[0]) then Some(s[0]) else Find(s[1..], p)
  }

  /** `f` applied to the elements that satisfy `p`, the others kept (an UPDATE ... WHERE). */
  function MapWhere<T>(s: seq<T>, p: T -> bool, f: T -> T): (r: seq<T>)
    ensures |r| == |s|
    ensures forall i :: 0 <= i < |s| ==> r[i] == (if p(s[i]) then f(s[i]) else s[i])
  {
    seq(|s|, i requires 0 <= i < |s| => if p(s[i]) then f(s[i]) else s[i])
  }

  /** Python's `min` for two integers. */
  function Min(a: int, b: int): int { if a <= b then a else b }

  /** Python's `max` for two integers. */
  function Max(a: int, b: int): int { if a >= b then a else b }
}
