/** Vocabulary shared by every component: bytes, optional values, and sums over sequences. */
module Basics {

  type Bytes = seq<bv8>

  datatype Option<+T> = None | Some(value: T)

  function Min(a: int, b: int): int {
    if a <= b then a else b
  }

  function Max(a: int, b: int): int {
    if a >= b then a else b
  }

  /** The concatenation of `parts`, in order. */
  function Flatten<T>(parts: seq<seq<T>>): seq<T> {
    if parts == [] then [] else parts[0] + Flatten(parts[1..])
  }

  lemma {:induction false} FlattenConcat<T>(a: seq<seq<T>>, b: seq<seq<T>>)
    ensures Flatten(a + b) == Flatten(a) + Flatten(b)
  {
    if a == [] {
      assert a + b == b;
    } else {
      assert (a + b)[1..] == a[1..] + b;
      FlattenConcat(a[1..], b);
    }
  }

  lemma FlattenAppend<T>(parts: seq<seq<T>>, last: seq<T>)
    ensures Flatten(parts + [last]) == Flatten(parts) + last
  {
    FlattenConcat(parts, [last]);
    assert Flatten([last]) == last + Flatten([]);
  }

  /** The sum of `f` over the elements of `s`. */
  function Total<T>(s: seq<T>, f: T -> nat): nat {
    if s == [] then 0 else f(s[0]) + Total(s[1..], f)
  }

  lemma {:induction false} TotalUpdate<T>(s: seq<T>, i: nat, x: T, f: T -> nat)
    requires i < |s|
    ensures Total(s[i := x], f) + f(s[i]) == Total(s, f) + f(x)
  {
    if i == 0 {
      assert s[0 := x][1..] == s[1..];
    } else {
      assert s[i := x][1..] == s[1..][i - 1 := x];
      TotalUpdate(s[1..], i - 1, x, f);
    }
  }

  lemma {:induction false} TotalAppend<T>(s: seq<T>, x: T, f: T -> nat)
    ensures Total(s + [x], f) == Total(s, f) + f(x)
  {
    if s != [] {
      assert (s + [x])[1..] == s[1..] + [x];
      TotalAppend(s[1..], x, f);
    }
  }

  lemma {:induction false} TotalAtLeast<T>(s: seq<T>, i: nat, f: T -> nat)
    requires i < |s|
    ensures f(s[i]) <= Total(s, f)
  {
    if i > 0 {
      TotalAtLeast(s[1..], i - 1, f);
    }
  }

  /** A positive sum has a positive term. */
  lemma {:induction false} TotalWitness<T>(s: seq<T>, f: T -> nat) returns (i: nat)
    requires Total(s, f) > 0
    ensures i < |s| && f(s[i]) > 0
  {
    if f(s[0]) > 0 {
      i := 0;
    } else {
      i := TotalWitness(s[1..], f);
      i := i + 1;
    }
  }

  /** Bounding every term by a multiple of another bounds the sum. */
  lemma {:induction false} TotalBound<T>(s: seq<T>, f: T -> nat, g: T -> nat, c: nat)
    requires forall i :: 0 <= i < |s| ==> f(s[i]) <= g(s[i]) * c
    ensures Total(s, f) <= Total(s, g) * c
  {
    if s != [] {
      TotalBound(s[1..], f, g, c);
      assert (g(s[0]) + Total(s[1..], g)) * c == g(s[0]) * c + Total(s[1..], g) * c;
    }
  }

  lemma MulAtMost(a: nat, b: nat, c: nat)
    requires a <= b
    ensures a * c <= b * c
  {
  }

  /** The n-th multiple of `c` plus one more step stays at or below any later multiple. */
  lemma StepAtMost(n: nat, k: nat, c: nat)
    requires n < k
    ensures n * c + c <= k * c
  {
    MulAtMost(n + 1, k, c);
    assert n * c + c == (n + 1) * c;
  }

  /** A number that is no more than the quotient fits that often, and one more than the quotient does not. */
  lemma ShareOf(all: nat, each: nat, n: nat)
    requires each >= 1
    ensures n <= all / each ==> n * each <= all
    ensures n >= all / each ==> (n + 1) * each > all
  {
    var q := all / each;
    assert q * each <= all < (q + 1) * each;
    if n <= q {
      MulAtMost(n, q, each);
    }
    if n >= q {
      MulAtMost(q + 1, n + 1, each);
    }
  }

  function Filter<T>(s: seq<T>, p: T -> bool): seq<T> {
    if s == [] then []
    else if p(s[0]) then [s[0]] + Filter(s[1..], p)
    else Filter(s[1..], p)
  }

  lemma {:induction false} FilterMember<T>(s: seq<T>, p: T -> bool, x: T)
    ensures x in Filter(s, p) <==> x in s && p(x)
  {
    if s != [] {
      FilterMember(s[1..], p, x);
    }
  }

  lemma {:induction false} FilterConcat<T>(a: seq<T>, b: seq<T>, p: T -> bool)
    ensures Filter(a + b, p) == Filter(a, p) + Filter(b, p)
  {
    if a == [] {
      assert a + b == b;
    } else {
      assert (a + b)[1..] == a[1..] + b;
      FilterConcat(a[1..], b, p);
    }
  }

  lemma {:induction false} FilterAll<T>(s: seq<T>, p: T -> bool)
    requires forall x :: x in s ==> p(x)
    ensures Filter(s, p) == s
  {
    if s != [] {
      assert forall x :: x in s[1..] ==> x in s;
      FilterAll(s[1..], p);
    }
  }

  lemma {:induction false} TotalFilter<T>(s: seq<T>, p: T -> bool, f: T -> nat)
    ensures Total(Filter(s, p), f) <= Total(s, f)
  {
    if s != [] {
      TotalFilter(s[1..], p, f);
    }
  }
}
