/** Sums of a measure over a sequence, and how they behave under concatenation,
    update, rearrangement and inclusion. Every conservation law of the project is
    stated with `SumBy`. */
module Sums {

  function SumBy<T>(s: seq<T>, f: T -> int): int {
    if s == [] then 0 else f(s[0]) + SumBy(s[1..], f)
  }

  function Itself(n: int): int { n }

  function Flatten<T>(ss: seq<seq<T>>): seq<T> {
    if ss == [] then [] else ss[0] + Flatten(ss[1..])
  }

  function Min(a: int, b: int): (m: int) {
    if a <= b then a else b
  }

  lemma {:induction false} SumConcat<T>(a: seq<T>, b: seq<T>, f: T -> int)
    ensures SumBy(a + b, f) == SumBy(a, f) + SumBy(b, f)
  {
    if a == [] {
      assert a + b == b;
    } else {
      assert (a + b)[1..] == a[1..] + b;
      SumConcat(a[1..], b, f);
    }
  }

  lemma {:induction false} SumOne<T>(x: T, f: T -> int)
    ensures SumBy([x], f) == f(x)
  {
    assert [x][1..] == [];
  }

  lemma {:induction false} SumSnoc<T>(s: seq<T>, x: T, f: T -> int)
    ensures SumBy(s + [x], f) == SumBy(s, f) + f(x)
  {
    SumConcat(s, [x], f);
    SumOne(x, f);
  }

  lemma {:induction false} SumSplit<T>(s: seq<T>, i: nat, f: T -> int)
    requires i <= |s|
    ensures SumBy(s, f) == SumBy(s[..i], f) + SumBy(s[i..], f)
  {
    assert s == s[..i] + s[i..];
    SumConcat(s[..i], s[i..], f);
  }

  lemma {:induction false} SumRemove<T>(s: seq<T>, i: nat, f: T -> int)
    requires i < |s|
    ensures SumBy(s, f) == f(s[i]) + SumBy(s[..i] + s[i + 1..], f)
  {
    SumSplit(s, i, f);
    assert s[i..][1..] == s[i + 1..];
    SumConcat(s[..i], s[i + 1..], f);
  }

  lemma {:induction false} SumUpdate<T>(s: seq<T>, i: nat, x: T, f: T -> int)
    requires i < |s|
    ensures SumBy(s[i := x], f) == SumBy(s, f) - f(s[i]) + f(x)
  {
    SumRemove(s, i, f);
    SumRemove(s[i := x], i, f);
    assert s[i := x][..i] == s[..i] && s[i := x][i + 1..] == s[i + 1..];
  }

  lemma {:induction false} SumNonNegative<T>(s: seq<T>, f: T -> int)
    requires forall x :: x in s ==> f(x) >= 0
    ensures SumBy(s, f) >= 0
  {
    if s != [] {
      SumNonNegative(s[1..], f);
    }
  }

  lemma {:induction false} SumPositive<T>(s: seq<T>, x: T, f: T -> int)
    requires forall y :: y in s ==> f(y) >= 0
    requires x in s
    ensures SumBy(s, f) >= f(x)
  {
    if s[0] == x {
      SumNonNegative(s[1..], f);
    } else {
      SumPositive(s[1..], x, f);
    }
  }

  lemma {:induction false} SumMonotone<T>(s: seq<T>, f: T -> int, g: T -> int)
    requires forall x :: x in s ==> f(x) <= g(x)
    ensures SumBy(s, f) <= SumBy(s, g)
  {
    if s != [] {
      SumMonotone(s[1..], f, g);
    }
  }

  lemma {:induction false} SumEqual<T>(s: seq<T>, f: T -> int, g: T -> int)
    requires forall x :: x in s ==> f(x) == g(x)
    ensures SumBy(s, f) == SumBy(s, g)
  {
    SumMonotone(s, f, g);
    SumMonotone(s, g, f);
  }

  lemma {:induction false} SumZero<T>(s: seq<T>, f: T -> int)
    requires forall x :: x in s ==> f(x) == 0
    ensures SumBy(s, f) == 0
  {
    if s != [] {
      SumZero(s[1..], f);
    }
  }

  lemma {:induction false} SumConstant<T>(s: seq<T>, c: int, f: T -> int)
    requires forall x :: x in s ==> f(x) == c
    ensures SumBy(s, f) == c * |s|
  {
    if s != [] {
      SumConstant(s[1..], c, f);
    }
  }

  /** Pointwise addition of measures. */
  lemma {:induction false} SumAdd<T>(s: seq<T>, f: T -> int, g: T -> int, h: T -> int)
    requires forall x :: x in s ==> h(x) == f(x) + g(x)
    ensures SumBy(s, h) == SumBy(s, f) + SumBy(s, g)
  {
    if s != [] {
      SumAdd(s[1..], f, g, h);
    }
  }

  /** Two sequences of equal length whose entries carry the same measure. */
  lemma {:induction false} SumPointwise<S, T>(a: seq<S>, b: seq<T>, f: S -> int, g: T -> int)
    requires |a| == |b|
    requires forall i :: 0 <= i < |a| ==> f(a[i]) == g(b[i])
    ensures SumBy(a, f) == SumBy(b, g)
  {
    if a != [] {
      assert forall i :: 0 <= i < |a[1..]| ==> f(a[1..][i]) == f(a[i + 1]) && g(b[1..][i]) == g(b[i + 1]);
      SumPointwise(a[1..], b[1..], f, g);
    }
  }

  lemma {:induction false} SumPointwiseAtLeast<S, T>(a: seq<S>, b: seq<T>, f: S -> int, g: T -> int)
    requires |a| == |b|
    requires forall i :: 0 <= i < |a| ==> f(a[i]) >= g(b[i])
    ensures SumBy(a, f) >= SumBy(b, g)
  {
    if a != [] {
      assert forall i :: 0 <= i < |a[1..]| ==> f(a[1..][i]) == f(a[i + 1]) && g(b[1..][i]) == g(b[i + 1]);
      SumPointwiseAtLeast(a[1..], b[1..], f, g);
    }
  }

  lemma {:induction false} SumScaled<T>(s: seq<T>, c: int, f: T -> int, g: T -> int)
    requires forall x :: x in s ==> g(x) == c * f(x)
    ensures SumBy(s, g) == c * SumBy(s, f)
  {
    if s != [] {
      SumScaled(s[1..], c, f, g);
      assert c * (f(s[0]) + SumBy(s[1..], f)) == c * f(s[0]) + c * SumBy(s[1..], f);
    }
  }

  lemma {:induction false} RemoveShrinksMultiset<T>(s: seq<T>, i: nat)
    requires i < |s|
    ensures multiset(s) == multiset{s[i]} + multiset(s[..i] + s[i + 1..])
  {
    assert s == s[..i] + [s[i]] + s[i + 1..];
  }

  /** A sub-collection of non-negative measures never sums to more than the whole. */
  lemma {:induction false} SumIncluded<T>(a: seq<T>, b: seq<T>, f: T -> int)
    requires multiset(a) <= multiset(b)
    requires forall x :: x in b ==> f(x) >= 0
    ensures SumBy(a, f) <= SumBy(b, f)
  {
    if a == [] {
      SumNonNegative(b, f);
    } else {
      assert a == [a[0]] + a[1..];
      assert a[0] in multiset(b);
      var i :| 0 <= i < |b| && b[i] == a[0];
      var rest := b[..i] + b[i + 1..];
      RemoveShrinksMultiset(b, i);
      SumRemove(b, i, f);
      assert multiset(a[1..]) == multiset(a) - multiset{a[0]};
      assert forall x :: x in rest ==> x in b;
      SumIncluded(a[1..], rest, f);
    }
  }

  /** Sums do not depend on order. */
  lemma {:induction false} SumRearranged<T>(a: seq<T>, b: seq<T>, f: T -> int)
    requires multiset(a) == multiset(b)
    ensures SumBy(a, f) == SumBy(b, f)
  {
    if a == [] {
      assert |multiset(b)| == 0;
      assert b == [];
    } else {
      assert a == [a[0]] + a[1..];
      assert a[0] in multiset(b);
      var i :| 0 <= i < |b| && b[i] == a[0];
      RemoveShrinksMultiset(b, i);
      SumRemove(b, i, f);
      assert multiset(a[1..]) == multiset(a) - multiset{a[0]};
      SumRearranged(a[1..], b[..i] + b[i + 1..], f);
    }
  }

  lemma {:induction false} FlattenConcat<T>(a: seq<seq<T>>, b: seq<seq<T>>)
    ensures Flatten(a + b) == Flatten(a) + Flatten(b)
  {
    if a == [] {
      assert a + b == b;
    } else {
      assert (a + b)[1..] == a[1..] + b;
      FlattenConcat(a[1..], b);
    }
  }

  /** Products one step apart, kept away from larger proofs. */
  lemma {:induction false} OneMoreTimes(n: int, c: int)
    ensures n * c == (n - 1) * c + c
    ensures c * n == c * (n - 1) + c
  {
  }

  lemma {:induction false} OneMoreFactor(c: int, n: int, less: int)
    requires n == less + 1
    ensures c * n == c * less + c
  {
  }
}
