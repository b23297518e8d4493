/** Finite sums over sets, used as termination measures. */
module Sums {
  ghost function Sum<T(!new)>(s: set<T>, f: T -> nat): nat {
    if s == {} then 0 else var x :| x in s; f(x) + Sum(s - {x}, f)
  }

  lemma {:induction false} SumRemove<T(!new)>(s: set<T>, f: T -> nat, x: T)
    requires x in s
    ensures Sum(s, f) == f(x) + Sum(s - {x}, f)
    decreases |s|
  {
    var y :| y in s && Sum(s, f) == f(y) + Sum(s - {y}, f);
    if x != y {
      SumRemove(s - {y}, f, x);
      SumRemove(s - {x}, f, y);
      assert s - {y} - {x} == s - {x} - {y};
    }
  }

  lemma {:induction false} SumSame<T(!new)>(s: set<T>, f: T -> nat, g: T -> nat)
    requires forall y :: y in s ==> f(y) == g(y)
    ensures Sum(s, f) == Sum(s, g)
    decreases |s|
  {
    if s != {} {
      var x :| x in s;
      SumRemove(s, f, x);
      SumRemove(s, g, x);
      SumSame(s - {x}, f, g);
    }
  }

  /** Changing the summand at one point changes the sum by as much. */
  lemma SumChange<T(!new)>(s: set<T>, f: T -> nat, g: T -> nat, x: T)
    requires x in s
    requires forall y :: y in s && y != x ==> f(y) == g(y)
    ensures Sum(s, f) + g(x) == Sum(s, g) + f(x)
  {
    SumRemove(s, f, x);
    SumRemove(s, g, x);
    SumSame(s - {x}, f, g);
  }

  /** The sum over a multiset, with multiplicity. */
  ghost function SumAll<T(!new)>(m: multiset<T>, f: T -> nat): nat {
    if m == multiset{} then 0 else var x :| x in m; f(x) + SumAll(m - multiset{x}, f)
  }

  lemma {:induction false} SumAllRemove<T(!new)>(m: multiset<T>, f: T -> nat, x: T)
    requires x in m
    ensures SumAll(m, f) == f(x) + SumAll(m - multiset{x}, f)
    decreases |m|
  {
    var y :| y in m && SumAll(m, f) == f(y) + SumAll(m - multiset{y}, f);
    if x != y {
      SumAllRemove(m - multiset{y}, f, x);
      SumAllRemove(m - multiset{x}, f, y);
      assert m - multiset{y} - multiset{x} == m - multiset{x} - multiset{y};
    }
  }

  lemma {:induction false} SumAllPlus<T(!new)>(a: multiset<T>, b: multiset<T>, f: T -> nat)
    ensures SumAll(a + b, f) == SumAll(a, f) + SumAll(b, f)
    decreases |b|
  {
    if b == multiset{} {
      assert a + b == a;
    } else {
      var x :| x in b;
      SumAllRemove(b, f, x);
      SumAllRemove(a + b, f, x);
      SumAllPlus(a, b - multiset{x}, f);
      assert a + b - multiset{x} == a + (b - multiset{x});
    }
  }
}
