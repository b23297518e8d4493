/** Finite chains of moves of an arbitrary relation. */
module Chains {
  ghost predicate Leads<T(!new)>(move: (T, T) -> bool, t: T, u: T, n: nat)
    decreases n
  {
    if n == 0 then t == u
    else exists v :: Leads(move, t, v, n - 1) && move(v, u)
  }

  lemma One<T(!new)>(move: (T, T) -> bool, t: T, u: T)
    requires move(t, u)
    ensures Leads(move, t, u, 1)
  {
    assert Leads(move, t, t, 0);
  }

  lemma {:induction false} Then<T(!new)>(move: (T, T) -> bool, t: T, u: T, n: nat, w: T, m: nat)
    requires Leads(move, t, u, n) && Leads(move, u, w, m)
    ensures Leads(move, t, w, n + m)
    decreases m
  {
    if m > 0 {
      var v :| Leads(move, u, v, m - 1) && move(v, w);
      Then(move, t, u, n, v, m - 1);
    }
  }

  /** A cycle can be gone round any number of times. */
  lemma {:induction false} Repeat<T(!new)>(move: (T, T) -> bool, t: T, n: nat, k: nat)
    requires Leads(move, t, t, n)
    ensures Leads(move, t, t, n * k)
    decreases k
  {
    if k > 0 {
      Repeat(move, t, n, k - 1);
      assert n * (k - 1) + n == n * k;
      Then(move, t, t, n * (k - 1), t, n);
    }
  }

  /** What holds at the start and is kept by every move holds at the end. */
  lemma {:induction false} Kept<T(!new)>(move: (T, T) -> bool, inv: (nat, T) -> bool, t: T, u: T, n: nat)
    requires Leads(move, t, u, n) && inv(0, t)
    requires forall k: nat, v, w :: inv(k, v) && move(v, w) ==> inv(k + 1, w)
    ensures inv(n, u)
    decreases n
  {
    if n > 0 {
      var v :| Leads(move, t, v, n - 1) && move(v, u);
      Kept(move, inv, t, v, n - 1);
    }
  }
}
