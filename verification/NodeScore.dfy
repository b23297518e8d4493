/** The score of a node over the reals (CalculateNodeScore in protocol/protocol.go). */
module NodeScore {
  /** What is used of the weight 2^(-ln(t + 1)): it is 1 at 0, positive, decreasing and convex. */
  ghost predicate Decay(w: nat -> real) {
    && w(0) == 1.0
    && (forall t: nat :: 0.0 < w(t))
    && (forall t: nat :: w(t + 1) < w(t))
    && (forall t: nat :: w(t + 1) - w(t + 2) <= w(t) - w(t + 1))
  }

  function Average(good: nat, bad: nat): real
    requires good + bad > 0
  {
    good as real / (good + bad) as real
  }

  function Score(w: nat -> real, good: nat, bad: nat): real {
    if good + bad == 0 then 0.5
    else
      var average := Average(good, bad);
      average - (average - 0.5) * w(good + bad)
  }

  /** How far one vote of t carries: (1 - w(t)) / t. */
  function Pull(w: nat -> real, t: nat): real
    requires t > 0
  {
    (1.0 - w(t)) / t as real
  }

  lemma Quotient(x: real, t: real, y: real)
    requires t > 0.0
    ensures x / t * y == x * (y / t) && (x / t) * t == x
  {
  }

  /** The score leaves 1/2 by half the vote difference times the pull. */
  lemma ScoreByPull(w: nat -> real, good: nat, bad: nat)
    requires good + bad > 0
    ensures Score(w, good, bad) == 0.5 + (good as real - bad as real) * Pull(w, good + bad) / 2.0
  {
    var g, b := good as real, bad as real;
    var t := g + b;
    assert (good + bad) as real == t;
    var y := 1.0 - w(good + bad);
    Quotient(g, t, y);
    Quotient(y, t, 1.0);
    var p := y / t;
    assert p * t == y;
    assert Score(w, good, bad) == 0.5 + (g / t - 0.5) * y;
    assert g / t * y == g * p;
    assert 0.5 * y == 0.5 * (p * t) == 0.5 * (p * g) + 0.5 * (p * b);
  }

  /** Positive and decreasing weights stay below 1 after the first vote. */
  lemma {:induction false} BelowOne(w: nat -> real, t: nat)
    requires Decay(w) && t > 0
    ensures 0.0 < w(t) < 1.0
  {
    if t > 1 {
      BelowOne(w, t - 1);
      assert w((t - 1) + 1) < w(t - 1);
    } else {
      assert w(0 + 1) < w(0);
    }
  }

  /** A convex weight falls over t steps by at least t times its next step. */
  lemma {:induction false} FallAtLeast(w: nat -> real, t: nat)
    requires Decay(w)
    ensures 1.0 - w(t) >= t as real * (w(t) - w(t + 1))
  {
    if t > 0 {
      var s := t - 1;
      FallAtLeast(w, s);
      assert w(s + 1) - w(s + 2) <= w(s) - w(s + 1);
      assert s + 1 == t && s + 2 == t + 1;
      assert t as real == s as real + 1.0;
      FallStep(s as real, 1.0 - w(s), w(s) - w(t), w(t) - w(t + 1));
    }
  }

  lemma FallStep(s: real, fall: real, d: real, e: real)
    requires s >= 0.0 && fall >= s * d && d >= e
    ensures fall + d >= (s + 1.0) * e
  {
    Product(s, d - e);
    assert s * (d - e) == s * d - s * e;
    assert (s + 1.0) * e == s * e + e;
  }

  lemma PullPositive(w: nat -> real, t: nat)
    requires Decay(w) && t > 0
    ensures Pull(w, t) > 0.0 && Pull(w, t) * t as real == 1.0 - w(t)
  {
    BelowOne(w, t);
    Quotient(1.0 - w(t), t as real, 1.0);
    var p := Pull(w, t);
    assert p * t as real > 0.0;
  }

  lemma StepDown(p: real, q: real, n: real, fall: real)
    requires n > 0.0 && p * n >= n * fall && q * (n + 1.0) == p * n + fall
    ensures q <= p
  {
    CancelLeft(p, fall, n);
    assert p * (n + 1.0) == p * n + p;
    CancelLeft(p, q, n + 1.0);
  }

  /** More votes make each of them pull no harder. */
  lemma PullFalls(w: nat -> real, t: nat)
    requires Decay(w) && t > 0
    ensures Pull(w, t + 1) <= Pull(w, t)
  {
    PullPositive(w, t);
    PullPositive(w, t + 1);
    FallAtLeast(w, t);
    var p, q, n := Pull(w, t), Pull(w, t + 1), t as real;
    var fall := w(t) - w(t + 1);
    assert (t + 1) as real == n + 1.0;
    StepDown(p, q, n, fall);
  }

  lemma CancelLeft(a: real, b: real, n: real)
    requires n > 0.0 && a * n >= b * n
    ensures a >= b
  {
    assert (a - b) * n >= 0.0;
  }

  /** Good and bad votes are mirror images. */
  lemma ScoreSymmetric(w: nat -> real, good: nat, bad: nat)
    ensures Score(w, good, bad) + Score(w, bad, good) == 1.0
  {
    if good + bad > 0 {
      ScoreByPull(w, good, bad);
      ScoreByPull(w, bad, good);
      var p := Pull(w, good + bad);
      assert good + bad == bad + good;
      assert (bad as real - good as real) * p == -((good as real - bad as real) * p);
    }
  }

  lemma PullGrows(w: nat -> real, t: nat)
    requires Decay(w) && t > 0
    ensures Pull(w, t + 1) * (t as real + 1.0) > Pull(w, t) * t as real
  {
    PullPositive(w, t);
    PullPositive(w, t + 1);
    assert w(t + 1) < w(t);
    assert (t + 1) as real == t as real + 1.0;
  }

  /** Away from 1/2, where d votes pull by p each to the product m. */
  lemma ScoreFrom(w: nat -> real, good: nat, bad: nat, d: real, p: real, m: real)
    requires good + bad > 0 && d == good as real - bad as real && p == Pull(w, good + bad) && m == d * p
    ensures Score(w, good, bad) == 0.5 + m / 2.0
  {
    ScoreByPull(w, good, bad);
  }

  /** One more vote carries the votes' difference further. */
  lemma PullsFurther(w: nat -> real, t: nat, d: real)
    requires Decay(w) && t > 0 && -(t as real) <= d <= t as real
    ensures (d + 1.0) * Pull(w, t + 1) > d * Pull(w, t)
  {
    PullPositive(w, t + 1);
    PullGrows(w, t);
    PullFalls(w, t);
    OneMore(d, t as real, Pull(w, t), Pull(w, t + 1));
  }

  lemma FirstUpvote(w: nat -> real)
    requires Decay(w)
    ensures Score(w, 1, 0) > 0.5
  {
    PullPositive(w, 1);
    ScoreFrom(w, 1, 0, 1.0, Pull(w, 1), Pull(w, 1));
  }

  /** An upvote strictly raises the score. */
  lemma UpvoteRaises(w: nat -> real, good: nat, bad: nat)
    requires Decay(w)
    ensures Score(w, good + 1, bad) > Score(w, good, bad)
  {
    var t := good + bad;
    if t == 0 {
      FirstUpvote(w);
    } else {
      var d, p, q := good as real - bad as real, Pull(w, t), Pull(w, t + 1);
      var before, after := d * p, (d + 1.0) * q;
      assert (good + 1) + bad == t + 1;
      PullsFurther(w, t, d);
      ScoreFrom(w, good, bad, d, p, before);
      ScoreFrom(w, good + 1, bad, d + 1.0, q, after);
    }
  }

  lemma OneMore(d: real, t: real, p: real, q: real)
    requires t > 0.0 && -t <= d <= t
    requires 0.0 < q <= p && q * (t + 1.0) > p * t
    ensures (d + 1.0) * q > d * p
  {
    if d <= 0.0 {
      assert d * q >= d * p by {
        assert d * (p - q) <= 0.0;
      }
      assert (d + 1.0) * q == d * q + q;
    } else {
      // (p - q) * d <= (p - q) * t < q
      assert (p - q) * t < q by {
        assert (p - q) * t == p * t - q * t;
        assert q * (t + 1.0) == q * t + q;
      }
      assert (p - q) * d <= (p - q) * t by {
        assert (p - q) * (t - d) >= 0.0;
      }
      assert (d + 1.0) * q == d * q + q;
      assert (p - q) * d == p * d - q * d;
    }
  }

  /** A downvote strictly lowers the score. */
  lemma DownvoteLowers(w: nat -> real, good: nat, bad: nat)
    requires Decay(w)
    ensures Score(w, good, bad + 1) < Score(w, good, bad)
  {
    ScoreSymmetric(w, good, bad);
    ScoreSymmetric(w, good, bad + 1);
    UpvoteRaises(w, bad, good);
  }

  /** The score takes the fraction v of the average's lead over 1/2 away. */
  lemma ScoreParts(w: nat -> real, good: nat, bad: nat, a: real, v: real, m: real)
    requires good + bad > 0 && a == Average(good, bad) && v == w(good + bad) && m == (a - 0.5) * v
    ensures Score(w, good, bad) == a - m
  {
  }

  lemma AverageBounds(good: nat, bad: nat)
    requires good + bad > 0
    ensures 0.0 <= Average(good, bad) <= 1.0
    ensures good >= bad ==> Average(good, bad) >= 0.5
    ensures good <= bad ==> Average(good, bad) <= 0.5
  {
    assert (good + bad) as real == good as real + bad as real;
    AverageSides(good as real, bad as real);
  }

  /** The score lies between 1/2 and the plain average, and in [0, 1]. */
  lemma ScoreBetween(w: nat -> real, good: nat, bad: nat)
    requires Decay(w) && good + bad > 0
    ensures 0.0 <= Score(w, good, bad) <= 1.0
    ensures good >= bad ==> 0.5 <= Score(w, good, bad) <= Average(good, bad)
    ensures good <= bad ==> Average(good, bad) <= Score(w, good, bad) <= 0.5
  {
    var a, v := Average(good, bad), w(good + bad);
    var m := (a - 0.5) * v;
    BelowOne(w, good + bad);
    AverageBounds(good, bad);
    ScoreParts(w, good, bad, a, v, m);
    Shrink(a, v, m);
  }

  /** The average lies in [0, 1], on the side of 1/2 of the majority. */
  lemma AverageSides(g: real, b: real)
    requires g >= 0.0 && b >= 0.0 && g + b > 0.0
    ensures 0.0 <= g / (g + b) <= 1.0
    ensures g >= b ==> g / (g + b) >= 0.5
    ensures g <= b ==> g / (g + b) <= 0.5
  {
    var t := g + b;
    var a := g / t;
    Quotient(g, t, 1.0);
    Shares(a, t, g, b);
  }

  lemma Shares(a: real, t: real, g: real, b: real)
    requires t > 0.0 && a * t == g && g + b == t && g >= 0.0 && b >= 0.0
    ensures 0.0 <= a <= 1.0
    ensures g >= b ==> a >= 0.5
    ensures g <= b ==> a <= 0.5
  {
    Cancel(a, g, 0.0, 0.0, t);
    Cancel(1.0, t, a, g, t);
    Half(t);
    if g >= b {
      Cancel(a, g, 0.5, t / 2.0, t);
    }
    if g <= b {
      Cancel(0.5, t / 2.0, a, g, t);
    }
  }

  lemma Half(t: real)
    ensures 0.5 * t == t / 2.0
  {
  }

  lemma Cancel(a: real, x: real, b: real, y: real, n: real)
    requires n > 0.0 && a * n == x && b * n == y && x >= y
    ensures a >= b
  {
    CancelLeft(a, b, n);
  }

  /** Moving a towards 1/2 by a fraction v does not pass 1/2. */
  lemma Shrink(a: real, v: real, m: real)
    requires 0.0 < v < 1.0 && m == (a - 0.5) * v
    ensures a >= 0.5 ==> 0.5 <= a - m <= a
    ensures a <= 0.5 ==> a <= a - m <= 0.5
  {
    if a >= 0.5 {
      Fraction(a - 0.5, v, m);
    }
    if a <= 0.5 {
      assert (0.5 - a) * v == -m;
      Fraction(0.5 - a, v, -m);
    }
  }

  lemma Fraction(d: real, v: real, m: real)
    requires d >= 0.0 && 0.0 < v < 1.0 && m == d * v
    ensures 0.0 <= m <= d
  {
    Product(d, v);
    Product(d, 1.0 - v);
    assert d * (1.0 - v) == d - d * v;
  }

  lemma Product(a: real, b: real)
    requires a >= 0.0 && b >= 0.0
    ensures a * b >= 0.0
  {
  }

  /** No number of votes brings a score to 0 or 1. */
  lemma ScoreStrictlyBetween(w: nat -> real, good: nat, bad: nat)
    requires Decay(w)
    ensures 0.0 < Score(w, good, bad) < 1.0
  {
    if good + bad > 0 {
      BelowOne(w, good + bad);
      Mixed(good as real, bad as real, (good + bad) as real, w(good + bad));
    }
  }

  /** A proper mixture of an average and one half. */
  lemma Mixed(g: real, b: real, t: real, x: real)
    requires g >= 0.0 && b >= 0.0 && t == g + b && t > 0.0 && 0.0 < x < 1.0
    ensures 0.0 < g / t - (g / t - 0.5) * x < 1.0
  {
    var a := g / t;
    Quotient(g, t, 1.0);
    assert a * t == g;
    assert 0.0 <= a <= 1.0;
    assert a - (a - 0.5) * x == a * (1.0 - x) + 0.5 * x;
    Scaled(a, 1.0 - x);
  }

  lemma Scaled(a: real, y: real)
    requires 0.0 <= a <= 1.0 && y >= 0.0
    ensures 0.0 <= a * y <= y
  {
    assert (1.0 - a) * y >= 0.0;
    assert (1.0 - a) * y == y - a * y;
  }
}
