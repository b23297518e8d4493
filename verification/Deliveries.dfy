/** Concrete runs of the flood, followed through its traffic alone. */
module Deliveries {
  import opened Flood
  import C = Chains

  /** One delivery leads from t to u. */
  ghost predicate Delivers(g: Network, t: Traffic, u: Traffic) {
    exists step :: Can(t, step) && Deliver(g, t, step) == u
  }

  ghost function Moves(g: Network): (Traffic, Traffic) -> bool {
    (t, u) => Delivers(g, t, u)
  }

  /** move includes the deliveries in g. */
  ghost predicate Allows(g: Network, move: (Traffic, Traffic) -> bool) {
    forall t, u {:trigger Delivers(g, t, u)} :: Delivers(g, t, u) ==> move(t, u)
  }

  /** Some run of k steps from s has led to this traffic. */
  ghost predicate Reached(g: Network, s: State, k: nat, u: Traffic) {
    exists run :: Run(g, s, run) && |run| == k && After(g, s, run).now == u
  }

  lemma RunMore(g: Network, s: State, run: seq<Step>, step: Step)
    requires Run(g, s, run) && Can(After(g, s, run).now, step)
    ensures Run(g, s, run + [step]) && After(g, s, run + [step]).now == Deliver(g, After(g, s, run).now, step)
  {
    assert (run + [step])[..|run|] == run;
  }

  lemma StepOf(g: Network, t: Traffic, u: Traffic) returns (step: Step)
    requires Delivers(g, t, u)
    ensures Can(t, step) && Deliver(g, t, step) == u
  {
    step :| Can(t, step) && Deliver(g, t, step) == u;
  }

  lemma ReachedMore(g: Network, s: State, k: nat, t: Traffic, u: Traffic)
    requires Reached(g, s, k, t) && Delivers(g, t, u)
    ensures Reached(g, s, k + 1, u)
  {
    var run :| Run(g, s, run) && |run| == k && After(g, s, run).now == t;
    var step := StepOf(g, t, u);
    RunMore(g, s, run, step);
    assert |run + [step]| == k + 1;
  }

  /** What deliveries can do to the traffic of a state, runs from that state do. */
  lemma LeadsIsReached(g: Network, s: State, u: Traffic, n: nat)
    requires C.Leads(Moves(g), s.now, u, n)
    ensures Reached(g, s, n, u)
  {
    var inv := (k: nat, t: Traffic) => Reached(g, s, k, t);
    assert Reached(g, s, 0, s.now) by {
      assert Run(g, s, []);
    }
    forall k: nat, t, v | inv(k, t) && Moves(g)(t, v)
      ensures inv(k + 1, v)
    {
      ReachedMore(g, s, k, t, v);
    }
    C.Kept(Moves(g), inv, s.now, u, n);
  }

  /** Deliver one message. */
  lemma Go(g: Network, move: (Traffic, Traffic) -> bool, t: Traffic, step: Step, u: Traffic)
    requires Allows(g, move)
    requires Can(t, step) && Deliver(g, t, step) == u
    ensures C.Leads(move, t, u, 1)
  {
    assert Delivers(g, t, u);
    C.One(move, t, u);
  }
}
