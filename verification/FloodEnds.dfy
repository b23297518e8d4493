/** When the flood ends: exactly when no cycle of peers is connected to an origin. On other graphs
    queries and the locations that answer them can chase each other for ever, because a served entry
    is dropped and a dropped entry lets the query flood again. */
module FloodEnds {
  import opened Base
  import opened Cycles
  import opened Flood
  import opened FloodBounds
  import R = HashRouter
  import Sums

  // ----- without a cycle, every run is bounded -----

  /** The query has come on a walk from an origin. */
  ghost predicate OnWalk(g: Network, h: Hop) {
    exists w :: Brings(g, w, h)
  }

  predicate Brings(g: Network, w: seq<Node>, h: Hop) {
    Walk(g, w) && w[0] in g.origins && w[|w| - 2] == h.source && w[|w| - 1] == h.target
  }

  ghost predicate QueriesOnWalks(g: Network, s: State) {
    forall h :: h in s.now.queries ==> OnWalk(g, h)
  }

  lemma OriginOnWalk(g: Network, h: Hop)
    requires h.source in g.origins && h.target in PeersOf(g, h.source)
    ensures OnWalk(g, h)
  {
    assert Brings(g, [h.source, h.target], h);
  }

  lemma OnwardOnWalk(g: Network, h: Hop, x: Node)
    requires OnWalk(g, h) && x in PeersOf(g, h.target) && x != h.source
    ensures OnWalk(g, Hop(h.target, x))
  {
    var w :| Brings(g, w, h);
    assert Brings(g, w + [x], Hop(h.target, x));
  }

  lemma QueriesOnWalksKept(g: Network, s: State, step: Step)
    requires QueriesOnWalks(g, s) && Enabled(s, step)
    ensures QueriesOnWalks(g, Next(g, s, step))
  {
    if step.Ask? {
      var h := step.hop;
      forall q | q in Next(g, s, step).now.queries
        ensures OnWalk(g, q)
      {
        if q !in s.now.queries {
          HopIn(q, h.target, R.FloodTargets(R.EntryOf(s.now.table, h.target), PeersOf(g, h.target), h.source));
          OnwardOnWalk(g, h, q.target);
        }
      }
    }
  }

  /** Where a query goes on to. */
  function Onwards(g: Network, h: Hop): set<Node> {
    PeersOf(g, h.target) - {h.source}
  }

  /** How many deliveries a query can cause at most within this many hops, itself included. */
  ghost function Weight(g: Network, h: Hop, depth: nat): nat
    decreases depth
  {
    if depth == 0 then 0
    else 1 + Sums.Sum(Onwards(g, h), x => Weight(g, Hop(h.target, x), depth - 1))
  }

  /** No walk that begins with h has more than n nodes. */
  ghost predicate Shallow(g: Network, h: Hop, n: nat) {
    forall w :: Walk(g, w) && w[0] == h.source && w[1] == h.target ==> |w| <= n
  }

  lemma ShallowNext(g: Network, h: Hop, x: Node, n: nat)
    requires h.target in PeersOf(g, h.source) && x in Onwards(g, h) && Shallow(g, h, n) && n > 0
    ensures Shallow(g, Hop(h.target, x), n - 1)
  {
    forall w | Walk(g, w) && w[0] == h.target && w[1] == x
      ensures |w| <= n - 1
    {
      assert Walk(g, [h.source] + w);
    }
  }

  /** Beyond the longest walk, depth does not matter. */
  lemma {:induction false} WeightSettles(g: Network, h: Hop, n: nat)
    requires h.target in PeersOf(g, h.source) && Shallow(g, h, n)
    ensures n > 0 && Weight(g, h, n - 1) == Weight(g, h, n)
    decreases n
  {
    assert Walk(g, [h.source, h.target]);
    forall x | x in Onwards(g, h)
      ensures Weight(g, Hop(h.target, x), n - 2) == Weight(g, Hop(h.target, x), n - 1)
    {
      ShallowNext(g, h, x, n);
      WeightSettles(g, Hop(h.target, x), n - 1);
    }
    Sums.SumSame(Onwards(g, h), x => Weight(g, Hop(h.target, x), n - 2), x => Weight(g, Hop(h.target, x), n - 1));
  }

  lemma OnWalkShallow(g: Network, h: Hop)
    requires g.WellFormed() && Simple(g) && !CycleReached(g) && OnWalk(g, h)
    ensures Shallow(g, h, |g.peers.Keys|)
  {
    var p :| Brings(g, p, h);
    forall w | Walk(g, w) && w[0] == h.source && w[1] == h.target
      ensures |w| <= |g.peers.Keys|
    {
      WalksJoin(g, p, w);
      WalkBound(g, p[..|p| - 2] + w);
    }
  }

  lemma WalksJoin(g: Network, p: seq<Node>, w: seq<Node>)
    requires Walk(g, p) && Walk(g, w) && p[|p| - 2] == w[0] && p[|p| - 1] == w[1]
    ensures Walk(g, p[..|p| - 2] + w) && (p[..|p| - 2] + w)[0] == p[0]
  {
  }

  ghost function FullWeight(g: Network): Hop -> nat {
    h => Weight(g, h, |g.peers.Keys|)
  }

  /** A query weighs one more than all it goes on as. */
  lemma WeightStep(g: Network, h: Hop)
    requires g.WellFormed() && Simple(g) && !CycleReached(g) && OnWalk(g, h)
    ensures FullWeight(g)(h) == 1 + Sums.Sum(Onwards(g, h), x => FullWeight(g)(Hop(h.target, x)))
  {
    var n := |g.peers.Keys|;
    OnWalkShallow(g, h);
    OnWalkIsHop(g, h);
    WeightSettles(g, h, n);
    forall x | x in Onwards(g, h)
      ensures Weight(g, Hop(h.target, x), n - 1) == FullWeight(g)(Hop(h.target, x))
    {
      OnwardOnWalk(g, h, x);
      OnWalkShallow(g, Hop(h.target, x));
      WeightSettles(g, Hop(h.target, x), n);
    }
    Sums.SumSame(Onwards(g, h), x => Weight(g, Hop(h.target, x), n - 1), x => FullWeight(g)(Hop(h.target, x)));
  }

  lemma OnWalkIsHop(g: Network, h: Hop)
    requires OnWalk(g, h)
    ensures h.target in PeersOf(g, h.source)
  {
    var w :| Brings(g, w, h);
    assert w[|w| - 1] in PeersOf(g, w[|w| - 2]);
  }

  ghost function Load(g: Network, queries: multiset<Hop>): nat {
    Sums.SumAll(queries, FullWeight(g))
  }

  lemma {:induction false} HopsLoad(v: Node, targets: set<Node>, f: Hop -> nat)
    ensures Sums.SumAll(Hops(v, targets), f) == Sums.Sum(targets, x => f(Hop(v, x)))
  {
    if targets == {} {
      assert Hops(v, targets) == multiset{};
    } else {
      var x := Pick(targets);
      HopsLoad(v, targets - {x}, f);
      Sums.SumRemove(targets, y => f(Hop(v, y)), x);
      HopIn(Hop(v, x), v, targets);
      Sums.SumAllRemove(Hops(v, targets), f, Hop(v, x));
      HopsLess(v, targets, x);
    }
  }

  lemma HopsLess(v: Node, targets: set<Node>, x: Node)
    requires x in targets
    ensures Hops(v, targets) - multiset{Hop(v, x)} == Hops(v, targets - {x})
  {
    var all, rest := set w | w in targets :: Hop(v, w), set w | w in targets - {x} :: Hop(v, w);
    assert all == rest + {Hop(v, x)} && Hop(v, x) !in rest;
  }

  /** Delivering a query makes the load lighter. */
  lemma AskLightens(g: Network, s: State, h: Hop, stored: Option<Node>)
    requires g.WellFormed() && Simple(g) && !CycleReached(g)
    requires QueriesOnWalks(g, s) && Enabled(s, Ask(h, stored))
    ensures Load(g, AfterQuery(g, s.now, h, stored).queries) < Load(g, s.now.queries)
  {
    var f, q := FullWeight(g), s.now.queries;
    var targets := R.FloodTargets(R.EntryOf(s.now.table, h.target), PeersOf(g, h.target), h.source);
    Sums.SumAllRemove(q, f, h);
    Sums.SumAllPlus(q - multiset{h}, Hops(h.target, targets), f);
    HopsLoad(h.target, targets, f);
    WeightStep(g, h);
    assert targets == {} || targets == Onwards(g, h);
  }

  lemma {:induction false} AsksBounded(g: Network, s: State, run: seq<Step>)
    requires g.WellFormed() && Simple(g) && !CycleReached(g) && QueriesOnWalks(g, s) && Run(g, s, run)
    ensures QueriesOnWalks(g, After(g, s, run))
    ensures Asks(run) + Load(g, After(g, s, run).now.queries) <= Load(g, s.now.queries)
  {
    if run != [] {
      var front, last := run[..|run| - 1], run[|run| - 1];
      AsksBounded(g, s, front);
      QueriesOnWalksKept(g, After(g, s, front), last);
      if last.Ask? {
        AskLightens(g, After(g, s, front), last.hop, last.stored);
      }
    }
  }

  /** Without a cycle, no run, of any interleaving, delivers more than this. */
  lemma FloodBounded(g: Network, s: State, run: seq<Step>)
    requires g.WellFormed() && Simple(g) && !CycleReached(g) && Initial(g, s) && Run(g, s, run)
    ensures |run| <= 4 * Load(g, s.now.queries) + Backlog(g, s.now)
  {
    forall h | h in s.now.queries
      ensures OnWalk(g, h)
    {
      OriginOnWalk(g, h);
    }
    AsksBounded(g, s, run);
    InitialInv(g, s);
    AnswersBounded(g, s, run);
    StepCount(run);
  }

  // ----- with one, runs of every length -----

  /** After k rounds along the walk: its next query is on its way, and only the node it comes from has an entry. */
  ghost predicate Ahead(g: Network, t: Traffic, w: seq<Node>, k: nat, announcer: Node)
    requires k + 1 < |w|
  {
    && Hop(w[k], w[k + 1]) in t.queries
    && t.table == (if k == 0 then map[] else map[w[k] := {w[k - 1]}])
    && forall v :: v in g.peers ==> announcer in Known(t, v)
  }

  /** One round: the next node floods and answers, and the answer drops the entry behind. */
  lemma Round(g: Network, s: State, w: seq<Node>, k: nat, announcer: Node)
    requires g.WellFormed() && Simple(g) && Walk(g, w) && w[0] in g.peers && announcer !in g.peers
    requires k + 2 < |w| && Ahead(g, s.now, w, k, announcer)
    ensures var ask := Ask(Hop(w[k], w[k + 1]), Some(announcer)); var tell := Tell(Reply(w[k], announcer));
      && Enabled(s, ask) && Enabled(Next(g, s, ask), tell)
      && Ahead(g, Next(g, Next(g, s, ask), tell).now, w, k + 1, announcer)
  {
    var x, y, z := w[k], w[k + 1], w[k + 2];
    PathInside(g, w);
    assert x in w && y in w;
    assert y in PeersOf(g, x) && z in PeersOf(g, y) && z != x && y != x;
    var asked := Next(g, s, Ask(Hop(x, y), Some(announcer)));
    HopIn(Hop(y, z), y, PeersOf(g, y) - {x});
    assert Hop(y, z) in asked.now.queries;
    assert R.EntryOf(s.now.table, y) == None && R.EntryAfterQuery(None, x) == {x};
    assert asked.now.table == s.now.table[y := {x}];
    DropsBehind(g, asked.now, w, k, announcer);
  }

  lemma DropsBehind(g: Network, t: Traffic, w: seq<Node>, k: nat, announcer: Node)
    requires g.WellFormed() && Simple(g) && Walk(g, w) && w[0] in g.peers && announcer !in g.peers && k + 1 < |w|
    requires t.table == (if k == 0 then map[] else map[w[k] := {w[k - 1]}])[w[k + 1] := {w[k]}]
    ensures AfterAnswer(g, t, Reply(w[k], announcer)).table == map[w[k + 1] := {w[k]}]
  {
    var a := Reply(w[k], announcer);
    PathInside(g, w);
    assert w[k] in w && w[k + 1] in PeersOf(g, w[k]) && w[k + 1] != w[k];
    if k > 0 {
      assert w[k - 1] in w;
      assert R.EntryOf(t.table, w[k]) == Some({w[k - 1]});
      assert R.Settles(w[k - 1], announcer, PeersOf(g, w[k]), g.peers.Keys);
      assert Dropped(g, t, a);
    }
  }

  /** Along a walk of k + 2 nodes, a run of 2 * k deliveries. */
  lemma {:induction false} WalkRun(g: Network, s: State, w: seq<Node>, k: nat, announcer: Node) returns (run: seq<Step>)
    requires g.WellFormed() && Simple(g) && Walk(g, w) && w[0] in g.peers && announcer !in g.peers
    requires k + 1 < |w| && Ahead(g, s.now, w, 0, announcer)
    ensures Run(g, s, run) && |run| == 2 * k && Ahead(g, After(g, s, run).now, w, k, announcer)
  {
    if k == 0 {
      run := [];
    } else {
      var front := WalkRun(g, s, w, k - 1, announcer);
      var ask, tell := Ask(Hop(w[k - 1], w[k]), Some(announcer)), Tell(Reply(w[k - 1], announcer));
      Round(g, After(g, s, front), w, k - 1, announcer);
      RunTwo(g, s, front, ask, tell);
      run := front + [ask] + [tell];
    }
  }

  lemma RunTwo(g: Network, s: State, front: seq<Step>, a: Step, b: Step)
    requires Run(g, s, front) && Enabled(After(g, s, front), a) && Enabled(Next(g, After(g, s, front), a), b)
    ensures Run(g, s, front + [a] + [b])
    ensures After(g, s, front + [a] + [b]) == Next(g, Next(g, After(g, s, front), a), b)
  {
    RunOne(g, s, front, a);
    RunOne(g, s, front + [a], b);
  }

  lemma RunOne(g: Network, s: State, front: seq<Step>, step: Step)
    requires Run(g, s, front) && Enabled(After(g, s, front), step)
    ensures Run(g, s, front + [step]) && After(g, s, front + [step]) == Next(g, After(g, s, front), step)
  {
    assert (front + [step])[..|front|] == front;
  }

  lemma {:induction false} Outsider(nodes: set<Node>) returns (x: Node)
    ensures forall v :: v in nodes ==> v < x
  {
    if nodes == {} {
      x := 0;
    } else {
      var v := Pick(nodes);
      var y := Outsider(nodes - {v});
      x := if v < y then y else v + 1;
      assert forall u :: u in nodes ==> u == v || u in nodes - {v};
    }
  }

  /** All nodes have stored the announcer's location, and the origins have just asked. */
  ghost function AllStored(g: Network, announcer: Node): State {
    State(Traffic(map[], map v | v in g.peers :: {announcer},
                  multiset(set o, x | o in g.origins && x in PeersOf(g, o) :: Hop(o, x)), multiset{}),
          History([], map[], {}, {}, {}, {}))
  }

  /** With the location of a node that has left stored everywhere, a cycle lets runs grow beyond any bound. */
  lemma FloodUnbounded(g: Network, announcer: Node, n: nat) returns (run: seq<Step>)
    requires g.WellFormed() && Simple(g) && CycleReached(g) && announcer !in g.peers && g.providers == {announcer}
    ensures Initial(g, AllStored(g, announcer)) && Run(g, AllStored(g, announcer), run) && |run| > n
  {
    var w := LongWalk(g, n + 3);
    assert w[1] in PeersOf(g, w[0]);
    run := WalkRun(g, AllStored(g, announcer), w, n + 1, announcer);
  }

  // ----- the exact condition -----

  ghost predicate Within(g: Network, s: State, n: nat) {
    forall run :: Run(g, s, run) ==> |run| <= n
  }

  ghost predicate Ends(g: Network, s: State) {
    exists n: nat :: Within(g, s, n)
  }

  /** Whoever can provide, whatever is stored and however deliveries interleave, the flood ends. */
  ghost predicate AlwaysEnds(g: Network) {
    forall providers: set<Node>, s: State ::
      Initial(g.(providers := providers), s) ==> Ends(g.(providers := providers), s)
  }

  lemma SameCycles(g: Network, providers: set<Node>)
    ensures CycleReached(g.(providers := providers)) <==> CycleReached(g)
  {
    var f := g.(providers := providers);
    forall path, c
      ensures Reaches(f, path, c) <==> Reaches(g, path, c)
    {
      assert forall v :: PeersOf(f, v) == PeersOf(g, v);
    }
  }

  lemma EndsWithoutCycle(g: Network, s: State)
    requires g.WellFormed() && Simple(g) && !CycleReached(g) && Initial(g, s)
    ensures Ends(g, s)
  {
    var n := 4 * Load(g, s.now.queries) + Backlog(g, s.now);
    forall run | Run(g, s, run)
      ensures |run| <= n
    {
      FloodBounded(g, s, run);
    }
    assert Within(g, s, n);
  }

  lemma NeedNotEndOnCycle(g: Network, announcer: Node)
    requires g.WellFormed() && Simple(g) && CycleReached(g) && announcer !in g.peers && g.providers == {announcer}
    ensures Initial(g, AllStored(g, announcer)) && !Ends(g, AllStored(g, announcer))
  {
    var s := AllStored(g, announcer);
    var _ := FloodUnbounded(g, announcer, 0);
    forall n: nat
      ensures !Within(g, s, n)
    {
      var run := FloodUnbounded(g, announcer, n);
    }
  }

  /** The flood from these origins always ends exactly if no cycle of peers is connected to one of them. */
  lemma FloodEndsIff(g: Network)
    requires g.WellFormed() && Simple(g)
    ensures AlwaysEnds(g) <==> !CycleReached(g)
  {
    if CycleReached(g) {
      var announcer := Outsider(g.peers.Keys);
      var f := g.(providers := {announcer});
      SameCycles(g, {announcer});
      NeedNotEndOnCycle(f, announcer);
    } else {
      forall providers: set<Node>, s: State | Initial(g.(providers := providers), s)
        ensures Ends(g.(providers := providers), s)
      {
        SameCycles(g, providers);
        EndsWithoutCycle(g.(providers := providers), s);
      }
    }
  }
}
