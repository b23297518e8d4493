/** A network that is neither a clique nor a star, and a run that leaves one of two origins without an
    answer: the second one's query finds an entry that belongs to a branch of the first one's flood, and
    the answer does not come back along that branch (Answered.AnswersOthersIff). */
module Starvation {
  import opened Answered
  import opened Base
  import opened Cycles
  import opened Deliveries
  import opened Flood
  import opened FloodBounds
  import C = Chains
  import R = HashRouter

  /** 0 - 1 - 2 and 1 - 3 - 4: 0 and 4 ask, 2 provides. */
  const FORK := Network(map[0 := {1}, 1 := {0, 2, 3}, 2 := {1}, 3 := {1, 4}, 4 := {3}], {0, 4}, {2})

  const START := State(Traffic(map[], map[], multiset{Hop(0, 1), Hop(4, 3)}, multiset{}),
                       History([], map[], {}, {}, {}, {}))

  const T1 := Traffic(map[1 := {0}], map[], multiset{Hop(4, 3), Hop(1, 2), Hop(1, 3)}, multiset{})
  const T2 := Traffic(map[1 := {0}, 2 := {1}], map[], multiset{Hop(4, 3), Hop(1, 3)}, multiset{Reply(1, 2)})
  const T3 := Traffic(map[1 := {0}, 2 := {1}, 3 := {1}], map[], multiset{Hop(4, 3), Hop(3, 4)}, multiset{Reply(1, 2)})
  const T4 := Traffic(map[1 := {0}, 2 := {1}, 3 := {1, 4}], map[], multiset{Hop(3, 4)}, multiset{Reply(1, 2)})
  const T5 := Traffic(map[1 := {0}, 2 := {1}, 3 := {1, 4}, 4 := {3}], map[], multiset{}, multiset{Reply(1, 2)})
  const T6 := Traffic(map[2 := {1}, 3 := {1, 4}, 4 := {3}], map[1 := {2}], multiset{}, multiset{Reply(0, 2)})
  const T7 := Traffic(map[2 := {1}, 3 := {1, 4}, 4 := {3}], map[1 := {2}, 0 := {2}], multiset{}, multiset{})

  lemma GoCreate(move: (Traffic, Traffic) -> bool, t: Traffic, h: Hop, hops: multiset<Hop>, u: Traffic)
    requires Allows(FORK, move) && h in t.queries && h.target !in t.table
    requires hops == Hops(h.target, PeersOf(FORK, h.target) - {h.source})
    requires u == t.(table := t.table[h.target := {h.source}], queries := t.queries - multiset{h} + hops,
                     answers := t.answers + Answers(FORK, h, None))
    ensures C.Leads(move, t, u, 1)
  {
    assert R.EntryAfterQuery<Node>(None, h.source) == {h.source};
    Go(FORK, move, t, Ask(h, None), u);
  }

  lemma GoJoin(move: (Traffic, Traffic) -> bool, t: Traffic, h: Hop, entry: set<Node>, u: Traffic)
    requires Allows(FORK, move) && h in t.queries && h.target in t.table && h.target !in FORK.providers
    requires entry == t.table[h.target] + {h.source}
    requires u == t.(table := t.table[h.target := entry], queries := t.queries - multiset{h})
    ensures C.Leads(move, t, u, 1)
  {
    assert Hops(h.target, {}) == multiset{};
    assert u.queries == t.queries - multiset{h} + multiset{};
    assert u.answers == t.answers + multiset{};
    Go(FORK, move, t, Ask(h, None), u);
  }

  lemma GoTell(move: (Traffic, Traffic) -> bool, t: Traffic, a: Reply, replies: multiset<Reply>,
               table: map<Node, set<Node>>, u: Traffic)
    requires Allows(FORK, move) && a in t.answers
    requires replies == Replies(SentOn(FORK, t, a), a.announcer)
    requires table == if Dropped(FORK, t, a) then t.table - {a.target} else t.table
    requires u == Traffic(table, t.known[a.target := Known(t, a.target) + {a.announcer}], t.queries,
                          t.answers - multiset{a} + replies)
    ensures C.Leads(move, t, u, 1)
  {
    Go(FORK, move, t, Tell(a), u);
  }

  lemma HopsOf(source: Node, a: Node, b: Node)
    ensures Hops(source, {}) == multiset{}
    ensures Hops(source, {a}) == multiset{Hop(source, a)}
    ensures a != b ==> Hops(source, {a, b}) == multiset{Hop(source, a), Hop(source, b)}
  {
    assert (set w | w in {} :: Hop(source, w)) == {};
    assert (set w | w in {a} :: Hop(source, w)) == {Hop(source, a)};
    assert (set w | w in {a, b} :: Hop(source, w)) == {Hop(source, a), Hop(source, b)};
  }

  lemma FirstFlood(move: (Traffic, Traffic) -> bool)
    requires Allows(FORK, move)
    ensures C.Leads(move, START.now, T1, 1)
  {
    HopsOf(1, 2, 3);
    assert PeersOf(FORK, 1) - {0} == {2, 3};
    GoCreate(move, START.now, Hop(0, 1), multiset{Hop(1, 2), Hop(1, 3)}, T1);
  }

  lemma ProviderAsked(move: (Traffic, Traffic) -> bool)
    requires Allows(FORK, move)
    ensures C.Leads(move, T1, T2, 1)
  {
    HopsOf(2, 0, 0);
    assert PeersOf(FORK, 2) - {1} == {};
    assert Answers(FORK, Hop(1, 2), None) == multiset{Reply(1, 2)};
    GoCreate(move, T1, Hop(1, 2), multiset{}, T2);
  }

  lemma BranchAsked(move: (Traffic, Traffic) -> bool)
    requires Allows(FORK, move)
    ensures C.Leads(move, T2, T3, 1)
  {
    HopsOf(3, 4, 4);
    assert PeersOf(FORK, 3) - {1} == {4};
    assert Answers(FORK, Hop(1, 3), None) == multiset{};
    GoCreate(move, T2, Hop(1, 3), multiset{Hop(3, 4)}, T3);
  }

  lemma SecondJoins(move: (Traffic, Traffic) -> bool)
    requires Allows(FORK, move)
    ensures C.Leads(move, T3, T4, 1)
  {
    assert {1} + {4} == {1, 4};
    GoJoin(move, T3, Hop(4, 3), {1, 4}, T4);
  }

  lemma SecondAsked(move: (Traffic, Traffic) -> bool)
    requires Allows(FORK, move)
    ensures C.Leads(move, T4, T5, 1)
  {
    HopsOf(4, 0, 0);
    assert PeersOf(FORK, 4) - {3} == {};
    assert Answers(FORK, Hop(3, 4), None) == multiset{};
    GoCreate(move, T4, Hop(3, 4), multiset{}, T5);
  }

  lemma FirstRelays(move: (Traffic, Traffic) -> bool)
    requires Allows(FORK, move)
    ensures C.Leads(move, T5, T6, 1)
  {
    var a := Reply(1, 2);
    assert R.Served(0, 2, PeersOf(FORK, 1), FORK.peers.Keys) && R.Settles(0, 2, PeersOf(FORK, 1), FORK.peers.Keys);
    assert SentOn(FORK, T5, a) == {0};
    assert Replies({0}, 2) == multiset{Reply(0, 2)} by {
      assert (set w | w in {0} :: Reply(w, 2)) == {Reply(0, 2)};
    }
    assert T5.table - {1} == T6.table;
    assert Known(T5, 1) + {2} == {2};
    GoTell(move, T5, a, multiset{Reply(0, 2)}, T6.table, T6);
  }

  lemma FirstAnswered(move: (Traffic, Traffic) -> bool)
    requires Allows(FORK, move)
    ensures C.Leads(move, T6, T7, 1)
  {
    var a := Reply(0, 2);
    assert SentOn(FORK, T6, a) == {};
    assert Replies({}, 2) == multiset{};
    assert !Dropped(FORK, T6, a) || T6.table - {0} == T6.table;
    assert Known(T6, 0) + {2} == {2};
    GoTell(move, T6, a, multiset{}, T6.table, T7);
  }

  lemma StartLeadsQuiet(move: (Traffic, Traffic) -> bool)
    requires Allows(FORK, move)
    ensures C.Leads(move, START.now, T7, 7)
  {
    FirstFlood(move);
    ProviderAsked(move);
    BranchAsked(move);
    SecondJoins(move);
    SecondAsked(move);
    FirstRelays(move);
    FirstAnswered(move);
    C.Then(move, START.now, T1, 1, T2, 1);
    C.Then(move, START.now, T2, 2, T3, 1);
    C.Then(move, START.now, T3, 3, T4, 1);
    C.Then(move, START.now, T4, 4, T5, 1);
    C.Then(move, START.now, T5, 5, T6, 1);
    C.Then(move, START.now, T6, 6, T7, 1);
  }

  lemma StartIsInitial()
    ensures FORK.WellFormed() && Initial(FORK, START)
  {
  }

  /** Nobody was sent a location who stores none once all locations have arrived. */
  lemma NotTold(g: Network, s: State, run: seq<Step>, v: Node)
    requires g.WellFormed() && Initial(g, s) && Run(g, s, run)
    requires After(g, s, run).now.answers == multiset{} && Known(After(g, s, run).now, v) == {}
    ensures !Told(After(g, s, run), v)
  {
    if Told(After(g, s, run), v) {
      ToldHolds(g, s, run, v);
    }
  }

  lemma SomeRun(g: Network, s: State, n: nat, t: Traffic) returns (run: seq<Step>)
    requires C.Leads(Moves(g), s.now, t, n)
    ensures Run(g, s, run) && After(g, s, run).now == t
  {
    LeadsIsReached(g, s, t, n);
    run :| Run(g, s, run) && |run| == n && After(g, s, run).now == t;
  }

  lemma RunToEnd() returns (run: seq<Step>)
    ensures Run(FORK, START, run) && After(FORK, START, run).now == T7
  {
    assert Allows(FORK, Moves(FORK));
    StartLeadsQuiet(Moves(FORK));
    run := SomeRun(FORK, START, 7, T7);
  }

  /** Some run ends quiet, with the second origin connected to the provider and no location sent to it. */
  lemma SecondOriginStarves() returns (run: seq<Step>)
    ensures FORK.WellFormed() && Initial(FORK, START) && Run(FORK, START, run)
    ensures Quiet(After(FORK, START, run)) && !Told(After(FORK, START, run), 4)
    ensures 4 in FORK.origins && Path(FORK, [4, 3, 1, 2]) && 2 in FORK.providers
  {
    StartIsInitial();
    run := RunToEnd();
    NotTold(FORK, START, run, 4);
    OnPath();
  }

  lemma OnPath()
    ensures Path(FORK, [4, 3, 1, 2])
  {
  }

  /** The fork as an instance of the exact condition: it is neither a clique nor a star. */
  lemma ForkIsInstance()
    ensures Simple(FORK) && !CliquesAndStars(FORK) && !AnswersOthers(FORK)
  {
    assert Joins(FORK, [1, 3, 4], 1, 4);
    SubsetSize({0, 2}, PeersOf(FORK, 1));
    AnswersOthersIff(FORK);
  }
}
