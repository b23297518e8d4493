/** The smallest instance of FloodEnds.FloodEndsIff, sharpened: on three mutual peers a query and the
    locations that answer it do not only go on for ever, they come back to the very same traffic. */
module Livelock {
  import opened Base
  import opened Cycles
  import opened Deliveries
  import opened Flood
  import opened FloodEnds
  import R = HashRouter
  import C = Chains

  /** Three mutual peers 0, 1, 2; node 3 is a provider of the hash that has since lost its peers. */
  const TRIANGLE := Network(map[0 := {1, 2}, 1 := {0, 2}, 2 := {0, 1}, 3 := {}], {0}, {3})

  /** The three have stored the provider's location. */
  const STORED: map<Node, set<Node>> := map[0 := {3}, 1 := {3}, 2 := {3}]

  const START := State(Traffic(map[], STORED, multiset{Hop(0, 1), Hop(0, 2)}, multiset{}),
                       History([], map[], {}, {}, {}, {}))

  predicate Corners(x: Node, y: Node, z: Node) {
    (x, y, z) in {(0, 1, 2), (1, 2, 0), (2, 0, 1)}
  }

  /** One query on its way from x to y; only x has an entry, for the node z it heard it from. */
  function Around(x: Node, y: Node, z: Node): Traffic {
    Traffic(map[x := {z}], STORED, multiset{Hop(x, y)}, multiset{})
  }

  /** A query for a corner y without an entry, from its peer x, goes on to the third corner z. */
  lemma AskFirst(t: Traffic, x: Node, y: Node, z: Node)
    requires Corners(x, y, z) || Corners(z, y, x)
    requires y !in t.table && Hop(x, y) in t.queries
    ensures AfterQuery(TRIANGLE, t, Hop(x, y), Some(3))
         == t.(table := t.table[y := {x}], queries := t.queries - multiset{Hop(x, y)} + multiset{Hop(y, z)},
               answers := t.answers + multiset{Reply(x, 3)})
  {
    assert PeersOf(TRIANGLE, y) == {x, z} && x != z;
    assert R.FloodTargets(None, {x, z}, x) == {z};
    assert Hops(y, {z}) == multiset{Hop(y, z)};
    assert R.EntryAfterQuery(None, x) == {x};
  }

  /** A query for a corner with an entry is answered, recorded, and goes no further. */
  lemma AskAgain(t: Traffic, x: Node, y: Node)
    requires y in {0, 1, 2} && y in t.table && Hop(x, y) in t.queries
    ensures AfterQuery(TRIANGLE, t, Hop(x, y), Some(3))
         == t.(table := t.table[y := t.table[y] + {x}], queries := t.queries - multiset{Hop(x, y)},
               answers := t.answers + multiset{Reply(x, 3)})
  {
    assert Hops(y, {}) == multiset{};
  }

  lemma AlreadyStored(t: Traffic, v: Node)
    requires t.known == STORED && v in {0, 1, 2}
    ensures t.known[v := Known(t, v) + {3}] == t.known
  {
    assert STORED[v] == {3};
    assert Known(t, v) + {3} == STORED[v];
  }

  /** A location for a corner without an entry is only stored. */
  lemma Absorb(t: Traffic, v: Node)
    requires t.known == STORED && v in {0, 1, 2} && v !in t.table && Reply(v, 3) in t.answers
    ensures AfterAnswer(TRIANGLE, t, Reply(v, 3)) == t.(answers := t.answers - multiset{Reply(v, 3)})
  {
    assert SentOn(TRIANGLE, t, Reply(v, 3)) == {};
    assert Replies({}, 3) == multiset{};
    AlreadyStored(t, v);
  }

  /** A location for a corner with an entry goes to all its requesters and removes the entry. */
  lemma PassOn(t: Traffic, v: Node, targets: set<Node>)
    requires t.known == STORED && v in {0, 1, 2} && v in t.table && Reply(v, 3) in t.answers
    requires t.table[v] == targets != {} && targets <= {0, 1, 2} - {v}
    ensures AfterAnswer(TRIANGLE, t, Reply(v, 3))
         == t.(table := t.table - {v}, answers := t.answers - multiset{Reply(v, 3)} + Replies(targets, 3))
  {
    var a, peers := Reply(v, 3), PeersOf(TRIANGLE, v);
    assert peers == {0, 1, 2} - {v};
    assert forall x :: x in targets ==>
             R.Served(x, 3, peers, TRIANGLE.peers.Keys) && R.Settles(x, 3, peers, TRIANGLE.peers.Keys);
    assert SentOn(TRIANGLE, t, a) == targets;
    assert Dropped(TRIANGLE, t, a);
    AlreadyStored(t, v);
  }

  lemma OneReply(v: Node)
    ensures Replies({v}, 3) == multiset{Reply(v, 3)}
  {
  }

  lemma StoredAt(v: Node)
    requires v in {0, 1, 2}
    ensures v in STORED && STORED[v] == {3}
  {
  }

  /** A corner y without an entry is asked by its peer x. */
  lemma GoAskFirst(move: (Traffic, Traffic) -> bool, t: Traffic, x: Node, y: Node, z: Node, u: Traffic)
    requires Allows(TRIANGLE, move)
    requires Corners(x, y, z) || Corners(z, y, x)
    requires t.known == STORED && y !in t.table && Hop(x, y) in t.queries
    requires u == t.(table := t.table[y := {x}], queries := t.queries - multiset{Hop(x, y)} + multiset{Hop(y, z)},
                     answers := t.answers + multiset{Reply(x, 3)})
    ensures C.Leads(move, t, u, 1)
  {
    StoredAt(y);
    AskFirst(t, x, y, z);
    Go(TRIANGLE, move, t, Ask(Hop(x, y), Some(3)), u);
  }

  lemma GoAskAgain(move: (Traffic, Traffic) -> bool, t: Traffic, x: Node, y: Node, u: Traffic)
    requires Allows(TRIANGLE, move)
    requires t.known == STORED && y in {0, 1, 2} && y in t.table && Hop(x, y) in t.queries
    requires u == t.(table := t.table[y := t.table[y] + {x}], queries := t.queries - multiset{Hop(x, y)},
                     answers := t.answers + multiset{Reply(x, 3)})
    ensures C.Leads(move, t, u, 1)
  {
    StoredAt(y);
    AskAgain(t, x, y);
    Go(TRIANGLE, move, t, Ask(Hop(x, y), Some(3)), u);
  }

  lemma GoAbsorb(move: (Traffic, Traffic) -> bool, t: Traffic, v: Node, u: Traffic)
    requires Allows(TRIANGLE, move)
    requires t.known == STORED && v in {0, 1, 2} && v !in t.table && Reply(v, 3) in t.answers
    requires u == t.(answers := t.answers - multiset{Reply(v, 3)})
    ensures C.Leads(move, t, u, 1)
  {
    Absorb(t, v);
    Go(TRIANGLE, move, t, Tell(Reply(v, 3)), u);
  }

  lemma GoPassOn(move: (Traffic, Traffic) -> bool, t: Traffic, v: Node, targets: set<Node>,
                 replies: multiset<Reply>, u: Traffic)
    requires Allows(TRIANGLE, move)
    requires t.known == STORED && v in {0, 1, 2} && v in t.table && Reply(v, 3) in t.answers
    requires t.table[v] == targets != {} && targets <= {0, 1, 2} - {v} && replies == Replies(targets, 3)
    requires u == t.(table := t.table - {v}, answers := t.answers - multiset{Reply(v, 3)} + replies)
    ensures C.Leads(move, t, u, 1)
  {
    PassOn(t, v, targets);
    Go(TRIANGLE, move, t, Tell(Reply(v, 3)), u);
  }

  /** The query moves on one corner, and the location it causes removes the entry behind it. */
  lemma Turn(move: (Traffic, Traffic) -> bool, x: Node, y: Node, z: Node)
    requires Allows(TRIANGLE, move) && Corners(x, y, z)
    ensures C.Leads(move, Around(x, y, z), Around(y, z, x), 3)
  {
    var t, w := Around(x, y, z), Around(y, z, x);
    var a := Traffic(map[x := {z}, y := {x}], STORED, multiset{Hop(y, z)}, multiset{Reply(x, 3)});
    var b := Traffic(map[y := {x}], STORED, multiset{Hop(y, z)}, multiset{Reply(z, 3)});
    GoAskFirst(move, t, x, y, z, a);
    OneReply(z);
    assert a.table - {x} == b.table;
    GoPassOn(move, a, x, {z}, multiset{Reply(z, 3)}, b);
    GoAbsorb(move, b, z, w);
    C.Then(move, t, a, 1, b, 1);
    C.Then(move, t, b, 2, w, 1);
  }

  /** Three turns, nine deliveries, and everything is exactly as it was. */
  lemma RoundTheTriangle(move: (Traffic, Traffic) -> bool)
    requires Allows(TRIANGLE, move)
    ensures C.Leads(move, Around(1, 2, 0), Around(1, 2, 0), 9)
  {
    Turn(move, 1, 2, 0);
    Turn(move, 2, 0, 1);
    Turn(move, 0, 1, 2);
    C.Then(move, Around(1, 2, 0), Around(2, 0, 1), 3, Around(0, 1, 2), 3);
    C.Then(move, Around(1, 2, 0), Around(0, 1, 2), 6, Around(1, 2, 0), 3);
  }

  function Tr(table: map<Node, set<Node>>, queries: multiset<Hop>, answers: multiset<Reply>): Traffic {
    Traffic(table, STORED, queries, answers)
  }

  const BOTH := Tr(map[1 := {0}, 2 := {1}], multiset{Hop(0, 2), Hop(2, 0)}, multiset{Reply(0, 3), Reply(1, 3)})
  const MET := Tr(map[2 := {0, 1}], multiset{Hop(2, 0)}, multiset{Reply(0, 3), Reply(0, 3), Reply(0, 3)})
  const BACK := Tr(map[2 := {0, 1}], multiset{Hop(2, 0)}, multiset{})
  const ASKED := Tr(map[0 := {2}], multiset{Hop(0, 1)}, multiset{Reply(0, 3), Reply(1, 3)})

  /** The first of the origin's queries goes all the way round, overtaking the second. */
  lemma OneQueryOvertakes(move: (Traffic, Traffic) -> bool)
    requires Allows(TRIANGLE, move)
    ensures C.Leads(move, START.now, BOTH, 2)
  {
    var t1 := Tr(map[1 := {0}], multiset{Hop(0, 2), Hop(1, 2)}, multiset{Reply(0, 3)});
    GoAskFirst(move, START.now, 0, 1, 2, t1);
    GoAskFirst(move, t1, 1, 2, 0, BOTH);
    C.Then(move, START.now, t1, 1, BOTH, 1);
  }

  /** The second is recorded and goes no further. */
  lemma TheQueriesMeet(move: (Traffic, Traffic) -> bool)
    requires Allows(TRIANGLE, move)
    ensures C.Leads(move, BOTH, MET, 2)
  {
    var t := Tr(map[1 := {0}, 2 := {0, 1}], multiset{Hop(2, 0)}, multiset{Reply(0, 3), Reply(0, 3), Reply(1, 3)});
    assert {1} + {0} == {0, 1};
    assert BOTH.table[2 := BOTH.table[2] + {0}] == t.table;
    assert BOTH.queries - multiset{Hop(0, 2)} == t.queries;
    GoAskAgain(move, BOTH, 0, 2, t);
    OneReply(0);
    assert t.table - {1} == MET.table;
    GoPassOn(move, t, 1, {0}, multiset{Reply(0, 3)}, MET);
    C.Then(move, BOTH, t, 1, MET, 1);
  }

  /** The origin stores what it was told. */
  lemma TheOriginIsTold(move: (Traffic, Traffic) -> bool)
    requires Allows(TRIANGLE, move)
    ensures C.Leads(move, MET, BACK, 3)
  {
    var t1 := Tr(MET.table, MET.queries, multiset{Reply(0, 3), Reply(0, 3)});
    var t2 := Tr(MET.table, MET.queries, multiset{Reply(0, 3)});
    GoAbsorb(move, MET, 0, t1);
    GoAbsorb(move, t1, 0, t2);
    GoAbsorb(move, t2, 0, BACK);
    C.Then(move, MET, t1, 1, t2, 1);
    C.Then(move, MET, t2, 2, BACK, 1);
  }

  /** The origin takes its own query, come back, for a new one. */
  lemma TheOriginIsAsked(move: (Traffic, Traffic) -> bool)
    requires Allows(TRIANGLE, move)
    ensures C.Leads(move, BACK, ASKED, 2)
  {
    var t := Tr(map[2 := {0, 1}, 0 := {2}], multiset{Hop(0, 1)}, multiset{Reply(2, 3)});
    GoAskFirst(move, BACK, 2, 0, 1, t);
    TwoReplies();
    assert t.table - {2} == ASKED.table;
    GoPassOn(move, t, 2, {0, 1}, multiset{Reply(0, 3), Reply(1, 3)}, ASKED);
    C.Then(move, BACK, t, 1, ASKED, 1);
  }

  lemma TwoReplies()
    ensures Replies({0, 1}, 3) == multiset{Reply(0, 3), Reply(1, 3)}
  {
    assert (set w | w in {0, 1} :: Reply(w, 3)) == {Reply(0, 3), Reply(1, 3)};
  }

  /** With the other entries gone, one query is left going round. */
  lemma OneQueryIsLeft(move: (Traffic, Traffic) -> bool)
    requires Allows(TRIANGLE, move)
    ensures C.Leads(move, ASKED, Around(1, 2, 0), 5)
  {
    var t0 := ASKED;
    var t1 := Tr(map[0 := {2}], multiset{Hop(0, 1)}, multiset{Reply(0, 3)});
    var t2 := Tr(map[], multiset{Hop(0, 1)}, multiset{Reply(2, 3)});
    var t3 := Tr(map[], multiset{Hop(0, 1)}, multiset{});
    var t4 := Tr(map[1 := {0}], multiset{Hop(1, 2)}, multiset{Reply(0, 3)});
    GoAbsorb(move, t0, 1, t1);
    OneReply(2);
    assert t1.table - {0} == t2.table;
    GoPassOn(move, t1, 0, {2}, multiset{Reply(2, 3)}, t2);
    GoAbsorb(move, t2, 2, t3);
    GoAskFirst(move, t3, 0, 1, 2, t4);
    GoAbsorb(move, t4, 0, Around(1, 2, 0));
    C.Then(move, t0, t1, 1, t2, 1);
    C.Then(move, t0, t2, 2, t3, 1);
    C.Then(move, t0, t3, 3, t4, 1);
    C.Then(move, t0, t4, 4, Around(1, 2, 0), 1);
  }

  lemma StartLeadsBack(move: (Traffic, Traffic) -> bool)
    requires Allows(TRIANGLE, move)
    ensures C.Leads(move, START.now, BACK, 7)
  {
    OneQueryOvertakes(move);
    TheQueriesMeet(move);
    TheOriginIsTold(move);
    C.Then(move, START.now, BOTH, 2, MET, 2);
    C.Then(move, START.now, MET, 4, BACK, 3);
  }

  lemma BackLeadsAround(move: (Traffic, Traffic) -> bool)
    requires Allows(TRIANGLE, move)
    ensures C.Leads(move, BACK, Around(1, 2, 0), 7)
  {
    TheOriginIsAsked(move);
    OneQueryIsLeft(move);
    C.Then(move, BACK, ASKED, 2, Around(1, 2, 0), 5);
  }

  lemma AnyRounds(move: (Traffic, Traffic) -> bool, t: Traffic, u: Traffic, rounds: nat)
    requires C.Leads(move, t, u, 14) && C.Leads(move, u, u, 9)
    ensures C.Leads(move, t, u, 14 + 9 * rounds)
  {
    C.Repeat(move, u, 9, rounds);
    C.Then(move, t, u, 14, u, 9 * rounds);
  }

  lemma StartLeadsAround(move: (Traffic, Traffic) -> bool, rounds: nat)
    requires Allows(TRIANGLE, move)
    ensures C.Leads(move, START.now, Around(1, 2, 0), 14 + 9 * rounds)
  {
    StartLeadsBack(move);
    BackLeadsAround(move);
    C.Then(move, START.now, BACK, 7, Around(1, 2, 0), 7);
    RoundTheTriangle(move);
    AnyRounds(move, START.now, Around(1, 2, 0), rounds);
  }

  lemma StartIsInitial()
    ensures TRIANGLE.WellFormed() && Initial(TRIANGLE, START)
  {
  }

  /** The flood need not end: from one origin's query, with all channels reliable and every message
      delivered in time, runs of unbounded length come back to the very same traffic every nine steps. */
  lemma FloodNeedNotEnd(rounds: nat)
    ensures TRIANGLE.WellFormed() && Initial(TRIANGLE, START)
    ensures Reached(TRIANGLE, START, 14 + 9 * rounds, Around(1, 2, 0))
  {
    StartIsInitial();
    assert Allows(TRIANGLE, Moves(TRIANGLE));
    StartLeadsAround(Moves(TRIANGLE), rounds);
    LeadsIsReached(TRIANGLE, START, Around(1, 2, 0), 14 + 9 * rounds);
  }

  /** The triangle as an instance of the exact condition: its cycle is connected to the origin. */
  lemma TriangleNeedNotEnd()
    ensures Simple(TRIANGLE) && CycleReached(TRIANGLE) && !AlwaysEnds(TRIANGLE)
  {
    assert Cycle(TRIANGLE, [0, 1, 2]);
    assert Reaches(TRIANGLE, [0], [0, 1, 2]);
    FloodEndsIff(TRIANGLE);
  }
}
