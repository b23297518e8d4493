/** How long the flood can go on: bounds over every run of Flood. */
module FloodBounds {
  import opened Base
  import opened Flood
  import R = HashRouter
  import Sums

  function Unasked(g: Network, t: Traffic): Node -> nat {
    v => if v in t.table then 0 else g.Degree(v)
  }

  function EntrySize(t: Traffic): Node -> nat {
    v => if v in t.table then |t.table[v]| else 0
  }

  /** Queries in flight, and those that nodes without an entry may still cause. */
  ghost function Pending(g: Network, t: Traffic): nat {
    |t.queries| + Sums.Sum(g.peers.Keys, Unasked(g, t))
  }

  /** Locations in flight, and those that recorded requesters may still cause. */
  ghost function Backlog(g: Network, t: Traffic): nat {
    |t.answers| + Sums.Sum(g.peers.Keys, EntrySize(t))
  }

  lemma Pick<T>(s: set<T>) returns (x: T)
    requires s != {}
    ensures x in s
  {
    x :| x in s;
  }

  lemma {:induction false} HopsSize(v: Node, targets: set<Node>)
    ensures |Hops(v, targets)| == |targets|
  {
    if targets != {} {
      var w := Pick(targets);
      HopsSize(v, targets - {w});
      assert (set u | u in targets :: Hop(v, u)) == (set u | u in targets - {w} :: Hop(v, u)) + {Hop(v, w)};
    }
  }

  lemma {:induction false} RepliesSize(targets: set<Node>, announcer: Node)
    ensures |Replies(targets, announcer)| == |targets|
  {
    if targets != {} {
      var w := Pick(targets);
      RepliesSize(targets - {w}, announcer);
      assert (set u | u in targets :: Reply(u, announcer))
          == (set u | u in targets - {w} :: Reply(u, announcer)) + {Reply(w, announcer)};
    }
  }

  lemma SubsetSize<T>(a: set<T>, b: set<T>)
    requires a <= b
    ensures |a| <= |b|
  {
    assert b == a + (b - a);
  }

  /** Delivering a query uses up at least one pending query. */
  lemma QueryStep(g: Network, s: State, h: Hop, stored: Option<Node>)
    requires g.WellFormed() && Local(g, s) && Enabled(s, Ask(h, stored))
    ensures Pending(g, AfterQuery(g, s.now, h, stored)) < Pending(g, s.now)
  {
    var t, n, v := s.now, AfterQuery(g, s.now, h, stored), h.target;
    assert v in PeersOf(g, h.source);
    QueriesSize(g, t, h, stored);
    UnaskedSum(g, t, h, stored);
  }

  lemma UnaskedSum(g: Network, t: Traffic, h: Hop, stored: Option<Node>)
    requires h.target in g.peers
    ensures Sums.Sum(g.peers.Keys, Unasked(g, t))
         == Sums.Sum(g.peers.Keys, Unasked(g, AfterQuery(g, t, h, stored)))
            + if h.target in t.table then 0 else g.Degree(h.target)
  {
    Sums.SumChange(g.peers.Keys, Unasked(g, t), Unasked(g, AfterQuery(g, t, h, stored)), h.target);
  }

  lemma QueriesSize(g: Network, t: Traffic, h: Hop, stored: Option<Node>)
    requires h in t.queries
    ensures |AfterQuery(g, t, h, stored).queries|
         <= |t.queries| - 1 + if h.target in t.table then 0 else g.Degree(h.target)
  {
    var v := h.target;
    var flood := R.FloodTargets(R.EntryOf(t.table, v), PeersOf(g, v), h.source);
    HopsSize(v, flood);
    SubsetSize(flood, PeersOf(g, v));
  }

  /** Delivering a location can bring back at most the degree of the node whose entry it removes. */
  lemma AnswerStepPending(g: Network, s: State, a: Reply)
    requires Local(g, s) && Enabled(s, Tell(a))
    ensures Pending(g, AfterAnswer(g, s.now, a)) <= Pending(g, s.now) + g.Degree(a.target)
  {
    Sums.SumChange(g.peers.Keys, Unasked(g, s.now), Unasked(g, AfterAnswer(g, s.now, a)), a.target);
  }

  /** Delivering a location uses up at least one of the backlog: who is served leaves the entry. */
  lemma AnswerStep(g: Network, s: State, a: Reply)
    requires Local(g, s) && Enabled(s, Tell(a))
    ensures Backlog(g, AfterAnswer(g, s.now, a)) < Backlog(g, s.now)
  {
    var t, n, v := s.now, AfterAnswer(g, s.now, a), a.target;
    var sent := SentOn(g, t, a);
    RepliesSize(sent, a.announcer);
    assert |n.answers| == |t.answers| - 1 + |sent|;
    Sums.SumChange(g.peers.Keys, EntrySize(t), EntrySize(n), v);
    SubsetSize(sent, R.Requesters(R.EntryOf(t.table, v)));
    if !Dropped(g, t, a) {
      assert forall x :: x in R.Requesters(R.EntryOf(t.table, v)) ==>
               !R.Settles(x, a.announcer, PeersOf(g, v), g.peers.Keys);
      assert sent == {};
    }
  }

  /** Delivering a query adds at most two locations and one requester. */
  lemma QueryStepBacklog(g: Network, s: State, h: Hop, stored: Option<Node>)
    requires g.WellFormed() && Local(g, s) && Enabled(s, Ask(h, stored))
    ensures Backlog(g, AfterQuery(g, s.now, h, stored)) <= Backlog(g, s.now) + 3
  {
    var t, n, v := s.now, AfterQuery(g, s.now, h, stored), h.target;
    assert v in PeersOf(g, h.source);
    Sums.SumChange(g.peers.Keys, EntrySize(t), EntrySize(n), v);
    assert |Answers(g, h, stored)| <= 2;
    var was := R.Requesters(R.EntryOf(t.table, v));
    assert |was + {h.source}| <= |was| + 1;
  }

  function Asks(run: seq<Step>): nat {
    if run == [] then 0 else Asks(run[..|run| - 1]) + if run[|run| - 1].Ask? then 1 else 0
  }

  function Tells(run: seq<Step>): nat {
    if run == [] then 0 else Tells(run[..|run| - 1]) + if run[|run| - 1].Tell? then 1 else 0
  }

  /** The degrees of the nodes locations are delivered to, added up. */
  function Reopened(g: Network, run: seq<Step>): nat {
    if run == [] then 0
    else Reopened(g, run[..|run| - 1]) + if run[|run| - 1].Tell? then g.Degree(run[|run| - 1].reply.target) else 0
  }

  lemma {:induction false} StepCount(run: seq<Step>)
    ensures Asks(run) + Tells(run) == |run|
  {
    if run != [] {
      StepCount(run[..|run| - 1]);
    }
  }

  lemma LocalAlong(g: Network, s: State, run: seq<Step>)
    requires g.WellFormed() && Inv(g, s) && Run(g, s, run)
    ensures Local(g, After(g, s, run))
  {
    RunInv(g, s, run);
  }

  /** In any run the queries delivered are bounded by those pending at the start plus what the
      delivered locations reopened. */
  lemma {:induction false} QueriesBounded(g: Network, s: State, run: seq<Step>)
    requires g.WellFormed() && Inv(g, s) && Run(g, s, run)
    ensures Asks(run) + Pending(g, After(g, s, run).now) <= Pending(g, s.now) + Reopened(g, run)
  {
    if run != [] {
      var front, last := run[..|run| - 1], run[|run| - 1];
      QueriesBounded(g, s, front);
      LocalAlong(g, s, front);
      match last
      case Ask(h, stored) => QueryStep(g, After(g, s, front), h, stored);
      case Tell(a) => AnswerStepPending(g, After(g, s, front), a);
    }
  }

  /** In any run the locations delivered are bounded by the backlog at the start plus three per query delivered. */
  lemma {:induction false} AnswersBounded(g: Network, s: State, run: seq<Step>)
    requires g.WellFormed() && Inv(g, s) && Run(g, s, run)
    ensures Tells(run) + Backlog(g, After(g, s, run).now) <= Backlog(g, s.now) + 3 * Asks(run)
  {
    if run != [] {
      var front, last := run[..|run| - 1], run[|run| - 1];
      AnswersBounded(g, s, front);
      LocalAlong(g, s, front);
      match last
      case Ask(h, stored) => QueryStepBacklog(g, After(g, s, front), h, stored);
      case Tell(a) => AnswerStep(g, After(g, s, front), a);
    }
  }

  lemma {:induction false} NoTells(g: Network, run: seq<Step>)
    requires Tells(run) == 0
    ensures Reopened(g, run) == 0
  {
    if run != [] {
      NoTells(g, run[..|run| - 1]);
    }
  }

  /** Between two deliveries of locations the flood ends: a run of queries alone is no longer than what is pending. */
  lemma FloodTerminates(g: Network, s: State, run: seq<Step>)
    requires g.WellFormed() && Inv(g, s) && Run(g, s, run) && Tells(run) == 0
    ensures |run| <= Pending(g, s.now)
  {
    QueriesBounded(g, s, run);
    StepCount(run);
    NoTells(g, run);
  }

  /** With no query delivered, relaying ends: a run of locations alone is no longer than the backlog. */
  lemma RelayTerminates(g: Network, s: State, run: seq<Step>)
    requires g.WellFormed() && Inv(g, s) && Run(g, s, run) && Asks(run) == 0
    ensures |run| <= Backlog(g, s.now)
  {
    AnswersBounded(g, s, run);
    StepCount(run);
  }

  /** Where nobody can provide, no location ever exists, so every run ends. */
  lemma {:induction false} NobodyTells(g: Network, s: State, run: seq<Step>)
    requires g.WellFormed() && Inv(g, s) && Run(g, s, run) && g.providers == {}
    ensures Tells(run) == 0
  {
    if run != [] {
      NobodyTells(g, s, run[..|run| - 1]);
      LocalAlong(g, s, run[..|run| - 1]);
    }
  }

  lemma UnansweredFloodTerminates(g: Network, s: State, run: seq<Step>)
    requires g.WellFormed() && Initial(g, s) && Run(g, s, run) && g.providers == {}
    ensures |run| <= Pending(g, s.now)
  {
    InitialInv(g, s);
    NobodyTells(g, s, run);
    FloodTerminates(g, s, run);
  }
}
