/** The hash-query flood as a distributed step system: a fixed symmetric peer graph, reliable
    channels, one hash, and one handler call per step. Every step applies the routing decisions
    of HashRouter at the receiving node. */
module Flood {
  import opened Base
  import R = HashRouter

  /** Nodes by number: the routing decisions only compare node ids. */
  type Node = int

  /** origins start by sending the query to all their peers; providers can provide the hash, or have
      announced that they could before they left the network. */
  datatype Network = Network(peers: map<Node, set<Node>>, origins: set<Node>, providers: set<Node>) {
    predicate WellFormed() {
      && (forall u, v :: u in peers && v in peers[u] ==> v in peers && u in peers[v])
      && origins <= peers.Keys
    }

    function Degree(v: Node): nat {
      if v in peers then |peers[v]| else 0
    }
  }

  datatype Hop = Hop(source: Node, target: Node)
  datatype Reply = Reply(target: Node, announcer: Node)

  /** Routing entries by node, the announcers each node has a stored location of, and the messages in flight. */
  datatype Traffic = Traffic(
    table: map<Node, set<Node>>, known: map<Node, set<Node>>, queries: multiset<Hop>, answers: multiset<Reply>)

  /** What happened so far: nodes in the order they first handled a query, who each first heard it
      from, the queries handled, the locations sent, those sent since the receiver's last query was
      handled, and the nodes that have handled a location. */
  datatype History = History(
    order: seq<Node>, parent: map<Node, Node>, asked: set<Hop>, told: set<Hop>, settled: set<Hop>, heard: set<Node>)

  datatype State = State(now: Traffic, past: History)

  /** Delivery of a query, with the stored announcement the receiver answers from, if any; or of a location.
      Whether a stored location is used depends on clock and kinds, so any choice is a step. */
  datatype Step = Ask(hop: Hop, stored: Option<Node>) | Tell(reply: Reply)

  function Known(t: Traffic, v: Node): set<Node> {
    if v in t.known then t.known[v] else {}
  }

  /** x is in the entry of v. */
  predicate Requests(t: Traffic, v: Node, x: Node) {
    v in t.table && x in t.table[v]
  }

  function Hops(source: Node, targets: set<Node>): multiset<Hop> {
    multiset(set w | w in targets :: Hop(source, w))
  }

  function Replies(targets: set<Node>, announcer: Node): multiset<Reply> {
    multiset(set w | w in targets :: Reply(w, announcer))
  }

  /** The locations sent straight back for a query: a stored one, and the node's own. */
  function Answers(g: Network, h: Hop, stored: Option<Node>): multiset<Reply> {
    R.Replies(if stored.Some? then Some(Reply(h.source, stored.value)) else None,
              if h.target in g.providers then Some(Reply(h.source, h.target)) else None)
  }

  function PeersOf(g: Network, v: Node): set<Node> {
    if v in g.peers then g.peers[v] else {}
  }

  function AfterQuery(g: Network, t: Traffic, h: Hop, stored: Option<Node>): Traffic {
    var v, entry := h.target, R.EntryOf(t.table, h.target);
    t.(table := t.table[v := R.EntryAfterQuery(entry, h.source)],
       queries := t.queries - multiset{h} + Hops(v, R.FloodTargets(entry, PeersOf(g, v), h.source)),
       answers := t.answers + Answers(g, h, stored))
  }

  function SentOn(g: Network, t: Traffic, a: Reply): set<Node> {
    R.RelaySent(R.EntryOf(t.table, a.target), a.announcer, PeersOf(g, a.target), g.peers.Keys)
  }

  predicate Dropped(g: Network, t: Traffic, a: Reply) {
    R.Drops(R.EntryOf(t.table, a.target), a.announcer, PeersOf(g, a.target), g.peers.Keys)
  }

  function AfterAnswer(g: Network, t: Traffic, a: Reply): Traffic {
    t.(table := if Dropped(g, t, a) then t.table - {a.target} else t.table,
       known := t.known[a.target := Known(t, a.target) + {a.announcer}],
       answers := t.answers - multiset{a} + Replies(SentOn(g, t, a), a.announcer))
  }

  function Record(g: Network, s: State, step: Step): History {
    match step
    case Ask(h, stored) =>
      var sent := if stored.Some? || h.target in g.providers then {Hop(h.target, h.source)} else {};
      var asked, told := s.past.asked + {h}, s.past.told + sent;
      var settled := s.past.settled - {Hop(h.target, h.source)} + sent;
      if h.target in s.past.order then s.past.(asked := asked, told := told, settled := settled)
      else
        s.past.(order := s.past.order + [h.target], parent := s.past.parent[h.target := h.source],
                asked := asked, told := told, settled := settled)
    case Tell(a) =>
      var sent := set w | w in SentOn(g, s.now, a) :: Hop(a.target, w);
      s.past.(told := s.past.told + sent, settled := s.past.settled + sent, heard := s.past.heard + {a.target})
  }

  function Deliver(g: Network, t: Traffic, step: Step): Traffic {
    match step
    case Ask(h, stored) => AfterQuery(g, t, h, stored)
    case Tell(a) => AfterAnswer(g, t, a)
  }

  predicate Can(t: Traffic, step: Step) {
    match step
    case Ask(h, stored) => h in t.queries && (stored.Some? ==> stored.value in Known(t, h.target))
    case Tell(a) => a in t.answers
  }

  function Next(g: Network, s: State, step: Step): State {
    State(Deliver(g, s.now, step), Record(g, s, step))
  }

  predicate Enabled(s: State, step: Step) {
    Can(s.now, step)
  }

  /** Every origin has just sent its query; whatever is stored already was announced by a provider. */
  ghost predicate Initial(g: Network, s: State) {
    && s.past == History([], map[], {}, {}, {}, {})
    && s.now.table == map[] && s.now.answers == multiset{}
    && (forall v, x :: x in Known(s.now, v) ==> x in g.providers)
    && (forall h :: h in s.now.queries <==> h.source in g.origins && h.target in PeersOf(g, h.source))
  }

  function After(g: Network, s: State, run: seq<Step>): State {
    if run == [] then s else Next(g, After(g, s, run[..|run| - 1]), run[|run| - 1])
  }

  predicate Run(g: Network, s: State, run: seq<Step>) {
    run == [] ||
    (Run(g, s, run[..|run| - 1]) && Enabled(After(g, s, run[..|run| - 1]), run[|run| - 1]))
  }

  /** The node sent queries: it is an origin, or handled one. */
  predicate Active(g: Network, s: State, v: Node) {
    v in g.origins || v in s.past.order
  }

  // What every step keeps, in five parts.

  ghost predicate QueriesLocal(g: Network, s: State) {
    forall h :: h in s.now.queries ==> h.target in PeersOf(g, h.source) && Active(g, s, h.source)
  }

  ghost predicate AnswersLocal(g: Network, s: State) {
    forall a :: a in s.now.answers ==> a.target in g.peers && Active(g, s, a.target) && a.announcer in g.providers
  }

  ghost predicate TableLocal(g: Network, s: State) {
    && (forall v :: v in s.now.table ==> v in s.past.order)
    && (forall v, x :: Requests(s.now, v, x) ==> x in PeersOf(g, v) && x in g.peers && Active(g, s, x))
  }

  ghost predicate KnownLocal(g: Network, s: State) {
    && (forall v, x :: x in Known(s.now, v) ==> x in g.providers)
    && (forall v :: v in s.past.heard ==> Active(g, s, v))
  }

  /** Messages and entries only involve peers, and stored or travelling locations come from providers. */
  ghost predicate Local(g: Network, s: State) {
    QueriesLocal(g, s) && AnswersLocal(g, s) && TableLocal(g, s) && KnownLocal(g, s)
  }

  /** x handled the query before the i-th node did. */
  predicate Before(order: seq<Node>, i: nat, x: Node)
    requires i <= |order|
  {
    exists j :: 0 <= j < i && order[j] == x
  }

  predicate FirstHeard(g: Network, order: seq<Node>, parent: map<Node, Node>, i: nat)
    requires i < |order|
  {
    var v := order[i];
    && v in parent && v in g.peers && parent[v] in PeersOf(g, v)
    && (parent[v] in g.origins || Before(order, i, parent[v]))
    && !Before(order, i, v)
  }

  /** First requesters are origins or handled the query strictly earlier. */
  ghost predicate Chained(g: Network, s: State) {
    && (forall v :: v in s.past.parent ==> v in s.past.order)
    && (forall i :: 0 <= i < |s.past.order| ==> FirstHeard(g, s.past.order, s.past.parent, i))
  }

  /** Neighbours of active nodes are active, or have a query coming. */
  ghost predicate Spreading(g: Network, s: State) {
    forall v, w :: Active(g, s, v) && w in PeersOf(g, v) ==> Active(g, s, w) || Hop(v, w) in s.now.queries
  }

  /** No requester is forgotten: since its last query it is in the entry or was sent a location. */
  ghost predicate Remembered(s: State) {
    forall h :: h in s.past.asked ==>
      Requests(s.now, h.target, h.source)
      || Hop(h.target, h.source) in s.past.settled
      || h.source in Known(s.now, h.target)
  }

  ghost predicate Told(s: State, x: Node) {
    exists v :: Hop(v, x) in s.past.told
  }

  ghost predicate Coming(s: State, x: Node) {
    exists a :: a in s.now.answers && a.target == x
  }

  /** Who was told has handled a location or has one coming. */
  ghost predicate ToldArrives(s: State) {
    forall h :: h in s.past.told ==> h.target in s.past.heard || Coming(s, h.target)
  }

  /** Providers told their first requester. */
  ghost predicate ProvidersTell(g: Network, s: State) {
    forall v :: v in s.past.parent && v in g.providers ==> Hop(v, s.past.parent[v]) in s.past.told
  }

  /** Until a node hears a location, its entry keeps its first requester. */
  ghost predicate EntryWaits(g: Network, s: State) {
    forall v :: v in s.past.parent && v !in g.origins && v !in s.past.heard ==>
      Requests(s.now, v, s.past.parent[v])
  }

  /** A node that heard a location passed it to its first requester, unless that one is a provider. */
  ghost predicate HeardPassed(g: Network, s: State) {
    forall v :: v in s.past.parent && v !in g.origins && v in s.past.heard ==>
      Hop(v, s.past.parent[v]) in s.past.told || s.past.parent[v] in g.providers
  }

  ghost predicate Served(g: Network, s: State) {
    ToldArrives(s) && ProvidersTell(g, s) && EntryWaits(g, s) && HeardPassed(g, s)
  }

  ghost predicate Inv(g: Network, s: State) {
    Local(g, s) && Chained(g, s) && Spreading(g, s) && Remembered(s) && Served(g, s)
  }

  lemma InitialInv(g: Network, s: State)
    requires g.WellFormed() && Initial(g, s)
    ensures Inv(g, s)
  {
  }

  lemma HopIn(h: Hop, source: Node, targets: set<Node>)
    ensures h in Hops(source, targets) <==> h.source == source && h.target in targets
  {
  }

  lemma ReplyIn(a: Reply, targets: set<Node>, announcer: Node)
    ensures a in Replies(targets, announcer) <==> a.announcer == announcer && a.target in targets
  {
  }

  lemma ActiveKept(g: Network, s: State, step: Step)
    ensures forall x :: Active(g, s, x) ==> Active(g, Next(g, s, step), x)
    ensures step.Ask? ==> Active(g, Next(g, s, step), step.hop.target)
  {
  }

  lemma LocalKept(g: Network, s: State, step: Step)
    requires g.WellFormed() && Local(g, s) && Enabled(s, step)
    ensures Local(g, Next(g, s, step))
  {
    QueriesLocalKept(g, s, step);
    AnswersLocalKept(g, s, step);
    TableLocalKept(g, s, step);
    KnownLocalKept(g, s, step);
  }

  lemma QueriesLocalKept(g: Network, s: State, step: Step)
    requires QueriesLocal(g, s)
    ensures QueriesLocal(g, Next(g, s, step))
  {
    ActiveKept(g, s, step);
    if step.Ask? {
      var h := step.hop;
      var flood := R.FloodTargets(R.EntryOf(s.now.table, h.target), PeersOf(g, h.target), h.source);
      forall q | q in Next(g, s, step).now.queries
        ensures q in s.now.queries || (q.source == h.target && q.target in PeersOf(g, h.target))
      {
        HopIn(q, h.target, flood);
      }
    }
  }

  lemma NewReply(g: Network, s: State, h: Hop, stored: Option<Node>, a: Reply)
    requires g.WellFormed() && Local(g, s) && Enabled(s, Ask(h, stored)) && a in Answers(g, h, stored)
    ensures a.target in g.peers && Active(g, s, a.target) && a.announcer in g.providers
  {
    assert a.target == h.source;
    assert h.target in PeersOf(g, h.source);
  }

  lemma NewRelay(g: Network, s: State, b: Reply, a: Reply)
    requires Local(g, s) && Enabled(s, Tell(b)) && a in Replies(SentOn(g, s.now, b), b.announcer)
    ensures a.target in g.peers && Active(g, s, a.target) && a.announcer in g.providers
  {
    ReplyIn(a, SentOn(g, s.now, b), b.announcer);
    assert Requests(s.now, b.target, a.target);
  }

  lemma AnswersLocalKept(g: Network, s: State, step: Step)
    requires g.WellFormed() && Local(g, s) && Enabled(s, step)
    ensures AnswersLocal(g, Next(g, s, step))
  {
    ActiveKept(g, s, step);
    forall a | a in Next(g, s, step).now.answers && a !in s.now.answers
      ensures a.target in g.peers && Active(g, s, a.target) && a.announcer in g.providers
    {
      match step
      case Ask(h, stored) => NewReply(g, s, h, stored, a);
      case Tell(b) => NewRelay(g, s, b, a);
    }
  }

  lemma TableLocalAsked(g: Network, s: State, h: Hop, stored: Option<Node>)
    requires g.WellFormed() && Local(g, s) && Enabled(s, Ask(h, stored))
    ensures TableLocal(g, Next(g, s, Ask(h, stored)))
  {
    ActiveKept(g, s, Ask(h, stored));
    var n := Next(g, s, Ask(h, stored));
    assert h.target in n.past.order && h.target in PeersOf(g, h.source) && h.source in PeersOf(g, h.target);
    forall v, x | Requests(n.now, v, x)
      ensures x in PeersOf(g, v) && x in g.peers && Active(g, n, x)
    {
      assert Requests(s.now, v, x) || (v == h.target && x == h.source);
    }
  }

  lemma TableLocalTold(g: Network, s: State, a: Reply)
    requires TableLocal(g, s)
    ensures TableLocal(g, Next(g, s, Tell(a)))
  {
    ActiveKept(g, s, Tell(a));
    var n := Next(g, s, Tell(a));
    assert forall v :: v in n.now.table ==> v in s.now.table && n.now.table[v] == s.now.table[v];
    forall v, x | Requests(n.now, v, x)
      ensures x in PeersOf(g, v) && x in g.peers && Active(g, n, x)
    {
      assert Requests(s.now, v, x);
    }
  }

  lemma TableLocalKept(g: Network, s: State, step: Step)
    requires g.WellFormed() && Local(g, s) && Enabled(s, step)
    ensures TableLocal(g, Next(g, s, step))
  {
    match step
    case Ask(h, stored) => TableLocalAsked(g, s, h, stored);
    case Tell(a) => TableLocalTold(g, s, a);
  }

  lemma KnownLocalKept(g: Network, s: State, step: Step)
    requires Local(g, s) && Enabled(s, step)
    ensures KnownLocal(g, Next(g, s, step))
  {
    ActiveKept(g, s, step);
    var n := Next(g, s, step);
    forall v, x | x in Known(n.now, v)
      ensures x in g.providers
    {
      assert x in Known(s.now, v) || (step.Tell? && x == step.reply.announcer);
    }
  }

  lemma ChainedKept(g: Network, s: State, step: Step)
    requires g.WellFormed() && Local(g, s) && Chained(g, s) && Enabled(s, step)
    ensures Chained(g, Next(g, s, step))
  {
    if step.Ask? && step.hop.target !in s.past.order {
      var h := step.hop;
      var o, p := s.past.order, Next(g, s, step).past;
      assert h.target in PeersOf(g, h.source) && h.source in PeersOf(g, h.target);
      assert h.source in g.origins || Before(o, |o|, h.source) by {
        assert Active(g, s, h.source);
      }
      forall i | 0 <= i < |p.order|
        ensures FirstHeard(g, p.order, p.parent, i)
      {
        if i < |o| {
          FirstHeardKept(g, o, s.past.parent, i, h.target, h.source);
        } else {
          assert forall j :: 0 <= j < |o| ==> p.order[j] == o[j];
        }
      }
    }
  }

  lemma FirstHeardKept(g: Network, order: seq<Node>, parent: map<Node, Node>, i: nat, v: Node, x: Node)
    requires i < |order| && FirstHeard(g, order, parent, i) && v !in order
    ensures FirstHeard(g, order + [v], parent[v := x], i)
  {
    var longer := order + [v];
    assert forall j :: 0 <= j < |order| ==> longer[j] == order[j];
    assert forall y :: Before(longer, i, y) <==> Before(order, i, y);
    assert order[i] != v;
  }

  lemma SpreadingKept(g: Network, s: State, step: Step)
    requires g.WellFormed() && Local(g, s) && Spreading(g, s) && Enabled(s, step)
    ensures Spreading(g, Next(g, s, step))
  {
    if step.Ask? {
      forall v, w | Active(g, Next(g, s, step), v) && w in PeersOf(g, v) && !Active(g, Next(g, s, step), w)
        ensures Hop(v, w) in Next(g, s, step).now.queries
      {
        SpreadsTo(g, s, step.hop, step.stored, v, w);
      }
    }
  }

  lemma SpreadsTo(g: Network, s: State, h: Hop, stored: Option<Node>, v: Node, w: Node)
    requires Local(g, s) && Spreading(g, s) && Enabled(s, Ask(h, stored))
    requires var n := Next(g, s, Ask(h, stored)); Active(g, n, v) && w in PeersOf(g, v) && !Active(g, n, w)
    ensures Hop(v, w) in Next(g, s, Ask(h, stored)).now.queries
  {
    ActiveKept(g, s, Ask(h, stored));
    if Active(g, s, v) {
      assert Hop(v, w) in s.now.queries && w != h.target;
    } else {
      assert v == h.target && v !in s.now.table;
      HopIn(Hop(v, w), v, R.FloodTargets(R.EntryOf(s.now.table, v), PeersOf(g, v), h.source));
    }
  }

  /** The relay reaches every requester but the announcer: all are peers, and sends succeed. */
  lemma RequesterServed(g: Network, s: State, a: Reply, x: Node)
    requires TableLocal(g, s) && Requests(s.now, a.target, x)
    ensures x == a.announcer ==> x in Known(AfterAnswer(g, s.now, a), a.target)
    ensures x != a.announcer ==> x in SentOn(g, s.now, a)
    ensures x != a.announcer ==> Hop(a.target, x) in Next(g, s, Tell(a)).past.told * Next(g, s, Tell(a)).past.settled
  {
    assert x in PeersOf(g, a.target) && x in g.peers;
    if x != a.announcer {
      assert R.Served(x, a.announcer, PeersOf(g, a.target), g.peers.Keys);
      assert x in R.Requesters(R.EntryOf(s.now.table, a.target));
      assert x in SentOn(g, s.now, a);
      assert Hop(a.target, x) in (set w | w in SentOn(g, s.now, a) :: Hop(a.target, w));
    }
  }

  lemma RememberedKept(g: Network, s: State, step: Step)
    requires g.WellFormed() && Local(g, s) && Remembered(s) && Enabled(s, step)
    ensures Remembered(Next(g, s, step))
  {
    var n := Next(g, s, step);
    if step.Tell? {
      var a := step.reply;
      forall h | h in n.past.asked
        ensures Requests(n.now, h.target, h.source)
             || Hop(h.target, h.source) in n.past.settled || h.source in Known(n.now, h.target)
      {
        if h.target == a.target && Requests(s.now, a.target, h.source) {
          RequesterServed(g, s, a, h.source);
        }
      }
    }
  }

  lemma ToldArrivesKept(g: Network, s: State, step: Step)
    requires ToldArrives(s) && Enabled(s, step)
    ensures ToldArrives(Next(g, s, step))
  {
    var n := Next(g, s, step);
    forall k | k in n.past.told
      ensures k.target in n.past.heard || Coming(n, k.target)
    {
      match step
      case Ask(h, stored) => ArrivesAfterQuery(g, s, h, stored, k);
      case Tell(a) => ArrivesAfterAnswer(g, s, a, k);
    }
  }

  lemma ArrivesAfterQuery(g: Network, s: State, h: Hop, stored: Option<Node>, k: Hop)
    requires ToldArrives(s) && Enabled(s, Ask(h, stored)) && k in Next(g, s, Ask(h, stored)).past.told
    ensures var n := Next(g, s, Ask(h, stored)); k.target in n.past.heard || Coming(n, k.target)
  {
    var n := Next(g, s, Ask(h, stored));
    if k in s.past.told {
      if k.target !in s.past.heard {
        var a :| a in s.now.answers && a.target == k.target;
        assert a in n.now.answers;
      }
    } else if stored.Some? {
      assert Reply(h.source, stored.value) in Answers(g, h, stored);
      assert Reply(h.source, stored.value) in n.now.answers;
    } else {
      assert Reply(h.source, h.target) in Answers(g, h, stored);
      assert Reply(h.source, h.target) in n.now.answers;
    }
  }

  lemma ArrivesAfterAnswer(g: Network, s: State, a: Reply, k: Hop)
    requires ToldArrives(s) && Enabled(s, Tell(a)) && k in Next(g, s, Tell(a)).past.told
    ensures var n := Next(g, s, Tell(a)); k.target in n.past.heard || Coming(n, k.target)
  {
    var n := Next(g, s, Tell(a));
    if k in s.past.told {
      if k.target !in s.past.heard {
        var b :| b in s.now.answers && b.target == k.target;
        assert b != a ==> b in n.now.answers;
      }
    } else {
      ReplyIn(Reply(k.target, a.announcer), SentOn(g, s.now, a), a.announcer);
      assert Reply(k.target, a.announcer) in n.now.answers;
    }
  }

  lemma ServedAfterQuery(g: Network, s: State, h: Hop, stored: Option<Node>)
    requires Local(g, s) && Chained(g, s) && Served(g, s) && Enabled(s, Ask(h, stored))
    ensures var n := Next(g, s, Ask(h, stored)); ProvidersTell(g, n) && EntryWaits(g, n) && HeardPassed(g, n)
  {
    var n := Next(g, s, Ask(h, stored));
    assert forall v :: v in n.past.parent ==> v in s.past.parent || v == h.target;
    assert Requests(n.now, h.target, h.source);
    assert forall v, x :: Requests(s.now, v, x) ==> Requests(n.now, v, x);
    assert forall x :: x in s.past.heard ==> x in n.past.heard;
  }

  lemma ServedAfterAnswer(g: Network, s: State, a: Reply)
    requires Local(g, s) && Chained(g, s) && Served(g, s) && Enabled(s, Tell(a))
    ensures var n := Next(g, s, Tell(a)); ProvidersTell(g, n) && EntryWaits(g, n) && HeardPassed(g, n)
  {
    var n := Next(g, s, Tell(a));
    var sent := SentOn(g, s.now, a);
    forall v | v in s.past.parent && v !in g.origins && v in n.past.heard
      ensures Hop(v, n.past.parent[v]) in n.past.told || n.past.parent[v] in g.providers
    {
      if v !in s.past.heard {
        RequesterServed(g, s, a, s.past.parent[v]);
      }
    }
  }

  lemma InvKept(g: Network, s: State, step: Step)
    requires g.WellFormed() && Inv(g, s) && Enabled(s, step)
    ensures Inv(g, Next(g, s, step))
  {
    LocalKept(g, s, step);
    ChainedKept(g, s, step);
    SpreadingKept(g, s, step);
    RememberedKept(g, s, step);
    ToldArrivesKept(g, s, step);
    match step
    case Ask(h, stored) => ServedAfterQuery(g, s, h, stored);
    case Tell(a) => ServedAfterAnswer(g, s, a);
  }

  lemma {:induction false} RunInv(g: Network, s: State, run: seq<Step>)
    requires g.WellFormed() && Inv(g, s) && Run(g, s, run)
    ensures Inv(g, After(g, s, run))
  {
    if run != [] {
      RunInv(g, s, run[..|run| - 1]);
      InvKept(g, After(g, s, run[..|run| - 1]), run[|run| - 1]);
    }
  }

  lemma ReachableInv(g: Network, s: State, run: seq<Step>)
    requires g.WellFormed() && Initial(g, s) && Run(g, s, run)
    ensures Inv(g, After(g, s, run))
  {
    InitialInv(g, s);
    RunInv(g, s, run);
  }

  // Answer delivery.

  /** Nothing left to deliver. */
  predicate Quiet(s: State) {
    s.now.queries == multiset{} && s.now.answers == multiset{}
  }

  /** A walk along first requesters, each hop leading to a node that handled the query strictly
      earlier, and the last one to an origin, the only one on the walk but perhaps its start. */
  predicate ReversePath(g: Network, p: History, path: seq<nat>, last: Node) {
    && path != [] && last in g.origins
    && (forall k :: 0 <= k < |path| ==> path[k] < |p.order| && p.order[path[k]] in p.parent)
    && (forall k :: 0 < k < |path| ==>
          path[k] < path[k - 1] && p.order[path[k]] == p.parent[p.order[path[k - 1]]] && p.order[path[k]] !in g.origins)
    && p.parent[p.order[path[|path| - 1]]] == last
  }

  /** From every node that handled the query, following first requesters reaches an origin. */
  lemma {:induction false} ReversePathExists(g: Network, s: State, i: nat) returns (path: seq<nat>, last: Node)
    requires Chained(g, s) && i < |s.past.order|
    ensures ReversePath(g, s.past, path, last) && path[0] == i
    decreases i
  {
    assert FirstHeard(g, s.past.order, s.past.parent, i);
    var p := s.past.parent[s.past.order[i]];
    if p in g.origins {
      path, last := [i], p;
    } else {
      var j :| 0 <= j < i && s.past.order[j] == p;
      var rest, o := ReversePathExists(g, s, j);
      path, last := [i] + rest, o;
    }
  }

  /** Once no location is travelling, a location known at one end of a reverse path has been told at the other. */
  lemma {:induction false} ServedUpThePath(g: Network, s: State, path: seq<nat>, last: Node)
    requires Inv(g, s) && s.now.answers == multiset{}
    requires ReversePath(g, s.past, path, last)
    requires var v := s.past.order[path[0]]; v in g.providers || (v !in g.origins && Told(s, v))
    ensures Told(s, last) || last in g.providers
    decreases |path|
  {
    var v := s.past.order[path[0]];
    var p := s.past.parent[v];
    assert Hop(v, p) in s.past.told || p in g.providers;
    assert Told(s, p) || p in g.providers;
    if |path| > 1 {
      ServedUpThePath(g, s, path[1..], last);
    }
  }

  /** For any origins and any interleaving: once no location is travelling, the origin that a provider's
      reverse path leads to has been sent a provider's location and stores one, or is a provider itself. */
  lemma ReverseOriginAnswered(g: Network, s: State, run: seq<Step>, path: seq<nat>, last: Node)
    requires g.WellFormed() && Initial(g, s) && Run(g, s, run) && After(g, s, run).now.answers == multiset{}
    requires ReversePath(g, After(g, s, run).past, path, last)
    requires After(g, s, run).past.order[path[0]] in g.providers
    ensures last in g.providers || (Told(After(g, s, run), last) && Holds(g, After(g, s, run), last))
  {
    ReachableInv(g, s, run);
    ServedUpThePath(g, After(g, s, run), path, last);
    if Told(After(g, s, run), last) {
      ToldHolds(g, s, run, last);
    }
  }

  /** The node has stored a provider's location. */
  ghost predicate Holds(g: Network, s: State, v: Node) {
    exists x :: x in Known(s.now, v) && x in g.providers
  }

  ghost predicate HeardHolds(g: Network, s: State) {
    forall v :: v in s.past.heard ==> Holds(g, s, v)
  }

  lemma HoldsKept(g: Network, s: State, step: Step, v: Node)
    requires Local(g, s) && Enabled(s, step)
    requires Holds(g, s, v) || (step.Tell? && step.reply.target == v)
    ensures Holds(g, Next(g, s, step), v)
  {
    var n := Next(g, s, step);
    if Holds(g, s, v) {
      var x :| x in Known(s.now, v) && x in g.providers;
      assert x in Known(n.now, v);
    } else {
      assert step.reply.announcer in Known(n.now, v);
    }
  }

  /** Whoever handled a location stores a provider's. */
  lemma {:induction false} HeardAlwaysHolds(g: Network, s: State, run: seq<Step>)
    requires g.WellFormed() && Initial(g, s) && Run(g, s, run)
    ensures HeardHolds(g, After(g, s, run))
  {
    if run != [] {
      var front, step := run[..|run| - 1], run[|run| - 1];
      HeardAlwaysHolds(g, s, front);
      ReachableInv(g, s, front);
      forall v | v in After(g, s, run).past.heard
        ensures Holds(g, After(g, s, run), v)
      {
        HoldsKept(g, After(g, s, front), step, v);
      }
    }
  }

  lemma ReversePathFrom(g: Network, s: State, v: Node) returns (path: seq<nat>, last: Node)
    requires Chained(g, s) && v in s.past.order
    ensures ReversePath(g, s.past, path, last) && s.past.order[path[0]] == v
  {
    var i :| 0 <= i < |s.past.order| && s.past.order[i] == v;
    path, last := ReversePathExists(g, s, i);
  }

  /** In any run, of any interleaving of queries and locations, that lets a provider handle a query and
      leaves no location travelling, the origin has been sent a provider's location and stores one. */
  lemma AnswerDelivery(g: Network, s: State, run: seq<Step>, origin: Node, provider: Node)
    requires g.WellFormed() && Initial(g, s) && Run(g, s, run)
    requires g.origins == {origin} && origin !in g.providers
    requires provider in g.providers && provider in After(g, s, run).past.order
    requires After(g, s, run).now.answers == multiset{}
    ensures Told(After(g, s, run), origin) && Holds(g, After(g, s, run), origin)
  {
    ReachableInv(g, s, run);
    var path, last := ReversePathFrom(g, After(g, s, run), provider);
    ReverseOriginAnswered(g, s, run, path, last);
  }

  /** Once no location is travelling, whoever was sent one stores one. */
  lemma ToldHolds(g: Network, s: State, run: seq<Step>, x: Node)
    requires g.WellFormed() && Initial(g, s) && Run(g, s, run)
    requires After(g, s, run).now.answers == multiset{} && Told(After(g, s, run), x)
    ensures Holds(g, After(g, s, run), x)
  {
    ReachableInv(g, s, run);
    HeardAlwaysHolds(g, s, run);
    var e := After(g, s, run);
    var v :| Hop(v, x) in e.past.told;
    assert Hop(v, x).target in e.past.heard || Coming(e, x);
  }

  // Coverage.

  predicate Path(g: Network, path: seq<Node>) {
    path != [] && forall i :: 0 < i < |path| ==> path[i] in PeersOf(g, path[i - 1])
  }

  lemma {:induction false} ActiveAlongPath(g: Network, s: State, path: seq<Node>)
    requires Spreading(g, s) && s.now.queries == multiset{}
    requires Path(g, path) && path[0] in g.origins
    ensures Active(g, s, path[|path| - 1])
  {
    if |path| > 1 {
      var front := path[..|path| - 1];
      ActiveAlongPath(g, s, front);
      assert path[|path| - 1] in PeersOf(g, front[|front| - 1]);
    }
  }

  /** Once no query is travelling, every node connected to an origin has handled it (or is an origin),
      whatever entries were dropped and created anew on the way. */
  lemma FloodCoverage(g: Network, s: State, run: seq<Step>, path: seq<Node>)
    requires g.WellFormed() && Initial(g, s) && Run(g, s, run)
    requires After(g, s, run).now.queries == multiset{}
    requires Path(g, path) && path[0] in g.origins
    ensures var last := path[|path| - 1]; last in g.origins || last in After(g, s, run).past.order
  {
    ReachableInv(g, s, run);
    ActiveAlongPath(g, After(g, s, run), path);
  }

  /** The two together: once the network is quiet, an origin connected to a provider has its answer. */
  lemma QuietMeansAnswered(g: Network, s: State, run: seq<Step>, path: seq<Node>)
    requires g.WellFormed() && Initial(g, s) && Run(g, s, run) && Quiet(After(g, s, run))
    requires Path(g, path) && g.origins == {path[0]} && path[0] !in g.providers && path[|path| - 1] in g.providers
    ensures Told(After(g, s, run), path[0]) && Holds(g, After(g, s, run), path[0])
  {
    FloodCoverage(g, s, run, path);
    AnswerDelivery(g, s, run, path[0], path[|path| - 1]);
  }

  // Reverse paths.

  predicate QueriesOnly(run: seq<Step>) {
    forall i :: 0 <= i < |run| ==> run[i].Ask?
  }

  /** Entries are exactly the nodes reached, and keep their first requester. */
  ghost predicate EntriesKept(s: State) {
    && (forall v :: v in s.now.table <==> v in s.past.order)
    && (forall v :: v in s.past.parent ==> Requests(s.now, v, s.past.parent[v]))
  }

  lemma QueryKeepsEntries(g: Network, s: State, h: Hop, stored: Option<Node>)
    requires EntriesKept(s) && Chained(g, s)
    ensures EntriesKept(Next(g, s, Ask(h, stored)))
  {
  }

  /** While only queries are delivered, entries stay. */
  lemma {:induction false} QueriesKeepEntries(g: Network, s: State, run: seq<Step>)
    requires g.WellFormed() && Initial(g, s) && Run(g, s, run) && QueriesOnly(run)
    ensures EntriesKept(After(g, s, run))
  {
    if run != [] {
      var front, last := run[..|run| - 1], run[|run| - 1];
      QueriesKeepEntries(g, s, front);
      ReachableInv(g, s, front);
      QueryKeepsEntries(g, After(g, s, front), last.hop, last.stored);
    }
  }

  /** In every query-only run the recorded first requesters form acyclic paths back to an origin. */
  lemma ReversePathsAcyclic(g: Network, s: State, run: seq<Step>, v: Node) returns (path: seq<nat>, last: Node)
    requires g.WellFormed() && Initial(g, s) && Run(g, s, run) && QueriesOnly(run)
    requires v in After(g, s, run).now.table
    ensures var e := After(g, s, run);
      && ReversePath(g, e.past, path, last) && e.past.order[path[0]] == v
      && forall k :: 0 <= k < |path| ==> var u := e.past.order[path[k]]; Requests(e.now, u, e.past.parent[u])
  {
    QueriesKeepEntries(g, s, run);
    ReachableInv(g, s, run);
    path, last := ReversePathFrom(g, After(g, s, run), v);
  }

  /** At every moment of every run, whoever's query a node handled is still in its entry, or has been sent
      a location by it since the last of those queries, or is the announcer of a location it has stored. */
  lemma NoRequesterForgotten(g: Network, s: State, run: seq<Step>, x: Node, v: Node)
    requires g.WellFormed() && Initial(g, s) && Run(g, s, run)
    requires Hop(x, v) in After(g, s, run).past.asked
    ensures var e := After(g, s, run);
      Requests(e.now, v, x) || Hop(v, x) in e.past.settled || x in Known(e.now, v)
  {
    ReachableInv(g, s, run);
  }
}
