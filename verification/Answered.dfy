/** When every origin that is connected to a provider is answered: between which peers no number of
    origins, and no interleaving, can leave one of them without a location. */
module Answered {
  import opened Base
  import opened Cycles
  import opened Flood
  import opened FloodBounds
  import opened FloodEnds
  import R = HashRouter

  predicate Joins(g: Network, path: seq<Node>, u: Node, v: Node) {
    Path(g, path) && path[0] == u && path[|path| - 1] == v
  }

  ghost predicate Connected(g: Network, u: Node, v: Node) {
    exists path :: Joins(g, path, u, v)
  }

  /** Every origin connected to a provider has been sent a location, or is a provider itself. */
  ghost predicate OriginsAnswered(g: Network, s: State) {
    forall o, p :: o in g.origins && p in g.providers && Connected(g, o, p) ==> o in g.providers || Told(s, o)
  }

  ghost predicate ComesToRest(g: Network, s: State, run: seq<Step>) {
    Initial(g, s) && Run(g, s, run) && Quiet(After(g, s, run))
  }

  /** Whatever was stored at the start and however deliveries interleave. */
  ghost predicate AlwaysAnswers(g: Network) {
    forall s, run :: ComesToRest(g, s, run) ==> OriginsAnswered(g, After(g, s, run))
  }

  // ----- peers of a provider -----

  lemma {:induction false} InitialQueryAsked(g: Network, s: State, run: seq<Step>, h: Hop)
    requires Run(g, s, run) && h in s.now.queries
    ensures h in After(g, s, run).now.queries || h in After(g, s, run).past.asked
  {
    if run != [] {
      InitialQueryAsked(g, s, run[..|run| - 1], h);
    }
  }

  lemma ToldStays(g: Network, s: State, step: Step, x: Node)
    requires Told(s, x)
    ensures Told(Next(g, s, step), x)
  {
    var v :| Hop(v, x) in s.past.told;
    assert Hop(v, x) in Next(g, s, step).past.told;
  }

  lemma ProviderTells(g: Network, s: State, h: Hop, stored: Option<Node>)
    requires h.target in g.providers
    ensures Told(Next(g, s, Ask(h, stored)), h.source)
  {
    assert Hop(h.target, h.source) in Next(g, s, Ask(h, stored)).past.told;
  }

  lemma {:induction false} AskedProviderTold(g: Network, s: State, run: seq<Step>, h: Hop)
    requires Initial(g, s) && Run(g, s, run) && h in After(g, s, run).past.asked && h.target in g.providers
    ensures Told(After(g, s, run), h.source)
  {
    var front, step := run[..|run| - 1], run[|run| - 1];
    if h in After(g, s, front).past.asked {
      AskedProviderTold(g, s, front, h);
      ToldStays(g, After(g, s, front), step, h.source);
    } else {
      assert step.Ask? && step.hop == h;
      ProviderTells(g, After(g, s, front), h, step.stored);
    }
  }

  /** An origin that is a peer of a provider is always answered. */
  lemma PeerAnswered(g: Network, s: State, run: seq<Step>, o: Node, p: Node)
    requires ComesToRest(g, s, run) && o in g.origins && p in g.providers && p in PeersOf(g, o)
    ensures Told(After(g, s, run), o)
  {
    assert Hop(o, p) in s.now.queries;
    InitialQueryAsked(g, s, run, Hop(o, p));
    AskedProviderTold(g, s, run, Hop(o, p));
  }

  lemma PassedOn(g: Network, t: Traffic, h: Hop, stored: Option<Node>)
    requires h.target !in t.table
    ensures forall w :: w in PeersOf(g, h.target) && w != h.source ==>
              Hop(h.target, w) in AfterQuery(g, t, h, stored).queries
  {
    forall w | w in PeersOf(g, h.target) && w != h.source
      ensures Hop(h.target, w) in AfterQuery(g, t, h, stored).queries
    {
      HopIn(Hop(h.target, w), h.target, PeersOf(g, h.target) - {h.source});
    }
  }

  // ----- draining the flood around a provider that is not asked -----

  /** No location is travelling, no query is aimed at p, and every peer of p has an entry or p's query coming. */
  ghost predicate CutOff(g: Network, s: State, p: Node) {
    && s.now.answers == multiset{}
    && (forall h :: h in s.now.queries ==> h.target != p)
    && forall w :: w in PeersOf(g, p) ==> w in s.now.table || Hop(p, w) in s.now.queries
  }

  /** A query to deliver next: one of p's that creates an entry, while there is one. */
  predicate Chosen(g: Network, s: State, p: Node, h: Hop) {
    h in s.now.queries && (h.target in PeersOf(g, p) && h.target !in s.now.table ==> h.source == p)
  }

  lemma SomeNext(g: Network, s: State, p: Node) returns (h: Hop)
    requires CutOff(g, s, p) && s.now.queries != multiset{}
    ensures Chosen(g, s, p, h)
  {
    if w :| w in PeersOf(g, p) && w !in s.now.table {
      h := Hop(p, w);
    } else {
      h :| h in s.now.queries;
    }
  }

  /** A node that creates an entry for the chosen query does not pass it on to p. */
  lemma AvoidsP(g: Network, s: State, p: Node, h: Hop, q: Hop)
    requires g.WellFormed() && CutOff(g, s, p) && Chosen(g, s, p, h)
    requires q in AfterQuery(g, s.now, h, None).queries
    ensures q.target != p
  {
    if q !in s.now.queries {
      HopIn(q, h.target, R.FloodTargets(R.EntryOf(s.now.table, h.target), PeersOf(g, h.target), h.source));
      assert h.target !in s.now.table && q.target in PeersOf(g, h.target) && q.target != h.source;
      assert q.target == p ==> h.target in PeersOf(g, p);
    }
  }

  lemma PeersCovered(g: Network, s: State, p: Node, h: Hop)
    requires CutOff(g, s, p) && h in s.now.queries
    ensures var n := Next(g, s, Ask(h, None));
            forall w :: w in PeersOf(g, p) ==> w in n.now.table || Hop(p, w) in n.now.queries
  {
    var n := Next(g, s, Ask(h, None));
    forall w | w in PeersOf(g, p)
      ensures w in n.now.table || Hop(p, w) in n.now.queries
    {
      assert w in s.now.table || Hop(p, w) in s.now.queries;
      assert Hop(p, w) == h ==> w in n.now.table;
    }
  }

  lemma StaysCutOff(g: Network, s: State, p: Node, h: Hop)
    requires g.WellFormed() && g.providers == {p} && CutOff(g, s, p) && Chosen(g, s, p, h)
    ensures CutOff(g, Next(g, s, Ask(h, None)), p)
    ensures Next(g, s, Ask(h, None)).past.told == s.past.told
  {
    PeersCovered(g, s, p, h);
    assert Answers(g, h, None) == multiset{};
    forall q | q in Next(g, s, Ask(h, None)).now.queries
      ensures q.target != p
    {
      AvoidsP(g, s, p, h, q);
    }
  }

  /** From there the flood can come to rest with nobody told anything more. */
  lemma {:induction false} Drain(g: Network, s: State, run: seq<Step>, p: Node) returns (full: seq<Step>)
    requires g.WellFormed() && Initial(g, s) && Run(g, s, run)
    requires g.providers == {p} && CutOff(g, After(g, s, run), p)
    ensures ComesToRest(g, s, full) && After(g, s, full).past.told == After(g, s, run).past.told
    decreases Pending(g, After(g, s, run).now)
  {
    var e := After(g, s, run);
    if e.now.queries == multiset{} {
      full := run;
    } else {
      var h := SomeNext(g, e, p);
      ReachableInv(g, s, run);
      QueryStep(g, e, h, None);
      StaysCutOff(g, e, p, h);
      RunOne(g, s, run, Ask(h, None));
      full := Drain(g, s, run + [Ask(h, None)], p);
    }
  }

  lemma NotAnswered(g: Network, s: State, run: seq<Step>, o: Node, p: Node)
    requires ComesToRest(g, s, run) && o in g.origins - g.providers && p in g.providers && Connected(g, o, p)
    requires !Told(After(g, s, run), o)
    ensures !AlwaysAnswers(g)
  {
    assert !OriginsAnswered(g, After(g, s, run));
  }

  // ----- origins that may provide -----

  /** Any two connected nodes are peers. */
  ghost predicate Cliques(g: Network) {
    forall u, v :: u in g.peers && u != v && Connected(g, u, v) ==> v in PeersOf(g, u)
  }

  ghost predicate AnswersAnyone(g: Network) {
    forall origins: set<Node>, providers: set<Node> ::
      origins <= g.peers.Keys ==> AlwaysAnswers(Network(g.peers, origins, providers))
  }

  lemma SameConnected(g: Network, f: Network, u: Node, v: Node)
    requires f.peers == g.peers
    ensures Connected(f, u, v) <==> Connected(g, u, v)
  {
    forall path
      ensures Joins(f, path, u, v) <==> Joins(g, path, u, v)
    {
      assert forall x :: PeersOf(f, x) == PeersOf(g, x);
    }
  }

  /** Of two origins that are not peers, one provider: if its own query spreads first, it is never asked. */
  lemma ProvidingOriginStarves(g: Network, u: Node, v: Node)
    requires g.WellFormed() && Simple(g) && u in g.peers && v in g.peers
    requires u != v && v !in PeersOf(g, u) && Connected(g, v, u)
    ensures !AlwaysAnswers(Network(g.peers, {u, v}, {u}))
  {
    var f := Network(g.peers, {u, v}, {u});
    var s := AllStored(f, u);
    SameConnected(g, f, v, u);
    assert Run(f, s, []) && After(f, s, []) == s;
    assert CutOff(f, s, u);
    var run := Drain(f, s, [], u);
    NotAnswered(f, s, run, v, u);
  }

  lemma {:induction false} Turned(g: Network, path: seq<Node>) returns (back: seq<Node>)
    requires g.WellFormed() && Path(g, path)
    ensures Joins(g, back, path[|path| - 1], path[0])
  {
    if |path| == 1 {
      back := path;
    } else {
      var front := Turned(g, path[..|path| - 1]);
      back := [path[|path| - 1]] + front;
    }
  }

  lemma ConnectedBack(g: Network, u: Node, v: Node)
    requires g.WellFormed() && u in g.peers && Connected(g, u, v)
    ensures Connected(g, v, u) && v in g.peers
  {
    var path :| Joins(g, path, u, v);
    var back := Turned(g, path);
    PathInside(g, path);
    assert path[|path| - 1] in path;
  }

  lemma CliquesAnswer(g: Network)
    requires g.WellFormed() && Cliques(g)
    ensures AlwaysAnswers(g)
  {
    forall s, run | ComesToRest(g, s, run)
      ensures OriginsAnswered(g, After(g, s, run))
    {
      forall o, p | o in g.origins && p in g.providers && Connected(g, o, p) && o !in g.providers
        ensures Told(After(g, s, run), o)
      {
        PeerAnswered(g, s, run, o, p);
      }
    }
  }

  /** Any origins connected to any providers are always answered exactly if connected nodes are peers. */
  lemma AnswersAnyoneIff(g: Network)
    requires g.WellFormed() && Simple(g)
    ensures AnswersAnyone(g) <==> Cliques(g)
  {
    if Cliques(g) {
      forall origins: set<Node>, providers: set<Node> | origins <= g.peers.Keys
        ensures AlwaysAnswers(Network(g.peers, origins, providers))
      {
        var f := Network(g.peers, origins, providers);
        forall u, v | u in f.peers && u != v && Connected(f, u, v)
          ensures v in PeersOf(f, u)
        {
          SameConnected(g, f, u, v);
        }
        CliquesAnswer(f);
      }
    } else {
      var u, v :| u in g.peers && u != v && Connected(g, u, v) && v !in PeersOf(g, u);
      ConnectedBack(g, u, v);
      ProvidingOriginStarves(g, u, v);
      assert {u, v} <= g.peers.Keys;
    }
  }

  // ----- origins that do not provide -----

  /** Two connected nodes are peers, or have one peer each: every component is a clique or a star. */
  ghost predicate CliquesAndStars(g: Network) {
    forall u, v :: u in g.peers && u != v && Connected(g, u, v) ==> v in PeersOf(g, u) || |PeersOf(g, u)| <= 1
  }

  ghost predicate AnswersOthers(g: Network) {
    forall origins: set<Node>, providers: set<Node> ::
      origins <= g.peers.Keys && origins !! providers ==> AlwaysAnswers(Network(g.peers, origins, providers))
  }

  /** The nodes that never send a query: providers with one peer. */
  predicate Silent(g: Network, p: Node) {
    p in g.providers && |PeersOf(g, p)| <= 1
  }

  ghost predicate KeepSilent(g: Network, s: State) {
    && (forall h :: h in s.now.queries ==> !Silent(g, h.source))
    && forall v, x :: Requests(s.now, v, x) ==> !Silent(g, x)
  }

  lemma OnePeer(g: Network, p: Node, x: Node, y: Node)
    requires |PeersOf(g, p)| <= 1 && x in PeersOf(g, p) && y in PeersOf(g, p)
    ensures x == y
  {
    if x != y {
      FloodBounds.SubsetSize({x, y}, PeersOf(g, p));
    }
  }

  lemma SilenceKept(g: Network, s: State, step: Step)
    requires g.WellFormed() && Local(g, s) && KeepSilent(g, s) && Enabled(s, step)
    ensures KeepSilent(g, Next(g, s, step))
  {
    if step.Ask? {
      var h := step.hop;
      var targets := R.FloodTargets(R.EntryOf(s.now.table, h.target), PeersOf(g, h.target), h.source);
      assert h.target in PeersOf(g, h.source) && h.source in PeersOf(g, h.target);
      forall q | q in Next(g, s, step).now.queries
        ensures !Silent(g, q.source)
      {
        if q !in s.now.queries {
          HopIn(q, h.target, targets);
          if Silent(g, h.target) {
            OnePeer(g, h.target, h.source, q.target);
          }
        }
      }
    }
    forall v, x | Requests(Next(g, s, step).now, v, x)
      ensures !Silent(g, x)
    {
      assert Requests(s.now, v, x) || (step.Ask? && x == step.hop.source);
    }
  }

  /** While c has an entry, c's query to p is coming, or a location is coming to c. */
  ghost predicate Awaits(g: Network, s: State, c: Node, p: Node) {
    c in s.now.table ==> Hop(c, p) in s.now.queries || Coming(s, c)
  }

  /** A location that comes to c finds its requesters, and the entry goes. */
  lemma EntryGoes(g: Network, s: State, a: Reply)
    requires g.WellFormed() && Local(g, s) && KeepSilent(g, s) && a in s.now.answers
    requires forall z :: z in PeersOf(g, a.target) && z in g.providers ==> Silent(g, z)
    requires forall v :: v in s.now.table ==> s.now.table[v] != {}
    ensures a.target !in AfterAnswer(g, s.now, a).table
  {
    if a.target in s.now.table {
      var x := Pick(s.now.table[a.target]);
      assert Requests(s.now, a.target, x);
      assert x != a.announcer;
      assert R.Settles(x, a.announcer, PeersOf(g, a.target), g.peers.Keys);
      assert Dropped(g, s.now, a);
    }
  }

  ghost predicate NoEmptyEntry(s: State) {
    forall v :: v in s.now.table ==> s.now.table[v] != {}
  }

  /** c is the only peer of the provider p, and its other providing peers have no other peer either. */
  ghost predicate StarAround(g: Network, c: Node, p: Node) {
    && p in g.providers && c in PeersOf(g, p) && |PeersOf(g, p)| <= 1
    && forall z :: z in PeersOf(g, c) && z in g.providers ==> Silent(g, z)
  }

  /** A query that creates an entry at c goes on to p, which never sends one. */
  lemma PassesToP(g: Network, s: State, h: Hop, stored: Option<Node>, c: Node, p: Node)
    requires g.WellFormed() && KeepSilent(g, s) && h in s.now.queries && StarAround(g, c, p)
    requires h.target == c && c !in s.now.table
    ensures Hop(c, p) in AfterQuery(g, s.now, h, stored).queries
  {
    assert h.source != p && p in PeersOf(g, c);
    PassedOn(g, s.now, h, stored);
  }

  lemma AwaitsAsked(g: Network, s: State, h: Hop, stored: Option<Node>, c: Node, p: Node)
    requires g.WellFormed() && KeepSilent(g, s) && Enabled(s, Ask(h, stored))
    requires StarAround(g, c, p) && Awaits(g, s, c, p)
    ensures Awaits(g, Next(g, s, Ask(h, stored)), c, p)
  {
    var n := Next(g, s, Ask(h, stored));
    if h == Hop(c, p) {
      assert Reply(c, p) in Answers(g, h, stored);
      assert Reply(c, p) in n.now.answers;
    } else if c !in s.now.table && h.target == c {
      PassesToP(g, s, h, stored, c, p);
    } else if Coming(s, c) {
      var a :| a in s.now.answers && a.target == c;
      assert a in n.now.answers;
    }
  }

  lemma AwaitsTold(g: Network, s: State, a: Reply, c: Node, p: Node)
    requires g.WellFormed() && Local(g, s) && KeepSilent(g, s) && NoEmptyEntry(s) && Enabled(s, Tell(a))
    requires StarAround(g, c, p) && Awaits(g, s, c, p)
    ensures Awaits(g, Next(g, s, Tell(a)), c, p)
  {
    var n := Next(g, s, Tell(a));
    if a.target == c {
      EntryGoes(g, s, a);
    } else if Coming(s, c) {
      var b :| b in s.now.answers && b.target == c;
      assert b in n.now.answers;
    }
  }

  lemma EntriesStayFull(g: Network, s: State, step: Step)
    requires NoEmptyEntry(s)
    ensures NoEmptyEntry(Next(g, s, step))
  {
    if step.Ask? {
      var h := step.hop;
      assert h.source in R.EntryAfterQuery(R.EntryOf(s.now.table, h.target), h.source);
    }
  }

  lemma {:induction false} StarWaits(g: Network, s: State, run: seq<Step>, c: Node, p: Node)
    requires g.WellFormed() && Initial(g, s) && Run(g, s, run) && g.origins !! g.providers && StarAround(g, c, p)
    ensures var e := After(g, s, run); KeepSilent(g, e) && NoEmptyEntry(e) && Awaits(g, e, c, p)
  {
    if run != [] {
      var front, step := run[..|run| - 1], run[|run| - 1];
      var e := After(g, s, front);
      StarWaits(g, s, front, c, p);
      ReachableInv(g, s, front);
      SilenceKept(g, e, step);
      EntriesStayFull(g, e, step);
      match step
      case Ask(h, stored) => AwaitsAsked(g, e, h, stored, c, p);
      case Tell(a) => AwaitsTold(g, e, a, c, p);
    }
  }

  lemma {:induction false} SettledTold(g: Network, s: State, run: seq<Step>, v: Node, x: Node)
    requires Initial(g, s) && Run(g, s, run) && Hop(v, x) in After(g, s, run).past.settled
    ensures Told(After(g, s, run), x)
  {
    var front, step := run[..|run| - 1], run[|run| - 1];
    if Hop(v, x) in After(g, s, front).past.settled {
      SettledTold(g, s, front, v, x);
      ToldStays(g, After(g, s, front), step, x);
    } else {
      assert Hop(v, x) in After(g, s, run).past.told;
    }
  }

  /** An origin on a star with a provider is always answered. */
  lemma StarAnswered(g: Network, s: State, run: seq<Step>, o: Node, c: Node, p: Node)
    requires g.WellFormed() && ComesToRest(g, s, run) && g.origins !! g.providers
    requires o in g.origins && c in PeersOf(g, o) && StarAround(g, c, p)
    ensures Told(After(g, s, run), o)
  {
    var e := After(g, s, run);
    assert Hop(o, c) in s.now.queries;
    InitialQueryAsked(g, s, run, Hop(o, c));
    NoRequesterForgotten(g, s, run, o, c);
    ReachableInv(g, s, run);
    StarWaits(g, s, run, c, p);
    assert c !in e.now.table;
    assert Hop(c, o) in e.past.settled;
    SettledTold(g, s, run, c, o);
  }

  /** Where connected nodes are peers or have one peer each, two that are not peers share their peer. */
  lemma SharedPeer(g: Network, o: Node, p: Node) returns (c: Node)
    requires g.WellFormed() && Simple(g) && CliquesAndStars(g)
    requires o in g.peers && p in g.peers && p in g.providers && o != p && Connected(g, p, o) && o !in PeersOf(g, p)
    ensures c in PeersOf(g, o) && StarAround(g, c, p)
  {
    var path :| Joins(g, path, p, o);
    var q := WithoutStepsBack(g, path);
    c := q[1];
    assert q[1] in PeersOf(g, q[0]) && q[2] in PeersOf(g, q[1]) && q[2] != p;
    if o !in PeersOf(g, c) {
      assert Joins(g, q[1..], c, o);
      OnePeer(g, c, p, q[2]);
    }
    forall z | z in PeersOf(g, c) && z in g.providers
      ensures Silent(g, z)
    {
      if z != p {
        assert Joins(g, [z, c, p], z, p);
        if p in PeersOf(g, z) {
          OnePeer(g, p, c, z);
        }
      }
    }
  }

  lemma CliquesAndStarsAnswer(g: Network)
    requires g.WellFormed() && Simple(g) && CliquesAndStars(g) && g.origins !! g.providers
    ensures AlwaysAnswers(g)
  {
    forall s, run | ComesToRest(g, s, run)
      ensures OriginsAnswered(g, After(g, s, run))
    {
      forall o, p | o in g.origins && p in g.providers && Connected(g, o, p)
        ensures Told(After(g, s, run), o)
      {
        ConnectedBack(g, o, p);
        if p in PeersOf(g, o) {
          PeerAnswered(g, s, run, o, p);
        } else {
          var c := SharedPeer(g, o, p);
          StarAnswered(g, s, run, o, c, p);
        }
      }
    }
  }

  // ----- a provider with two peers -----

  /** The queries aimed at p come from these nodes, one from each. */
  ghost predicate AimedFrom(queries: multiset<Hop>, p: Node, sources: set<Node>) {
    forall h :: h in queries && h.target == p ==> h.source in sources && queries[h] == 1
  }

  lemma AskAim(g: Network, t: Traffic, h: Hop, stored: Option<Node>, p: Node, sources: set<Node>)
    requires Simple(g) && AimedFrom(t.queries, p, sources) && h in t.queries
    requires h.target !in t.table && (h.target == p || h.source == p)
    ensures AimedFrom(AfterQuery(g, t, h, stored).queries, p, if h.target == p then sources - {h.source} else sources)
  {
    var targets := PeersOf(g, h.target) - {h.source};
    var added := Hops(h.target, targets);
    var after := AfterQuery(g, t, h, stored).queries;
    assert after == t.queries - multiset{h} + added;
    forall q | q in after && q.target == p
      ensures q.source in (if h.target == p then sources - {h.source} else sources) && after[q] == 1
    {
      HopIn(q, h.target, targets);
      assert q !in added;
      assert q in t.queries;
    }
  }

  ghost predicate ToldAmong(s: State, nodes: set<Node>) {
    forall h :: h in s.past.told ==> h.target in nodes
  }

  /** x and y are peers of the one provider p, o is connected to it but no peer; x, y and o ask. */
  ghost predicate Crossing(g: Network, x: Node, y: Node, o: Node, p: Node) {
    && g.WellFormed() && Simple(g) && g.providers == {p} && p in g.peers
    && x in PeersOf(g, p) && y in PeersOf(g, p) && x != y
    && o in g.peers && o != p && o !in PeersOf(g, p) && g.origins == {x, y, o}
  }

  /** Where the run below has got to. */
  ghost predicate Stage(s: State, table: map<Node, set<Node>>, answers: multiset<Reply>, p: Node, sources: set<Node>,
                        told: set<Node>) {
    && s.now.table == table && s.now.answers == answers
    && AimedFrom(s.now.queries, p, sources) && ToldAmong(s, told)
  }

  lemma Absorbed(g: Network, s: State, a: Reply, table: map<Node, set<Node>>, answers: multiset<Reply>, p: Node,
                 sources: set<Node>, told: set<Node>)
    requires Stage(s, table, answers, p, sources, told) && a in answers
    requires a.target in table ==> table[a.target] == {a.announcer}
    ensures Stage(Next(g, s, Tell(a)), table, answers - multiset{a}, p, sources, told)
  {
    assert SentOn(g, s.now, a) == {};
    assert Replies({}, a.announcer) == multiset{};
    assert !Dropped(g, s.now, a);
  }

  /** Delivering a query, from or to p, that creates an entry and is answered with the given location. */
  lemma Created(g: Network, s: State, h: Hop, stored: Option<Node>, table: map<Node, set<Node>>,
                answers: multiset<Reply>, reply: Reply, p: Node, sources: set<Node>, told: set<Node>)
    requires Simple(g) && Stage(s, table, answers, p, sources, told) && h in s.now.queries
    requires h.target !in table && (h.target == p || h.source == p) && h.source in told
    requires Answers(g, h, stored) == multiset{reply}
    ensures Stage(Next(g, s, Ask(h, stored)), table[h.target := {h.source}], answers + multiset{reply}, p,
                  if h.target == p then sources - {h.source} else sources, told)
  {
    AskAim(g, s.now, h, stored, p, sources);
    NewEntry(g, s.now, h, stored);
  }

  lemma NewEntry(g: Network, t: Traffic, h: Hop, stored: Option<Node>)
    requires h.target !in t.table
    ensures AfterQuery(g, t, h, stored).table == t.table[h.target := {h.source}]
  {
    assert R.EntryAfterQuery(None, h.source) == {h.source};
  }

  /** First x's query spreads from p, which answers x. */
  lemma FirstAsked(g: Network, s: State, x: Node, y: Node, o: Node, p: Node)
    requires Crossing(g, x, y, o, p) && Stage(s, map[], multiset{}, p, {x, y}, {x, y, p})
    requires Hop(x, p) in s.now.queries && Hop(y, p) in s.now.queries
    ensures var n := Next(g, s, Ask(Hop(x, p), None));
            && Stage(n, map[p := {x}], multiset{Reply(x, p)}, p, {y}, {x, y, p})
            && Hop(y, p) in n.now.queries && Hop(p, y) in n.now.queries
  {
    Created(g, s, Hop(x, p), None, map[], multiset{}, Reply(x, p), p, {x, y}, {x, y, p});
    PassedOn(g, s.now, Hop(x, p), None);
    assert {x, y} - {x} == {y};
  }

  /** The query reaches y, which answers p from its store. */
  lemma PeerAsked(g: Network, s: State, x: Node, y: Node, o: Node, p: Node)
    requires Crossing(g, x, y, o, p) && Stage(s, map[p := {x}], multiset{Reply(x, p)}, p, {y}, {x, y, p})
    requires Hop(y, p) in s.now.queries && Hop(p, y) in s.now.queries
    ensures var n := Next(g, s, Ask(Hop(p, y), Some(p)));
            && Stage(n, map[p := {x}, y := {p}], multiset{Reply(x, p), Reply(p, p)}, p, {y}, {x, y, p})
            && Hop(y, p) in n.now.queries
  {
    assert y != p && y !in map[p := {x}];
    assert Answers(g, Hop(p, y), Some(p)) == multiset{Reply(p, p)};
    Created(g, s, Hop(p, y), Some(p), map[p := {x}], multiset{Reply(x, p)}, Reply(p, p), p, {y}, {x, y, p});
    StillQueued(g, s.now, Hop(p, y), Some(p), Hop(y, p));
  }

  lemma StillQueued(g: Network, t: Traffic, h: Hop, stored: Option<Node>, q: Hop)
    requires q in t.queries && q != h
    ensures q in AfterQuery(g, t, h, stored).queries
  {
  }

  /** That answer is relayed to x and removes p's entry. */
  lemma EntryCleared(g: Network, s: State, x: Node, y: Node, o: Node, p: Node)
    requires Crossing(g, x, y, o, p)
    requires Stage(s, map[p := {x}, y := {p}], multiset{Reply(x, p), Reply(p, p)}, p, {y}, {x, y, p})
    ensures Stage(Next(g, s, Tell(Reply(p, p))), map[y := {p}], multiset{Reply(x, p), Reply(x, p)}, p, {y}, {x, y, p})
  {
    var a := Reply(p, p);
    assert x != p && y != p && x in g.peers;
    assert R.Settles(x, p, PeersOf(g, p), g.peers.Keys) && R.Served(x, p, PeersOf(g, p), g.peers.Keys);
    assert SentOn(g, s.now, a) == {x};
    assert Replies({x}, p) == multiset{Reply(x, p)} by {
      assert (set w | w in {x} :: Reply(w, p)) == {Reply(x, p)};
    }
    assert map[p := {x}, y := {p}] - {p} == map[y := {p}];
  }

  /** Then y's query spreads from p, which answers y. */
  lemma SecondAsked(g: Network, s: State, x: Node, y: Node, o: Node, p: Node)
    requires Crossing(g, x, y, o, p) && Stage(s, map[y := {p}], multiset{}, p, {y}, {x, y, p})
    requires Hop(y, p) in s.now.queries
    ensures var n := Next(g, s, Ask(Hop(y, p), None));
            && Stage(n, map[y := {p}, p := {y}], multiset{Reply(y, p)}, p, {}, {x, y, p})
            && forall w :: w in PeersOf(g, p) && w != y ==> Hop(p, w) in n.now.queries
  {
    assert y != p;
    Created(g, s, Hop(y, p), None, map[y := {p}], multiset{}, Reply(y, p), p, {y}, {x, y, p});
    assert {y} - {y} == {};
    PassedOn(g, s.now, Hop(y, p), None);
  }

  lemma AllAskedOnce(g: Network, x: Node, y: Node, o: Node, p: Node)
    requires Crossing(g, x, y, o, p)
    ensures var s := AllStored(g, p);
            && Initial(g, s) && Stage(s, map[], multiset{}, p, {x, y}, {x, y, p})
            && Hop(x, p) in s.now.queries && Hop(y, p) in s.now.queries
  {
    assert p in PeersOf(g, x) && p in PeersOf(g, y) && p !in PeersOf(g, o);
  }

  lemma FirstHalf(g: Network, x: Node, y: Node, o: Node, p: Node) returns (run: seq<Step>)
    requires Crossing(g, x, y, o, p)
    ensures var s, e := AllStored(g, p), After(g, AllStored(g, p), run);
            && Initial(g, s) && Run(g, s, run) && Hop(y, p) in e.now.queries
            && Stage(e, map[y := {p}], multiset{Reply(x, p), Reply(x, p)}, p, {y}, {x, y, p})
  {
    var s0 := AllStored(g, p);
    AllAskedOnce(g, x, y, o, p);
    assert Run(g, s0, []) && After(g, s0, []) == s0;
    FirstAsked(g, s0, x, y, o, p);
    run := Grow(g, s0, [], s0, Ask(Hop(x, p), None));
    var s1 := Next(g, s0, Ask(Hop(x, p), None));
    StoredEverywhere(g, s0, run, p, y);
    PeerAsked(g, s1, x, y, o, p);
    run := Grow(g, s0, run, s1, Ask(Hop(p, y), Some(p)));
    var s2 := Next(g, s1, Ask(Hop(p, y), Some(p)));
    EntryCleared(g, s2, x, y, o, p);
    run := Grow(g, s0, run, s2, Tell(Reply(p, p)));
  }

  /** What is stored at the start stays stored. */
  lemma {:induction false} StoredEverywhere(g: Network, s: State, run: seq<Step>, p: Node, v: Node)
    requires Run(g, s, run) && p in Known(s.now, v)
    ensures p in Known(After(g, s, run).now, v)
  {
    if run != [] {
      StoredEverywhere(g, s, run[..|run| - 1], p, v);
    }
  }

  lemma SecondHalf(g: Network, s: State, front: seq<Step>, x: Node, y: Node, o: Node, p: Node) returns (run: seq<Step>)
    requires Crossing(g, x, y, o, p) && Run(g, s, front)
    requires Stage(After(g, s, front), map[y := {p}], multiset{}, p, {y}, {x, y, p})
    requires Hop(y, p) in After(g, s, front).now.queries
    ensures Run(g, s, run) && CutOff(g, After(g, s, run), p) && ToldAmong(After(g, s, run), {x, y, p})
  {
    var e := After(g, s, front);
    SecondAsked(g, e, x, y, o, p);
    run := Grow(g, s, front, e, Ask(Hop(y, p), None));
    var n := Next(g, e, Ask(Hop(y, p), None));
    Absorbed(g, n, Reply(y, p), map[y := {p}, p := {y}], multiset{Reply(y, p)}, p, {}, {x, y, p});
    run := Grow(g, s, run, n, Tell(Reply(y, p)));
  }

  /** After seven deliveries p is cut off: every query it can still pass on comes to a node before
      anybody else's, and nobody but x, y and p has been told. */
  lemma CutOffReached(g: Network, x: Node, y: Node, o: Node, p: Node) returns (run: seq<Step>)
    requires Crossing(g, x, y, o, p)
    ensures var s := AllStored(g, p);
            && Initial(g, s) && Run(g, s, run)
            && CutOff(g, After(g, s, run), p) && ToldAmong(After(g, s, run), {x, y, p})
  {
    var s := AllStored(g, p);
    var a := Reply(x, p);
    run := FirstHalf(g, x, y, o, p);
    var e := After(g, s, run);
    Absorbed(g, e, a, map[y := {p}], multiset{a, a}, p, {y}, {x, y, p});
    run := Grow(g, s, run, e, Tell(a));
    var n := Next(g, e, Tell(a));
    assert multiset{a, a} - multiset{a} == multiset{a} && multiset{a} - multiset{a} == multiset{};
    Absorbed(g, n, a, map[y := {p}], multiset{a}, p, {y}, {x, y, p});
    run := Grow(g, s, run, n, Tell(a));
    run := SecondHalf(g, s, run, x, y, o, p);
  }

  lemma Grow(g: Network, s: State, run: seq<Step>, e: State, step: Step) returns (longer: seq<Step>)
    requires Run(g, s, run) && After(g, s, run) == e && Enabled(e, step)
    ensures Run(g, s, longer) && After(g, s, longer) == Next(g, e, step)
  {
    RunOne(g, s, run, step);
    longer := run + [step];
  }

  /** Around a provider with two peers, both of them asking, an origin further off can be left out. */
  lemma FartherOriginStarves(g: Network, x: Node, y: Node, o: Node, p: Node)
    requires Crossing(g, x, y, o, p) && Connected(g, o, p)
    ensures !AlwaysAnswers(g)
  {
    var s := AllStored(g, p);
    var run := CutOffReached(g, x, y, o, p);
    var full := Drain(g, s, run, p);
    NotAnswered(g, s, full, o, p);
  }

  lemma PickTwo(s: set<Node>) returns (x: Node, y: Node)
    requires |s| > 1
    ensures x in s && y in s && x != y
  {
    x := Pick(s);
    assert |s - {x}| == |s| - 1;
    y := Pick(s - {x});
  }

  lemma FartherProviderLeavesOut(g: Network, p: Node, o: Node)
    requires g.WellFormed() && Simple(g) && p in g.peers && p != o && Connected(g, p, o)
    requires o !in PeersOf(g, p) && |PeersOf(g, p)| > 1
    ensures !AnswersOthers(g)
  {
    var x, y := PickTwo(PeersOf(g, p));
    var f := Network(g.peers, {x, y, o}, {p});
    ConnectedBack(g, p, o);
    SameConnected(g, f, o, p);
    FartherOriginStarves(f, x, y, o, p);
    assert {x, y, o} <= g.peers.Keys && {x, y, o} !! {p};
  }

  lemma OthersAnswered(g: Network, origins: set<Node>, providers: set<Node>)
    requires g.WellFormed() && Simple(g) && CliquesAndStars(g) && origins <= g.peers.Keys && origins !! providers
    ensures AlwaysAnswers(Network(g.peers, origins, providers))
  {
    var f := Network(g.peers, origins, providers);
    forall u, v | u in f.peers && u != v && Connected(f, u, v)
      ensures v in PeersOf(f, u) || |PeersOf(f, u)| <= 1
    {
      SameConnected(g, f, u, v);
      assert PeersOf(f, u) == PeersOf(g, u);
    }
    CliquesAndStarsAnswer(f);
  }

  /** Origins that do not provide are always answered, by any providers they are connected to, exactly if
      every component is a clique or a star. */
  lemma AnswersOthersIff(g: Network)
    requires g.WellFormed() && Simple(g)
    ensures AnswersOthers(g) <==> CliquesAndStars(g)
  {
    if CliquesAndStars(g) {
      forall origins: set<Node>, providers: set<Node> | origins <= g.peers.Keys && origins !! providers
        ensures AlwaysAnswers(Network(g.peers, origins, providers))
      {
        OthersAnswered(g, origins, providers);
      }
    } else {
      var p, o :| p in g.peers && p != o && Connected(g, p, o) && o !in PeersOf(g, p) && |PeersOf(g, p)| > 1;
      FartherProviderLeavesOut(g, p, o);
    }
  }
}
