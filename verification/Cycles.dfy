/** Walks and cycles in the peer graph: where a query that is passed on and never sent straight back can go. */
module Cycles {
  import opened Flood

  /** A node does not connect to itself (service/default/p2p.go:249). */
  ghost predicate Simple(g: Network) {
    forall v :: v in g.peers ==> v !in g.peers[v]
  }

  predicate Distinct(s: seq<Node>) {
    forall i, j :: 0 <= i < j < |s| ==> s[i] != s[j]
  }

  predicate Cycle(g: Network, c: seq<Node>) {
    |c| >= 3 && Distinct(c) && Path(g, c) && c[0] in PeersOf(g, c[|c| - 1])
  }

  predicate Reaches(g: Network, path: seq<Node>, c: seq<Node>) {
    Path(g, path) && path[0] in g.origins && Cycle(g, c) && path[|path| - 1] in c
  }

  /** A cycle of peers is connected to an origin. */
  ghost predicate CycleReached(g: Network) {
    exists path, c :: Reaches(g, path, c)
  }

  /** Never straight back. */
  predicate Onward(w: seq<Node>) {
    forall i :: 1 < i < |w| ==> w[i] != w[i - 2]
  }

  predicate Walk(g: Network, w: seq<Node>) {
    |w| >= 2 && Path(g, w) && Onward(w)
  }

  // ----- without a cycle, walks are short -----

  /** A walk that comes back to a node closes a cycle. */
  lemma {:induction false} WalkDistinct(g: Network, w: seq<Node>)
    requires Simple(g) && !CycleReached(g) && Walk(g, w) && w[0] in g.origins
    ensures Distinct(w)
  {
    if |w| > 2 {
      var front, x := w[..|w| - 1], w[|w| - 1];
      WalkDistinct(g, front);
      if x in front {
        var i :| 0 <= i < |front| && front[i] == x;
        assert x in PeersOf(g, front[|front| - 1]) && x != front[|front| - 2];
        ClosesCycle(g, front, i);
      }
    }
  }

  lemma ClosesCycle(g: Network, w: seq<Node>, i: nat)
    requires Simple(g) && Path(g, w) && Distinct(w) && w[0] in g.origins && i < |w| && |w| >= 2
    requires w[i] in PeersOf(g, w[|w| - 1]) && w[i] != w[|w| - 2]
    ensures CycleReached(g)
  {
    assert i != |w| - 1 && i != |w| - 2;
    var c, path := w[i..], w[..i + 1];
    assert Cycle(g, c) && w[i] in c;
    assert Reaches(g, path, c);
  }

  lemma {:induction false} DistinctBound(s: seq<Node>, nodes: set<Node>)
    requires Distinct(s) && forall v :: v in s ==> v in nodes
    ensures |s| <= |nodes|
  {
    if s != [] {
      var front, x := s[..|s| - 1], s[|s| - 1];
      assert forall v :: v in front ==> v in nodes - {x};
      DistinctBound(front, nodes - {x});
    }
  }

  lemma {:induction false} PathInside(g: Network, w: seq<Node>)
    requires g.WellFormed() && Path(g, w) && w[0] in g.peers
    ensures forall v :: v in w ==> v in g.peers
  {
    if |w| > 1 {
      var front := w[..|w| - 1];
      PathInside(g, front);
      assert front[|front| - 1] in front;
      assert w == front + [w[|w| - 1]];
    }
  }

  lemma WalkBound(g: Network, w: seq<Node>)
    requires g.WellFormed() && Simple(g) && !CycleReached(g) && Walk(g, w) && w[0] in g.origins
    ensures |w| <= |g.peers.Keys|
  {
    WalkDistinct(g, w);
    PathInside(g, w);
    DistinctBound(w, g.peers.Keys);
  }

  // ----- with one, they are not -----

  /** The node after c[i] on the cycle. */
  function Succ(c: seq<Node>, i: nat): nat {
    if i + 1 < |c| then i + 1 else 0
  }

  lemma {:induction false} Circle(g: Network, c: seq<Node>, w: seq<Node>, i: nat, n: nat) returns (long: seq<Node>)
    requires Cycle(g, c) && Walk(g, w) && i < |c|
    requires w[|w| - 2] == c[i] && w[|w| - 1] == c[Succ(c, i)]
    ensures Walk(g, long) && long[0] == w[0] && |long| >= n
    decreases n - |w|
  {
    if |w| >= n {
      long := w;
    } else {
      var j := Succ(c, i);
      assert c[Succ(c, j)] != c[i] && c[Succ(c, j)] in PeersOf(g, c[j]);
      long := Circle(g, c, w + [c[Succ(c, j)]], j, n);
    }
  }

  /** Leaving out every step back leaves a path between the same ends. */
  lemma {:induction false} WithoutStepsBack(g: Network, p: seq<Node>) returns (q: seq<Node>)
    requires Path(g, p)
    ensures Path(g, q) && Onward(q) && q[0] == p[0] && q[|q| - 1] == p[|p| - 1]
    decreases |p|
  {
    if Onward(p) {
      q := p;
    } else {
      var i :| 1 < i < |p| && p[i] == p[i - 2];
      q := WithoutStepsBack(g, p[..i - 1] + p[i + 1..]);
    }
  }

  lemma {:induction false} FirstMeeting(p: seq<Node>, c: seq<Node>) returns (n: nat)
    requires p != [] && p[|p| - 1] in c
    ensures n < |p| && p[n] in c && forall i :: 0 <= i < n ==> p[i] !in c
  {
    if p[0] in c {
      n := 0;
    } else {
      n := FirstMeeting(p[1..], c);
      n := n + 1;
    }
  }

  /** From an origin connected to a cycle there are walks of every length. */
  lemma LongWalk(g: Network, n: nat) returns (w: seq<Node>)
    requires CycleReached(g)
    ensures Walk(g, w) && w[0] in g.origins && |w| >= n
  {
    var path, c :| Reaches(g, path, c);
    var onward := WithoutStepsBack(g, path);
    var m := FirstMeeting(onward, c);
    var i :| 0 <= i < |c| && c[i] == onward[m];
    var start := onward[..m + 1] + [c[Succ(c, i)]];
    assert c[Succ(c, i)] in c && c[Succ(c, i)] in PeersOf(g, c[i]);
    w := Circle(g, c, start, i, n);
  }
}
