/** Votes on nodes and ranking by score (service/vote.go, and vote, GetNodeScore and
    SortNodesByScore in service/default/p2p.go). */
module Ranking {
  import opened Base
  import Endian
  import NodeScore
  import Sorting

  /** A value of the nodes bucket: vote counts, or bytes that do not decode. */
  datatype Stored = Votes(good: nat, bad: nat) | Unreadable

  datatype Ballot = Ballot(node: NodeId, up: bool)

  function ReadVotes(bucket: map<NodeId, Stored>, node: NodeId): Stored {
    if node in bucket then bucket[node] else Votes(0, 0)
  }

  function AfterVote(bucket: map<NodeId, Stored>, b: Ballot): map<NodeId, Stored> {
    match ReadVotes(bucket, b.node)
    case Unreadable => bucket
    case Votes(good, bad) => bucket[b.node := if b.up then Votes(good + 1, bad) else Votes(good, bad + 1)]
  }

  /** The nodes whose score is an error: reading their record fails, or it does not decode. */
  predicate Unrated(local: NodeId, bucket: map<NodeId, Stored>, failing: set<NodeId>, node: NodeId) {
    node != local && (node in failing || ReadVotes(bucket, node).Unreadable?)
  }

  /** The score used for ranking: 1 for the node itself, 0 on an error. */
  function Rate(w: nat -> real, local: NodeId, bucket: map<NodeId, Stored>, failing: set<NodeId>, node: NodeId): real {
    if node == local then 1.0
    else if Unrated(local, bucket, failing, node) then 0.0
    else
      var votes := ReadVotes(bucket, node);
      NodeScore.Score(w, votes.good, votes.bad)
  }

  /** The map key of a node: its first four bytes as a little-endian number. */
  function Code(node: NodeId): int {
    if |node| < 4 then 0 else Endian.Value(node[..4])
  }

  /** The scores map after its loop: a later node overwrites an earlier one of the same code. */
  function Scores(nodes: seq<NodeId>, rate: NodeId -> real): map<int, real> {
    if nodes == [] then map[]
    else
      var last := nodes[|nodes| - 1];
      Scores(nodes[..|nodes| - 1], rate)[Code(last) := rate(last)]
  }

  function At(scores: map<int, real>, node: NodeId): real {
    if Code(node) in scores then scores[Code(node)] else 0.0
  }

  predicate Above(scores: map<int, real>, a: NodeId, b: NodeId) {
    At(scores, a) >= At(scores, b)
  }

  /** r is a rearrangement of nodes in falling order of the scores map. */
  ghost predicate Ranked(r: seq<NodeId>, nodes: seq<NodeId>, rate: NodeId -> real) {
    && multiset(r) == multiset(nodes)
    && var scores := Scores(nodes, rate); forall i, j :: 0 <= i < j < |r| ==> Above(scores, r[i], r[j])
  }

  class Voting {
    var bucket: map<NodeId, Stored>
    const local: NodeId
    const weight: nat -> real

    constructor (local: NodeId, weight: nat -> real)
      ensures bucket == map[] && this.local == local && this.weight == weight
    {
      bucket := map[];
      this.local := local;
      this.weight := weight;
    }

    /** readOk and saveOk are the outcomes of the bucket's Get and Put. */
    method Vote(node: NodeId, up: bool, readOk: bool, saveOk: bool) returns (ok: bool)
      modifies this`bucket
      ensures ok <==> readOk && saveOk && ReadVotes(old(bucket), node).Votes?
      ensures bucket == if ok then AfterVote(old(bucket), Ballot(node, up)) else old(bucket)
    {
      if !readOk {
        return false;
      }
      var votes := ReadVotes(bucket, node);
      if votes.Unreadable? {
        return false;
      }
      if up {
        votes := votes.(good := votes.good + 1);
      } else {
        votes := votes.(bad := votes.bad + 1);
      }
      if !saveOk {
        return false;
      }
      bucket := bucket[node := votes];
      return true;
    }

    /** Reading the bucket fails for the failing nodes. */
    method GetNodeScore(node: NodeId, failing: set<NodeId>) returns (score: real, ok: bool)
      ensures ok <==> !Unrated(local, bucket, failing, node)
      ensures score == if ok then Rate(weight, local, bucket, failing, node) else 0.5
      ensures node == local ==> ok && score == 1.0
      ensures node != local && (node in failing || (node in bucket && bucket[node].Unreadable?)) ==> !ok && score == 0.5
      ensures node != local && node !in failing && node !in bucket ==> ok && score == NodeScore.Score(weight, 0, 0)
      ensures node != local && node !in failing && node in bucket && bucket[node].Votes? ==>
        ok && score == NodeScore.Score(weight, bucket[node].good, bucket[node].bad)
    {
      if node == local {
        return 1.0, true;
      }
      if node in failing {
        return 0.5, false;
      }
      var votes := ReadVotes(bucket, node);
      if votes.Unreadable? {
        return 0.5, false;
      }
      return NodeScore.Score(weight, votes.good, votes.bad), true;
    }

    method SortNodesByScore(nodes: array<NodeId>, failing: set<NodeId>) returns (ok: bool)
      requires forall i :: 0 <= i < nodes.Length ==> |nodes[i]| >= 4
      modifies nodes
      ensures ok <==> forall n :: n in old(nodes[..]) ==> !Unrated(local, bucket, failing, n)
      ensures Ranked(nodes[..], old(nodes[..]), n => Rate(weight, local, old(bucket), failing, n))
      ensures !ok <==> exists n :: n in old(nodes[..]) && n != local
                                   && (n in failing || (n in bucket && bucket[n].Unreadable?))
    {
      ghost var rate := n => Rate(weight, local, old(bucket), failing, n);
      ghost var listed := nodes[..];
      var scores: map<int, real> := map[];
      ok := true;
      for i := 0 to nodes.Length
        invariant nodes[..] == listed
        invariant scores == Scores(listed[..i], rate)
        invariant ok <==> forall n :: n in listed[..i] ==> !Unrated(local, bucket, failing, n)
      {
        var score, rated := GetNodeScore(nodes[i], failing);
        assert listed[..i + 1] == listed[..i] + [nodes[i]];
        if rated {
          scores := scores[Code(nodes[i]) := score];
        } else {
          scores := scores[Code(nodes[i]) := 0.0];
          ok := false;
        }
      }
      assert listed == listed[..nodes.Length];
      SortSlice(nodes, scores);
    }
  }

  /** Go's sort.Slice by falling score; its order of equal scores is not relied on. */
  method SortSlice(nodes: array<NodeId>, scores: map<int, real>)
    modifies nodes
    ensures multiset(nodes[..]) == multiset(old(nodes[..]))
    ensures forall i, j :: 0 <= i < j < nodes.Length ==> Above(scores, nodes[i], nodes[j])
  {
    var above := (a: NodeId, b: NodeId) => Above(scores, a, b);
    var sorted := Sorting.Sort(nodes[..], above);
    Sorting.SortSorts(nodes[..], above);
    assert |sorted| == nodes.Length by {
      assert |multiset(sorted)| == |multiset(nodes[..])|;
    }
    forall i | 0 <= i < nodes.Length {
      nodes[i] := sorted[i];
    }
    assert nodes[..] == sorted;
    forall i, j | 0 <= i < j < nodes.Length
      ensures Above(scores, nodes[i], nodes[j])
    {
      assert above(sorted[i], sorted[j]);
    }
  }

  // ----- properties -----

  function Count(node: NodeId, up: bool, ballots: seq<Ballot>): nat {
    if ballots == [] then 0
    else
      var last := ballots[|ballots| - 1];
      Count(node, up, ballots[..|ballots| - 1]) + if last == Ballot(node, up) then 1 else 0
  }

  function AfterVotes(ballots: seq<Ballot>): map<NodeId, Stored> {
    if ballots == [] then map[] else AfterVote(AfterVotes(ballots[..|ballots| - 1]), ballots[|ballots| - 1])
  }

  /** After any votes, the bucket holds each node's upvotes and downvotes, whatever their order. */
  lemma {:induction false} VotesAreCounted(ballots: seq<Ballot>, node: NodeId)
    ensures ReadVotes(AfterVotes(ballots), node) == Votes(Count(node, true, ballots), Count(node, false, ballots))
  {
    if ballots != [] {
      var before, last := ballots[..|ballots| - 1], ballots[|ballots| - 1];
      VotesAreCounted(before, node);
      VotesAreCounted(before, last.node);
    }
  }

  /** After any votes a node rates 1 if it is the node itself, 0 if its record cannot be read, and
      otherwise the score of the votes that were cast on it: strictly between the two. */
  lemma RateOfVotes(w: nat -> real, local: NodeId, ballots: seq<Ballot>, failing: set<NodeId>, node: NodeId)
    requires NodeScore.Decay(w)
    ensures var rate := Rate(w, local, AfterVotes(ballots), failing, node);
      && (rate == 1.0 <==> node == local)
      && (rate == 0.0 <==> node != local && node in failing)
      && (node != local && node !in failing ==>
            && rate == NodeScore.Score(w, Count(node, true, ballots), Count(node, false, ballots))
            && 0.0 < rate < 1.0)
  {
    VotesAreCounted(ballots, node);
    NodeScore.ScoreStrictlyBetween(w, Count(node, true, ballots), Count(node, false, ballots));
  }

  /** Where codes tell ratings apart, the node itself ranks before all others, and nodes whose votes
      cannot be read after all others. */
  lemma LocalFirstFailingLast(r: seq<NodeId>, nodes: seq<NodeId>, w: nat -> real, local: NodeId, ballots: seq<Ballot>,
                              failing: set<NodeId>, i: nat, j: nat)
    requires NodeScore.Decay(w) && i < j < |r|
    requires var rate := n => Rate(w, local, AfterVotes(ballots), failing, n);
      Ranked(r, nodes, rate) && CodesTellScores(nodes, rate)
    ensures r[j] == local ==> r[i] == local
    ensures r[i] != local && r[i] in failing ==> r[j] != local && r[j] in failing
  {
    var rate := n => Rate(w, local, AfterVotes(ballots), failing, n);
    RankedFalls(r, nodes, rate);
    assert rate(r[i]) >= rate(r[j]);
    RateOfVotes(w, local, ballots, failing, r[i]);
    RateOfVotes(w, local, ballots, failing, r[j]);
  }

  /** One vote moves its node's rating strictly the way it points, and no other node's. */
  lemma VoteMovesOnlyItsNode(w: nat -> real, local: NodeId, ballots: seq<Ballot>, b: Ballot, node: NodeId)
    requires NodeScore.Decay(w)
    ensures var before := AfterVotes(ballots);
            var score, next := Rate(w, local, before, {}, node), Rate(w, local, AfterVote(before, b), {}, node);
            if node != b.node || node == local then next == score else if b.up then next > score else next < score
  {
    if b.node == node && node != local {
      VoteOnIt(w, local, ballots, b);
    } else if node != b.node {
      assert ReadVotes(AfterVote(AfterVotes(ballots), b), node) == ReadVotes(AfterVotes(ballots), node);
    }
  }

  lemma VoteOnIt(w: nat -> real, local: NodeId, ballots: seq<Ballot>, b: Ballot)
    requires NodeScore.Decay(w) && b.node != local
    ensures var before := AfterVotes(ballots);
            var score, next := Rate(w, local, before, {}, b.node), Rate(w, local, AfterVote(before, b), {}, b.node);
            if b.up then next > score else next < score
  {
    VotesAreCounted(ballots, b.node);
    var good, bad := Count(b.node, true, ballots), Count(b.node, false, ballots);
    if b.up {
      NodeScore.UpvoteRaises(w, good, bad);
    } else {
      NodeScore.DownvoteLowers(w, good, bad);
    }
  }

  /** Two nodes share a code exactly when they share their first four bytes. */
  lemma SameCodeIff(a: NodeId, b: NodeId)
    requires |a| >= 4 && |b| >= 4
    ensures Code(a) == Code(b) <==> a[..4] == b[..4]
  {
    if Code(a) == Code(b) {
      Endian.EncodeOfValue(a[..4]);
      Endian.EncodeOfValue(b[..4]);
    }
  }

  /** The scores map holds, for each code, the rating of the last listed node of that code. */
  lemma {:induction false} ScoreOfLast(nodes: seq<NodeId>, rate: NodeId -> real, k: nat)
    requires k < |nodes|
    requires forall j :: k < j < |nodes| ==> Code(nodes[j]) != Code(nodes[k])
    ensures Code(nodes[k]) in Scores(nodes, rate) && Scores(nodes, rate)[Code(nodes[k])] == rate(nodes[k])
  {
    if k < |nodes| - 1 {
      ScoreOfLast(nodes[..|nodes| - 1], rate, k);
    }
  }

  predicate CodesTellScores(nodes: seq<NodeId>, rate: NodeId -> real) {
    forall i, j :: 0 <= i < j < |nodes| && Code(nodes[i]) == Code(nodes[j]) ==> rate(nodes[i]) == rate(nodes[j])
  }

  /** Each listed node is ranked by its own rating exactly when nodes of one code have one rating. */
  lemma OwnScoresIff(nodes: seq<NodeId>, rate: NodeId -> real)
    ensures CodesTellScores(nodes, rate) <==> forall n :: n in nodes ==> At(Scores(nodes, rate), n) == rate(n)
  {
    if CodesTellScores(nodes, rate) {
      forall n | n in nodes
        ensures At(Scores(nodes, rate), n) == rate(n)
      {
        var i :| 0 <= i < |nodes| && nodes[i] == n;
        var k := LastOfCode(nodes, i);
        ScoreOfLast(nodes, rate, k);
      }
    }
    if forall n :: n in nodes ==> At(Scores(nodes, rate), n) == rate(n) {
      forall i, j | 0 <= i < j < |nodes| && Code(nodes[i]) == Code(nodes[j])
        ensures rate(nodes[i]) == rate(nodes[j])
      {
        assert nodes[i] in nodes && nodes[j] in nodes;
      }
    }
  }

  ghost function LastOfCode(nodes: seq<NodeId>, i: nat): (k: nat)
    requires i < |nodes|
    ensures i <= k < |nodes| && Code(nodes[k]) == Code(nodes[i])
    ensures forall j :: k < j < |nodes| ==> Code(nodes[j]) != Code(nodes[i])
    decreases |nodes| - i
  {
    if exists j :: i < j < |nodes| && Code(nodes[j]) == Code(nodes[i]) then
      var j :| i < j < |nodes| && Code(nodes[j]) == Code(nodes[i]);
      LastOfCode(nodes, j)
    else i
  }

  ghost predicate Falls(r: seq<NodeId>, rate: NodeId -> real) {
    forall i, j :: 0 <= i < j < |r| ==> rate(r[i]) >= rate(r[j])
  }

  /** If nodes of one code have one rating, every ranking is in falling order of the ratings. */
  lemma RankedFalls(r: seq<NodeId>, nodes: seq<NodeId>, rate: NodeId -> real)
    requires Ranked(r, nodes, rate) && CodesTellScores(nodes, rate)
    ensures Falls(r, rate)
  {
    OwnScoresIff(nodes, rate);
    forall i, j | 0 <= i < j < |r|
      ensures rate(r[i]) >= rate(r[j])
    {
      assert Above(Scores(nodes, rate), r[i], r[j]);
      assert r[i] in multiset(r) && r[j] in multiset(r);
      assert r[i] in multiset(nodes) && r[j] in multiset(nodes);
    }
  }

  lemma SomeRanking(nodes: seq<NodeId>, rate: NodeId -> real) returns (r: seq<NodeId>)
    ensures Ranked(r, nodes, rate)
  {
    var scores := Scores(nodes, rate);
    var above := (a: NodeId, b: NodeId) => Above(scores, a, b);
    r := Sorting.Sort(nodes, above);
    Sorting.SortSorts(nodes, above);
    forall i, j | 0 <= i < j < |r|
      ensures Above(scores, r[i], r[j])
    {
      assert above(r[i], r[j]);
    }
  }

  lemma PositionOf(r: seq<NodeId>, nodes: seq<NodeId>, n: NodeId) returns (i: nat)
    requires multiset(r) == multiset(nodes) && n in nodes
    ensures i < |r| && r[i] == n
  {
    assert n in multiset(nodes);
    assert n in multiset(r);
    i :| 0 <= i < |r| && r[i] == n;
  }

  /** Two nodes of one code may trade places in any ranking. */
  lemma Exchange(r: seq<NodeId>, nodes: seq<NodeId>, rate: NodeId -> real, p: nat, q: nat)
    requires Ranked(r, nodes, rate) && p < q < |r| && Code(r[p]) == Code(r[q])
    ensures Ranked(r[p := r[q]][q := r[p]], nodes, rate)
  {
    var x, scores := r[p := r[q]][q := r[p]], Scores(nodes, rate);
    assert multiset(x) == multiset(r);
    assert forall i :: 0 <= i < |r| ==> At(scores, x[i]) == At(scores, r[i]);
    forall i, j | 0 <= i < j < |x|
      ensures Above(scores, x[i], x[j])
    {
      assert Above(scores, r[i], r[j]);
    }
  }

  /** Every outcome of the sort is in falling order of the ratings exactly if nodes of one code have one rating. */
  lemma RankedByScoreIff(nodes: seq<NodeId>, rate: NodeId -> real)
    ensures (forall r :: Ranked(r, nodes, rate) ==> Falls(r, rate)) <==> CodesTellScores(nodes, rate)
  {
    if CodesTellScores(nodes, rate) {
      forall r | Ranked(r, nodes, rate)
        ensures Falls(r, rate)
      {
        RankedFalls(r, nodes, rate);
      }
    } else {
      var i, j :| 0 <= i < j < |nodes| && Code(nodes[i]) == Code(nodes[j]) && rate(nodes[i]) != rate(nodes[j]);
      var r := SomeRanking(nodes, rate);
      var a := PositionOf(r, nodes, nodes[i]);
      var b := PositionOf(r, nodes, nodes[j]);
      var p, q := if a < b then a else b, if a < b then b else a;
      Exchange(r, nodes, rate, p, q);
      var x := r[p := r[q]][q := r[p]];
      assert x[p] == r[q] && x[q] == r[p];
      assert !Falls(r, rate) || !Falls(x, rate);
    }
  }

  /** A node whose code is listed again with a worse rating always ranks below those in between. */
  lemma CollisionMisranks(r: seq<NodeId>, nodes: seq<NodeId>, rate: NodeId -> real, x: nat, y: nat, i: nat, j: nat)
    requires Ranked(r, nodes, rate) && i < |r| && j < |r| && x < |nodes| && y < |nodes|
    requires Code(r[i]) == Code(nodes[y]) && forall k :: y < k < |nodes| ==> Code(nodes[k]) != Code(nodes[y])
    requires r[j] == nodes[x] && forall k :: x < k < |nodes| ==> Code(nodes[k]) != Code(nodes[x])
    requires rate(nodes[y]) < rate(r[j]) < rate(r[i])
    ensures j < i
  {
    ScoreOfLast(nodes, rate, x);
    ScoreOfLast(nodes, rate, y);
    var scores := Scores(nodes, rate);
    assert !Above(scores, r[i], r[j]);
  }

  const LIKED: NodeId := [ED25519, 1, 2, 3, 4]
  const DISLIKED: NodeId := [ED25519, 1, 2, 3, 5]
  const UNKNOWN: NodeId := [ED25519, 9, 9, 9, 9]

  const TWO_VOTES := [Ballot(LIKED, true), Ballot(DISLIKED, false)]

  lemma RatesAfterTwoVotes(w: nat -> real, local: NodeId)
    requires NodeScore.Decay(w) && local !in {LIKED, DISLIKED, UNKNOWN}
    ensures var votes := AfterVotes(TWO_VOTES);
            Rate(w, local, votes, {}, DISLIKED) < Rate(w, local, votes, {}, UNKNOWN) < Rate(w, local, votes, {}, LIKED)
  {
    var one := [Ballot(LIKED, true)];
    assert one[..0] == [] && AfterVotes(one[..0]) == map[];
    var first := AfterVotes(one);
    assert TWO_VOTES[..1] == one;
    assert LIKED[4] != DISLIKED[4] && UNKNOWN[1] != LIKED[1] && UNKNOWN[1] != DISLIKED[1];
    assert first == map[LIKED := Votes(1, 0)];
    assert AfterVotes(TWO_VOTES) == first[DISLIKED := Votes(0, 1)];
    NodeScore.UpvoteRaises(w, 0, 0);
    NodeScore.DownvoteLowers(w, 0, 0);
  }

  lemma CodesOfThree()
    ensures Code(LIKED) == Code(DISLIKED) != Code(UNKNOWN)
  {
    SameCodeIff(LIKED, DISLIKED);
    SameCodeIff(LIKED, UNKNOWN);
    assert UNKNOWN[..4][1] != LIKED[..4][1];
    assert LIKED[..4] == DISLIKED[..4];
  }

  /** One upvote and one downvote are enough: the node voted up always ranks below one without votes. */
  lemma VotesMisrank(w: nat -> real, local: NodeId, r: seq<NodeId>, i: nat, j: nat)
    requires NodeScore.Decay(w) && local !in {LIKED, DISLIKED, UNKNOWN}
    requires Ranked(r, [LIKED, UNKNOWN, DISLIKED], n => Rate(w, local, AfterVotes(TWO_VOTES), {}, n))
    requires i < |r| && j < |r| && r[i] == LIKED && r[j] == UNKNOWN
    ensures Rate(w, local, AfterVotes(TWO_VOTES), {}, UNKNOWN) < Rate(w, local, AfterVotes(TWO_VOTES), {}, LIKED)
    ensures j < i
  {
    RatesAfterTwoVotes(w, local);
    CodesOfThree();
    CollisionMisranks(r, [LIKED, UNKNOWN, DISLIKED], n => Rate(w, local, AfterVotes(TWO_VOTES), {}, n), 1, 2, i, j);
  }
}
