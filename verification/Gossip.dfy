/** A network of registries exchanging entry records (service/default/registry.go). Each node runs
    Registry.Decide on its own bucket; a delivery is one step. */
module Gossip {
  import opened Base
  import Registry
  import RE = RegistryEntry
  import Sums

  type Node = int

  datatype Letter = Letter(source: Node, target: Node, message: Bytes)

  /** Every node's bucket, and the records in flight. Any of them may be delivered next. */
  datatype Net = Net(buckets: map<Node, map<Bytes, Bytes>>, mail: seq<Letter>)

  /** Receiving raw bytes: parse them, then Set. */
  function Receive(verify: RE.Verifier, bucket: map<Bytes, Bytes>, message: Bytes): Registry.Decision {
    match RE.Unmarshal(message)
    case Err(e) => Registry.Refuse(Registry.CorruptStore(e))
    case Ok(sre) => Registry.Decide(verify, bucket, sre, false)
  }

  function Copies(source: Node, targets: seq<Node>, message: Bytes): seq<Letter> {
    seq(|targets|, i requires 0 <= i < |targets| => Letter(source, targets[i], message))
  }

  function Without(mail: seq<Letter>, i: nat): seq<Letter>
    requires i < |mail|
  {
    mail[..i] + mail[i + 1..]
  }

  /** Deliver the i-th record. A record that is stored is broadcast to the given nodes, whichever they are. */
  function Deliver(verify: RE.Verifier, net: Net, i: nat, targets: seq<Node>): Net
    requires i < |net.mail| && net.mail[i].target in net.buckets
  {
    var l := net.mail[i];
    var bucket, rest := net.buckets[l.target], Without(net.mail, i);
    match Receive(verify, bucket, l.message)
    case Refuse(_) => Net(net.buckets, rest)
    case Known => Net(net.buckets, rest)
    case Stale(newer) => Net(net.buckets, rest + [Letter(l.target, l.source, newer)])
    case Store(record) =>
      Net(net.buckets[l.target := bucket[RE.Unmarshal(l.message).value.pk := record]],
          rest + Copies(l.target, targets, record))
  }

  predicate Addressed(l: Letter, nodes: set<Node>, keys: set<Bytes>) {
    && l.source in nodes && l.target in nodes
    && (RE.Unmarshal(l.message).Ok? ==> RE.Unmarshal(l.message).value.pk in keys)
  }

  /** keys are the keys of the records in flight. */
  ghost predicate Inv(verify: RE.Verifier, net: Net, nodes: set<Node>, keys: set<Bytes>) {
    && net.buckets.Keys == nodes
    && (forall n :: n in nodes ==> Registry.BucketOk(verify, net.buckets[n]))
    && (forall l :: l in net.mail ==> Addressed(l, nodes, keys))
  }

  ghost predicate Step(verify: RE.Verifier, net: Net, next: Net, nodes: set<Node>) {
    exists i: nat, targets: seq<Node> ::
      i < |net.mail| && net.mail[i].target in net.buckets && (forall t :: t in targets ==> t in nodes)
      && next == Deliver(verify, net, i, targets)
  }

  /** How far a record is from the highest revision, and at least one: each delivery is something. */
  function Weight(l: Letter): (w: nat)
    ensures w > 0
  {
    match RE.Unmarshal(l.message)
    case Err(_) => 1
    case Ok(e) => if e.revision <= Registry.MAX_REVISION then Registry.MAX_REVISION - e.revision + 1 else 1
  }

  function Weights(mail: seq<Letter>): nat {
    if mail == [] then 0 else Weights(mail[..|mail| - 1]) + Weight(mail[|mail| - 1])
  }

  lemma {:induction false} WeightsConcat(a: seq<Letter>, b: seq<Letter>)
    ensures Weights(a + b) == Weights(a) + Weights(b)
  {
    if b == [] {
      assert a + b == a;
    } else {
      WeightsConcat(a, b[..|b| - 1]);
      assert (a + b)[..|a + b| - 1] == a + b[..|b| - 1];
    }
  }

  lemma WeightsAround(a: seq<Letter>, l: Letter, b: seq<Letter>)
    ensures Weights((a + [l]) + b) == Weights(a + b) + Weight(l)
  {
    WeightsConcat(a, b);
    WeightsConcat(a + [l], b);
    assert (a + [l])[..|a|] == a;
  }

  lemma WeightsWithout(mail: seq<Letter>, i: nat)
    requires i < |mail|
    ensures Weights(mail) == Weights(Without(mail, i)) + Weight(mail[i])
  {
    var a, l, b := Slices(mail, i);
    WeightsAround(a, l, b);
  }

  lemma Slices(mail: seq<Letter>, i: nat) returns (a: seq<Letter>, l: Letter, b: seq<Letter>)
    requires i < |mail|
    ensures l == mail[i] && mail == (a + [l]) + b && Without(mail, i) == a + b
  {
    a, l, b := mail[..i], mail[i], mail[i + 1..];
  }

  /** A node's register for a key. */
  datatype Slot = Slot(node: Node, key: Bytes)

  /** What a register still has to gain. */
  function Gap(net: Net): Slot -> nat {
    (slot: Slot) =>
      var stored := if slot.node in net.buckets then Registry.StoredRevision(net.buckets[slot.node], slot.key) else -1;
      if stored <= Registry.MAX_REVISION then Registry.MAX_REVISION - stored else 0
  }

  function Slots(nodes: set<Node>, keys: set<Bytes>): set<Slot> {
    set n, k | n in nodes && k in keys :: Slot(n, k)
  }

  ghost function ToGain(net: Net, nodes: set<Node>, keys: set<Bytes>): nat {
    Sums.Sum(Slots(nodes, keys), Gap(net))
  }

  /** The outcomes of a delivery, in terms of revisions. */
  lemma Outcome(verify: RE.Verifier, bucket: map<Bytes, Bytes>, message: Bytes)
    requires Registry.Sound(verify) && Registry.BucketOk(verify, bucket)
    ensures match Receive(verify, bucket, message)
      case Stale(newer) =>
        && RE.Unmarshal(message).Ok? && RE.Unmarshal(newer).Ok?
        && RE.Unmarshal(newer).value.pk == RE.Unmarshal(message).value.pk
        && RE.Unmarshal(message).value.revision < RE.Unmarshal(newer).value.revision <= Registry.MAX_REVISION
      case Store(record) =>
        && RE.Unmarshal(message).Ok?
        && var e := RE.Unmarshal(message).value;
           && RE.Unmarshal(record) == Ok(e) && Registry.BucketOk(verify, bucket[e.pk := record])
           && Registry.StoredRevision(bucket, e.pk) < e.revision <= Registry.MAX_REVISION
      case _ => true
  {
    if RE.Unmarshal(message).Ok? {
      var e := RE.Unmarshal(message).value;
      if Registry.Valid(verify, e) {
        Registry.ValidRoundTrip(verify, e);
        if e.pk in bucket {
          assert Registry.Meaningful(verify, e.pk, bucket[e.pk]);
          Registry.ValidRoundTrip(verify, RE.Unmarshal(bucket[e.pk]).value);
        }
      }
    }
  }

  lemma InMail(mail: seq<Letter>, i: nat, extra: seq<Letter>, l: Letter)
    requires i < |mail|
    ensures l in Without(mail, i) + extra ==> l in mail || l in extra
  {
  }

  lemma InvKept(verify: RE.Verifier, net: Net, i: nat, targets: seq<Node>, nodes: set<Node>, keys: set<Bytes>)
    requires Registry.Sound(verify) && Inv(verify, net, nodes, keys)
    requires i < |net.mail| && (forall t :: t in targets ==> t in nodes)
    ensures net.mail[i].target in net.buckets && Inv(verify, Deliver(verify, net, i, targets), nodes, keys)
  {
    var l := net.mail[i];
    assert l in net.mail;
    Outcome(verify, net.buckets[l.target], l.message);
    var next := Deliver(verify, net, i, targets);
    forall m | m in next.mail
      ensures Addressed(m, nodes, keys)
    {
      var extra := next.mail[|net.mail| - 1..];
      assert next.mail == Without(net.mail, i) + extra;
      InMail(net.mail, i, extra, m);
    }
  }

  /** Every delivery brings the network closer to rest: a register gains, or the mail gets lighter. */
  lemma StepDecreases(verify: RE.Verifier, net: Net, i: nat, targets: seq<Node>, nodes: set<Node>, keys: set<Bytes>)
    requires Registry.Sound(verify) && Inv(verify, net, nodes, keys)
    requires i < |net.mail| && net.mail[i].target in net.buckets
    ensures var next := Deliver(verify, net, i, targets);
      || ToGain(next, nodes, keys) < ToGain(net, nodes, keys)
      || (ToGain(next, nodes, keys) == ToGain(net, nodes, keys) && Weights(next.mail) < Weights(net.mail))
  {
    var l := net.mail[i];
    assert l in net.mail;
    var bucket, rest := net.buckets[l.target], Without(net.mail, i);
    Outcome(verify, bucket, l.message);
    WeightsWithout(net.mail, i);
    var next := Deliver(verify, net, i, targets);
    match Receive(verify, bucket, l.message)
    case Refuse(_) =>
    case Known =>
    case Stale(newer) => {
      var reply := Letter(l.target, l.source, newer);
      WeightsConcat(rest, [reply]);
      assert [reply][..0] == [];
    }
    case Store(record) => {
      var k := RE.Unmarshal(l.message).value.pk;
      assert Slot(l.target, k) in Slots(nodes, keys);
      Sums.SumChange(Slots(nodes, keys), Gap(net), Gap(next), Slot(l.target, k));
    }
  }

  ghost predicate StepAt(verify: RE.Verifier, run: nat -> Net, i: nat, nodes: set<Node>) {
    Step(verify, run(i), run(i + 1), nodes)
  }

  /** Gossip comes to rest: no network, whatever is in flight and whoever records are broadcast to,
      can go on delivering for ever. */
  lemma GossipQuiesces(verify: RE.Verifier, run: nat -> Net, nodes: set<Node>)
    requires Registry.Sound(verify)
    requires run(0).buckets.Keys == nodes && forall n :: n in nodes ==> Registry.BucketOk(verify, run(0).buckets[n])
    requires forall l :: l in run(0).mail ==> l.source in nodes && l.target in nodes
    ensures exists i: nat :: !Step(verify, run(i), run(i + 1), nodes)
  {
    var keys := set l | l in run(0).mail && RE.Unmarshal(l.message).Ok? :: RE.Unmarshal(l.message).value.pk;
    if forall i: nat :: StepAt(verify, run, i, nodes) {
      NoEndlessRun(verify, run, 0, nodes, keys);
    }
  }

  lemma NoEndlessRun(verify: RE.Verifier, run: nat -> Net, i: nat, nodes: set<Node>, keys: set<Bytes>)
    requires Registry.Sound(verify) && Inv(verify, run(i), nodes, keys)
    requires forall j: nat :: StepAt(verify, run, j, nodes)
    ensures false
    decreases ToGain(run(i), nodes, keys), Weights(run(i).mail)
  {
    assert StepAt(verify, run, i, nodes);
    StepFalls(verify, run(i), run(i + 1), nodes, keys);
    NoEndlessRun(verify, run, i + 1, nodes, keys);
  }

  lemma DeliveryOf(verify: RE.Verifier, net: Net, next: Net, nodes: set<Node>) returns (i: nat, targets: seq<Node>)
    requires Step(verify, net, next, nodes)
    ensures i < |net.mail| && net.mail[i].target in net.buckets && (forall t :: t in targets ==> t in nodes)
    ensures next == Deliver(verify, net, i, targets)
  {
    i, targets :| i < |net.mail| && net.mail[i].target in net.buckets && (forall t :: t in targets ==> t in nodes)
                  && next == Deliver(verify, net, i, targets);
  }

  lemma StepFalls(verify: RE.Verifier, net: Net, next: Net, nodes: set<Node>, keys: set<Bytes>)
    requires Registry.Sound(verify) && Inv(verify, net, nodes, keys) && Step(verify, net, next, nodes)
    ensures Inv(verify, next, nodes, keys)
    ensures ToGain(next, nodes, keys) < ToGain(net, nodes, keys)
         || (ToGain(next, nodes, keys) == ToGain(net, nodes, keys) && Weights(next.mail) < Weights(net.mail))
  {
    var i, targets := DeliveryOf(verify, net, next, nodes);
    InvKept(verify, net, i, targets, nodes, keys);
    StepDecreases(verify, net, i, targets, nodes, keys);
  }

  // What a stale sender ends up with.

  /** What a node's bucket holds under a key, read. */
  function Register(net: Net, n: Node, k: Bytes): Option<RE.Entry> {
    if n in net.buckets && k in net.buckets[n] && RE.Unmarshal(net.buckets[n][k]).Ok?
    then Some(RE.Unmarshal(net.buckets[n][k]).value) else None
  }

  /** Delivering a valid entry: the target's register holds it from then on if it held nothing or a
      lower revision, and is left alone otherwise. No other register changes. */
  lemma DeliveredEntry(verify: RE.Verifier, net: Net, i: nat, targets: seq<Node>, e: RE.Entry)
    requires Registry.Sound(verify) && i < |net.mail| && net.mail[i].target in net.buckets
    requires Registry.BucketOk(verify, net.buckets[net.mail[i].target])
    requires RE.Unmarshal(net.mail[i].message) == Ok(e) && Registry.Valid(verify, e)
    ensures var t, next := net.mail[i].target, Deliver(verify, net, i, targets);
      && Register(next, t, e.pk) == (match Register(net, t, e.pk)
                                     case None => Some(e)
                                     case Some(kept) => Some(if kept.revision < e.revision then e else kept))
      && forall n, k :: n != t || k != e.pk ==> Register(next, n, k) == Register(net, n, k)
  {
    var l, bucket := net.mail[i], net.buckets[net.mail[i].target];
    Registry.DecideExplained(verify, bucket, e, false);
    Registry.ValidRoundTrip(verify, e);
    if e.pk in bucket {
      assert Registry.Meaningful(verify, e.pk, bucket[e.pk]);
    }
  }

  /** A stale entry is answered: the answer goes back to its source, carries the answerer's own entry,
      and is valid for any node; no register changes. */
  lemma StaleIsAnswered(verify: RE.Verifier, net: Net, i: nat, targets: seq<Node>, e: RE.Entry)
    requires i < |net.mail| && net.mail[i].target in net.buckets
    requires Registry.BucketOk(verify, net.buckets[net.mail[i].target])
    requires RE.Unmarshal(net.mail[i].message) == Ok(e) && Registry.Valid(verify, e)
    requires var held := Register(net, net.mail[i].target, e.pk); held.Some? && held.value.revision > e.revision
    ensures var l, next := net.mail[i], Deliver(verify, net, i, targets);
      var held := Register(net, l.target, e.pk);
      && |next.mail| == |net.mail| && next.buckets == net.buckets
      && var answer := next.mail[|next.mail| - 1];
         && answer.source == l.target && answer.target == l.source
         && RE.Unmarshal(answer.message) == Ok(held.value) && held.value.pk == e.pk
         && Registry.Valid(verify, held.value)
  {
    var l, bucket := net.mail[i], net.buckets[net.mail[i].target];
    Registry.DecideExplained(verify, bucket, e, false);
    Registry.StaleIsStored(verify, bucket, e, false);
  }

  /** News is passed on: an entry that was stored leaves for every node broadcast to, from its new holder. */
  lemma NewsIsBroadcast(verify: RE.Verifier, net: Net, i: nat, targets: seq<Node>, e: RE.Entry, k: nat)
    requires i < |net.mail| && net.mail[i].target in net.buckets && k < |targets|
    requires Registry.Sound(verify) && Registry.BucketOk(verify, net.buckets[net.mail[i].target])
    requires RE.Unmarshal(net.mail[i].message) == Ok(e) && Registry.Valid(verify, e)
    requires var held := Register(net, net.mail[i].target, e.pk); held.Some? ==> held.value.revision < e.revision
    ensures var l, next := net.mail[i], Deliver(verify, net, i, targets);
      && |next.mail| == |net.mail| - 1 + |targets|
      && var copy := next.mail[|net.mail| - 1 + k];
         copy.source == l.target && copy.target == targets[k] && RE.Unmarshal(copy.message) == Ok(e)
  {
    var bucket := net.buckets[net.mail[i].target];
    Registry.DecideExplained(verify, bucket, e, false);
    Registry.ValidRoundTrip(verify, e);
    if e.pk in bucket {
      assert Registry.Meaningful(verify, e.pk, bucket[e.pk]);
    }
  }

  /** A node that sent out a revision older than the receiver's is brought up to date: once the answer
      is delivered, whatever happened in between, it holds the entry the receiver held, unless it had
      got that revision or a later one by then. */
  lemma SenderCatchesUp(verify: RE.Verifier, net: Net, i: nat, e: RE.Entry, later: Net, j: nat,
                        targets: seq<Node>, others: seq<Node>)
    requires Registry.Sound(verify)
    requires i < |net.mail| && net.mail[i].target in net.buckets && net.mail[i].source in net.buckets
    requires Registry.BucketOk(verify, net.buckets[net.mail[i].target])
    requires RE.Unmarshal(net.mail[i].message) == Ok(e) && Registry.Valid(verify, e)
    requires var held := Register(net, net.mail[i].target, e.pk); held.Some? && held.value.revision > e.revision
    requires j < |later.mail| && later.mail[j] == Deliver(verify, net, i, targets).mail[|net.mail| - 1]
    requires later.mail[j].target in later.buckets
    requires Registry.BucketOk(verify, later.buckets[later.mail[j].target])
    ensures var sender, held := net.mail[i].source, Register(net, net.mail[i].target, e.pk).value;
      Register(Deliver(verify, later, j, others), sender, e.pk) ==
        match Register(later, sender, e.pk)
        case None => Some(held)
        case Some(own) => Some(if own.revision < held.revision then held else own)
  {
    StaleIsAnswered(verify, net, i, targets, e);
    var held := Register(net, net.mail[i].target, e.pk).value;
    DeliveredEntry(verify, later, j, others, held);
  }

  // Whom the broadcast reaches as written.

  /** A stored record goes back to where it came from, if that is still a peer, and nowhere else (line 161). */
  ghost predicate StepAsWritten(verify: RE.Verifier, net: Net, next: Net) {
    exists i: nat, targets: seq<Node> ::
      i < |net.mail| && net.mail[i].target in net.buckets && (targets == [] || targets == [net.mail[i].source])
      && next == Deliver(verify, net, i, targets)
  }

  ghost predicate RunAsWritten(verify: RE.Verifier, run: seq<Net>) {
    run != [] && forall i :: 0 < i < |run| ==> StepAsWritten(verify, run[i - 1], run[i])
  }

  /** n is at neither end of any link that carries mail. */
  predicate Bystander(mail: seq<Letter>, n: Node) {
    forall l :: l in mail ==> l.source != n && l.target != n
  }

  lemma BystanderKept(verify: RE.Verifier, net: Net, i: nat, targets: seq<Node>, n: Node)
    requires Bystander(net.mail, n) && n in net.buckets
    requires i < |net.mail| && net.mail[i].target in net.buckets && (targets == [] || targets == [net.mail[i].source])
    ensures var next := Deliver(verify, net, i, targets);
      Bystander(next.mail, n) && n in next.buckets && next.buckets[n] == net.buckets[n]
  {
    var l, next := net.mail[i], Deliver(verify, net, i, targets);
    assert l in net.mail;
    forall m | m in next.mail
      ensures m.source != n && m.target != n
    {
      var extra := next.mail[|net.mail| - 1..];
      assert next.mail == Without(net.mail, i) + extra;
      InMail(net.mail, i, extra, m);
    }
  }

  /** As written, news never spreads: a node that no record was travelling to or from when a run began
      has the same bucket, to the byte, when it ends. */
  lemma {:induction false} NewsStaysOnItsLink(verify: RE.Verifier, run: seq<Net>, n: Node)
    requires RunAsWritten(verify, run)
    requires Bystander(run[0].mail, n) && n in run[0].buckets
    ensures var last := run[|run| - 1];
            Bystander(last.mail, n) && n in last.buckets && last.buckets[n] == run[0].buckets[n]
  {
    if |run| > 1 {
      var front := run[..|run| - 1];
      NewsStaysOnItsLink(verify, front, n);
      var net, next := run[|run| - 2], run[|run| - 1];
      assert StepAsWritten(verify, net, next);
      BystanderStep(verify, net, next, n);
    }
  }

  lemma BystanderStep(verify: RE.Verifier, net: Net, next: Net, n: Node)
    requires StepAsWritten(verify, net, next) && Bystander(net.mail, n) && n in net.buckets
    ensures Bystander(next.mail, n) && n in next.buckets && next.buckets[n] == net.buckets[n]
  {
    var i: nat, targets: seq<Node> :|
      i < |net.mail| && net.mail[i].target in net.buckets && (targets == [] || targets == [net.mail[i].source])
      && next == Deliver(verify, net, i, targets);
    BystanderKept(verify, net, i, targets, n);
  }
}
