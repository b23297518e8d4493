/** One node's part in the hash-query flood: the routing table, and what a query or a location
    announcement makes the node send (protocol/hash_query.go, protocol/storage_location.go,
    SendHashRequest in service/default/p2p.go). */
module HashRouter {
  import opened Base
  import A = Announcement
  import L = Locations

  /** What travels: a query forwarded as received, or the raw bytes of an announcement. */
  datatype Packet = Query(hash: Bytes, kinds: seq<int>) | Record(message: Bytes)

  /** types.StorageLocationTypeFile, asked for when a request names no kind. */
  const KIND_FILE := 3

  /** The provider store's answer for a hash: it cannot provide, it fails, or it has a location. */
  datatype Provision = Nothing | Failed | Provided(location: A.Location)

  function EntryOf<Key, Id>(table: map<Key, set<Id>>, hash: Key): Option<set<Id>> {
    if hash in table then Some(table[hash]) else None
  }

  function Requesters<Id>(entry: Option<set<Id>>): set<Id> {
    if entry.Some? then entry.value else {}
  }

  /** A query adds its sender to the entry, creating the entry if need be. */
  function EntryAfterQuery<Id>(entry: Option<set<Id>>, sender: Id): set<Id> {
    Requesters(entry) + {sender}
  }

  /** Only the query that creates the entry is passed on, to every peer but its sender. */
  function FloodTargets<Id>(entry: Option<set<Id>>, peers: set<Id>, sender: Id): set<Id> {
    if entry.None? then peers - {sender} else {}
  }

  /** A requester gets an announcement unless it made it, is no longer a peer, or cannot be written to.
      The peer the announcement came from is not left out: storage_location.go:103 compares a node id
      with a peer, which is never equal. */
  predicate Served<Id(==)>(t: Id, announcer: Id, peers: set<Id>, reachable: set<Id>) {
    t != announcer && t in peers && t in reachable
  }

  /** Having come to t, the relay loop removes the entry: t was served, or is no longer a peer. */
  predicate Settles<Id(==)>(t: Id, announcer: Id, peers: set<Id>, reachable: set<Id>) {
    t != announcer && (t !in peers || t in reachable)
  }

  function RelaySent<Id(==)>(entry: Option<set<Id>>, announcer: Id, peers: set<Id>, reachable: set<Id>): set<Id> {
    set t | t in Requesters(entry) && Served(t, announcer, peers, reachable)
  }

  predicate Drops<Id(==)>(entry: Option<set<Id>>, announcer: Id, peers: set<Id>, reachable: set<Id>) {
    exists t :: t in Requesters(entry) && Settles(t, announcer, peers, reachable)
  }

  /** One copy of a packet for every target. */
  ghost function ToAll(targets: set<NodeId>, p: Packet): multiset<(NodeId, Packet)> {
    if targets == {} then multiset{} else var t :| t in targets; ToAll(targets - {t}, p) + multiset{(t, p)}
  }

  /** What is sent back for a query: a stored announcement, and the node's own, where there are such. */
  function Replies<P>(stored: Option<P>, own: Option<P>): multiset<P> {
    (if stored.Some? then multiset{stored.value} else multiset{})
    + (if own.Some? then multiset{own.value} else multiset{})
  }

  /** A packet to one node, if there is one to send. */
  function ToOne(target: NodeId, p: Option<Packet>): multiset<(NodeId, Packet)> {
    if p.Some? then multiset{(target, p.value)} else multiset{}
  }

  function Addressed<P>(target: NodeId, p: Option<P>): Option<(NodeId, P)> {
    if p.Some? then Some((target, p.value)) else None
  }

  /** Replying from the store succeeds: it can be read, and the best-ranked node's announcement is sent, if any. */
  predicate StoreReplies(available: set<NodeId>, readOk: bool, rank: set<NodeId> -> Option<NodeId>, reachable: bool) {
    readOk && (available == {} || (rank(available).Some? && reachable))
  }

  predicate OwnReplies(provision: Provision, reachable: bool) {
    provision.Nothing? || (provision.Provided? && reachable)
  }

  lemma KeysAvailable(db: L.LocationMap, kinds: seq<int>, now: int, keys: set<NodeId>)
    requires forall n :: L.Lookup(db, kinds, n, now).Some? <==> n in keys
    ensures keys == L.Available(db, kinds, now)
  {
    forall n
      ensures n in keys <==> n in L.Available(db, kinds, now)
    {
      L.LookupAvailable(db, kinds, now, n);
    }
  }

  /** The stored announcement of node, as found for a query of these kinds at time now. */
  function CachedReply(db: L.LocationMap, kinds: seq<int>, now: int, node: Option<NodeId>): Option<Packet> {
    if node.None? then None
    else match L.Lookup(db, kinds, node.value, now)
      case None => None
      case Some(l) => Some(Record(l.providerMessage))
  }

  /** The node's own announcement. */
  function OwnReply(identity: A.KeyPair, hash: Bytes, provision: Provision): Option<Packet> {
    match provision
    case Provided(location) =>
      Some(Record(A.Printed(hash, location, identity.publicKey, identity.sign(A.SignedBytes(hash, location)))))
    case _ => None
  }

  lemma {:induction false} ToAllCounts(targets: set<NodeId>, p: Packet, t: NodeId, q: Packet)
    ensures ToAll(targets, p)[(t, q)] == if t in targets && q == p then 1 else 0
  {
    if targets != {} {
      var u :| u in targets && ToAll(targets, p) == ToAll(targets - {u}, p) + multiset{(u, p)};
      ToAllCounts(targets - {u}, p, t, q);
    }
  }

  lemma ToAllSnoc(targets: set<NodeId>, t: NodeId, p: Packet)
    requires t !in targets
    ensures ToAll(targets + {t}, p) == ToAll(targets, p) + multiset{(t, p)}
  {
    forall x: (NodeId, Packet)
      ensures ToAll(targets + {t}, p)[x] == (ToAll(targets, p) + multiset{(t, p)})[x]
    {
      ToAllCounts(targets + {t}, p, x.0, x.1);
      ToAllCounts(targets, p, x.0, x.1);
    }
  }

  /** Sending one more packet after the targets served so far. */
  lemma SendOneMore(before: multiset<(NodeId, Packet)>, targets: set<NodeId>, t: NodeId, p: Packet)
    requires t !in targets
    ensures (before + ToAll(targets, p)) + ToOne(t, Some(p)) == before + ToAll(targets + {t}, p)
  {
    ToAllSnoc(targets, t, p);
  }

  lemma RepliesAre(sender: NodeId, stored: Option<Packet>, own: Option<Packet>)
    ensures Replies(Addressed(sender, stored), Addressed(sender, own)) == ToOne(sender, stored) + ToOne(sender, own)
  {
  }

  predicate Authentic(verify: (Bytes, Bytes, Bytes) -> bool, a: A.Announcement)
    requires |a.publicKey| > 0
  {
    verify(a.publicKey[1..], a.signed, a.signature)
  }

  /** m is an announcement of location under hash by this node: it parses to exactly that, and the
      signature is over the signed bytes. */
  ghost predicate Announces(identity: A.KeyPair, hash: Bytes, location: A.Location, m: Bytes) {
    match A.Parse(m)
    case Err(_) => false
    case Ok(a) =>
      && a.hash == hash && a.location == location && a.publicKey == identity.publicKey
      && a.signed == A.SignedBytes(hash, location) && a.signature == identity.sign(a.signed)
      && m == a.signed + a.publicKey + a.signature
  }

  /** What the node sends of its own in answer to a query: the one announcement of the location in
      range, and nothing if it has no location. */
  lemma OwnReplyAnnounces(identity: A.KeyPair, hash: Bytes, provision: Provision)
    ensures OwnReply(identity, hash, provision).Some? <==> provision.Provided?
    ensures provision.Provided? && A.InRange(hash, provision.location, identity.publicKey) ==>
      forall m :: Announces(identity, hash, provision.location, m)
                  <==> OwnReply(identity, hash, provision) == Some(Record(m))
  {
    if provision.Provided? && A.InRange(hash, provision.location, identity.publicKey) {
      A.ParsePrinted(hash, provision.location, identity.publicKey,
                     identity.sign(A.SignedBytes(hash, provision.location)));
    }
  }

  /** Behind a store whose records are vouched for, what is sent back is an unexpired announcement of
      the hash, of a kind asked for, by the node named and under its signature. */
  lemma {:induction false} RepliesAreVouched(verify: (Bytes, Bytes, Bytes) -> bool, bucket: map<Bytes, L.LocationMap>,
                                             hash: Bytes, kinds: seq<int>, node: NodeId, now: int)
    requires Vouched(verify, bucket) && L.Lookup(L.ReadMap(bucket, hash), kinds, node, now).Some?
    ensures var m := L.Lookup(L.ReadMap(bucket, hash), kinds, node, now).value.providerMessage;
      match A.Parse(m)
      case Err(_) => false
      case Ok(a) =>
        && a.hash == hash && a.publicKey == node && a.location.kind in kinds && a.location.expiry >= now
        && verify(node[1..], a.signed, a.signature)
    decreases |kinds|
  {
    var last := |kinds| - 1;
    if L.Live(L.ReadMap(bucket, hash), kinds[last], node, now) {
      assert Recorded(bucket, hash, kinds[last], node);
    } else {
      RepliesAreVouched(verify, bucket, hash, kinds[..last], node, now);
    }
  }

  /** Whatever was added, the announcement sent back for node is the message of its last addition of
      the last listed kind that has an unexpired one, and there is none without such an addition. */
  lemma ReplyIsLastAnnouncement(adds: seq<L.Addition>, hash: Bytes, kinds: seq<int>, node: NodeId, now: int)
    ensures var reply := CachedReply(L.ReadMap(L.AddAll(adds), hash), kinds, now, Some(node));
      && (reply.Some? <==> exists i: nat, k: nat :: L.Answer(adds, i, hash, kinds, k, node, now))
      && forall i: nat, k: nat :: L.Answer(adds, i, hash, kinds, k, node, now) ==>
           reply == Some(Record(adds[i].message))
  {
    L.LookupIsLastWriter(adds, hash, kinds, node, now);
  }

  /** A stored record is vouched for when its message is an announcement of it, for this hash and
      this kind, signed by the node it is stored for. */
  ghost predicate VouchedFor(verify: (Bytes, Bytes, Bytes) -> bool, hash: Bytes, kind: int, node: NodeId, r: L.Record) {
    match A.Parse(r.message)
    case Err(_) => false
    case Ok(a) =>
      && a.hash == hash && a.publicKey == node && a.location == A.Location(kind, r.expiry, r.parts)
      && r.message == a.signed + a.publicKey + a.signature && verify(node[1..], a.signed, a.signature)
  }

  ghost predicate Vouched(verify: (Bytes, Bytes, Bytes) -> bool, bucket: map<Bytes, L.LocationMap>) {
    forall hash, kind, node :: Recorded(bucket, hash, kind, node) ==>
      VouchedFor(verify, hash, kind, node, L.ReadMap(bucket, hash)[kind][node])
  }

  predicate Recorded(bucket: map<Bytes, L.LocationMap>, hash: Bytes, kind: int, node: NodeId) {
    kind in L.ReadMap(bucket, hash) && node in L.ReadMap(bucket, hash)[kind]
  }

  lemma AddElsewhere(bucket: map<Bytes, L.LocationMap>, a: L.Addition, hash: Bytes, kind: int, node: NodeId)
    requires !L.Concerns(a, hash, kind, node)
    ensures Recorded(L.Add(bucket, a), hash, kind, node) <==> Recorded(bucket, hash, kind, node)
    ensures Recorded(bucket, hash, kind, node) ==>
      L.ReadMap(L.Add(bucket, a), hash)[kind][node] == L.ReadMap(bucket, hash)[kind][node]
  {
  }

  /** Storing an announcement that verifies keeps every record vouched for. */
  lemma VouchedKept(verify: (Bytes, Bytes, Bytes) -> bool, bucket: map<Bytes, L.LocationMap>, msg: Bytes)
    requires Vouched(verify, bucket) && A.Parse(msg).Ok? && Authentic(verify, A.Parse(msg).value)
    ensures var a := A.Parse(msg).value;
      Vouched(verify, L.Add(bucket, L.Addition(a.hash, a.publicKey, a.location, msg)))
  {
    A.ParsedInRange(msg);
    var a := A.Parse(msg).value;
    var added := L.Addition(a.hash, a.publicKey, a.location, msg);
    assert VouchedFor(verify, a.hash, a.location.kind, a.publicKey, L.Stored(added));
    forall hash, kind, node
      ensures Recorded(L.Add(bucket, added), hash, kind, node) ==>
        VouchedFor(verify, hash, kind, node, L.ReadMap(L.Add(bucket, added), hash)[kind][node])
    {
      if !L.Concerns(added, hash, kind, node) {
        AddElsewhere(bucket, added, hash, kind, node);
      }
    }
  }

  /** The store after one message; stored is false when the bucket fails. */
  function AfterMessage(verify: (Bytes, Bytes, Bytes) -> bool, bucket: map<Bytes, L.LocationMap>,
                        msg: Bytes, stored: bool): map<Bytes, L.LocationMap> {
    match A.Parse(msg)
    case Err(_) => bucket
    case Ok(a) =>
      if Authentic(verify, a) && stored then L.Add(bucket, L.Addition(a.hash, a.publicKey, a.location, msg)) else bucket
  }

  function AfterMessages(verify: (Bytes, Bytes, Bytes) -> bool, msgs: seq<(Bytes, bool)>): map<Bytes, L.LocationMap> {
    if msgs == [] then map[]
    else
      var last := msgs[|msgs| - 1];
      AfterMessage(verify, AfterMessages(verify, msgs[..|msgs| - 1]), last.0, last.1)
  }

  /** Whatever arrives and whatever fails, every stored record is vouched for by its own message. */
  lemma {:induction false} StoreIsVouched(verify: (Bytes, Bytes, Bytes) -> bool, msgs: seq<(Bytes, bool)>)
    ensures Vouched(verify, AfterMessages(verify, msgs))
  {
    if msgs != [] {
      var front, last := msgs[..|msgs| - 1], msgs[|msgs| - 1];
      StoreIsVouched(verify, front);
      if A.Parse(last.0).Ok? && Authentic(verify, A.Parse(last.0).value) {
        VouchedKept(verify, AfterMessages(verify, front), last.0);
      }
    }
  }

  /** A printed announcement in range is authentic exactly if its signature verifies. */
  lemma PrintedVerifies(verify: (Bytes, Bytes, Bytes) -> bool, msg: Bytes)
    ensures forall hash, location, publicKey, signature ::
      msg == A.Printed(hash, location, publicKey, signature) && A.InRange(hash, location, publicKey) ==>
        && A.Parse(msg).Ok?
        && (Authentic(verify, A.Parse(msg).value)
            <==> verify(publicKey[1..], A.SignedBytes(hash, location), signature))
  {
    forall hash, location, publicKey, signature
      | msg == A.Printed(hash, location, publicKey, signature) && A.InRange(hash, location, publicKey)
      ensures A.Parse(msg) == Ok(A.Announcement(hash, location, publicKey, signature, A.SignedBytes(hash, location)))
    {
      A.ParsePrinted(hash, location, publicKey, signature);
    }
  }

  lemma AcceptedIsVouched(verify: (Bytes, Bytes, Bytes) -> bool, bucket: map<Bytes, L.LocationMap>, msg: Bytes)
    requires A.Parse(msg).Ok?
    ensures var a := A.Parse(msg).value;
      Vouched(verify, bucket) && Authentic(verify, a) ==>
        Vouched(verify, L.Add(bucket, L.Addition(a.hash, a.publicKey, a.location, msg)))
  {
    if Vouched(verify, bucket) && Authentic(verify, A.Parse(msg).value) {
      VouchedKept(verify, bucket, msg);
    }
  }

  /** One copy of p more is sent to each target, and nothing else. */
  ghost predicate OneCopyEach(before: multiset<(NodeId, Packet)>, after: multiset<(NodeId, Packet)>,
                              targets: set<NodeId>, p: Packet) {
    forall t, q :: after[(t, q)] == before[(t, q)] + if t in targets && q == p then 1 else 0
  }

  lemma ToAllIsOneEach(before: multiset<(NodeId, Packet)>, targets: set<NodeId>, p: Packet)
    ensures OneCopyEach(before, before + ToAll(targets, p), targets, p)
  {
    forall t, q
      ensures ToAll(targets, p)[(t, q)] == if t in targets && q == p then 1 else 0
    {
      ToAllCounts(targets, p, t, q);
    }
  }

  /** The relay told without the functions that compute it. */
  lemma RelayExplained(entry: Option<set<NodeId>>, announcer: NodeId, peers: set<NodeId>, reachable: set<NodeId>,
                       before: multiset<(NodeId, Packet)>, p: Packet)
    ensures var list := if entry.Some? then entry.value else {};
      && OneCopyEach(before, before + ToAll(RelaySent(entry, announcer, peers, reachable), p),
                     (set t | t in list && t != announcer && t in peers && t in reachable), p)
      && (Drops(entry, announcer, peers, reachable)
          <==> exists t :: t in list && t != announcer && (t in peers ==> t in reachable))
  {
    ToAllIsOneEach(before, RelaySent(entry, announcer, peers, reachable), p);
    forall t
      ensures t in Requesters(entry) && Settles(t, announcer, peers, reachable)
        <==> t in Requesters(entry) && t != announcer && (t in peers ==> t in reachable)
    {
    }
  }

  /** What is sent between two moments: to the sender exactly the packets stored and own where there
      are such, to each flooded node one q, and nothing else. */
  ghost predicate GainedByQuery(before: multiset<(NodeId, Packet)>, after: multiset<(NodeId, Packet)>, sender: NodeId,
                                stored: Option<Packet>, own: Option<Packet>, flood: set<NodeId>, q: Packet) {
    && (forall p :: after[(sender, p)] == before[(sender, p)] + (if stored == Some(p) then 1 else 0)
                                          + (if own == Some(p) then 1 else 0))
    && (forall t, p :: t != sender ==> after[(t, p)] == before[(t, p)] + if t in flood && p == q then 1 else 0)
  }

  /** One more announcement of the location, by this node and under its signature, is sent to the sender. */
  ghost predicate GainsAnnouncement(before: multiset<(NodeId, Packet)>, after: multiset<(NodeId, Packet)>,
                                    sender: NodeId, identity: A.KeyPair, hash: Bytes, location: A.Location) {
    exists m :: Announces(identity, hash, location, m)
                && after[(sender, Record(m))] > before[(sender, Record(m))]
  }

  lemma SentInFull(before: multiset<(NodeId, Packet)>, sender: NodeId, stored: Option<Packet>, own: Option<Packet>,
                   flood: set<NodeId>, q: Packet)
    requires sender !in flood
    ensures GainedByQuery(before, before + Replies(Addressed(sender, stored), Addressed(sender, own)) + ToAll(flood, q),
                          sender, stored, own, flood, q)
  {
    forall t, p
      ensures ToAll(flood, q)[(t, p)] == if t in flood && p == q then 1 else 0
    {
      ToAllCounts(flood, q, t, p);
    }
  }

  /** The packets sent for a query, told without the functions that compute them. */
  lemma QueryExplained(identity: A.KeyPair, db: L.LocationMap, hash: Bytes, kinds: seq<int>, now: int,
                       reply: Option<NodeId>, ok: bool, provision: Provision, entry: Option<set<NodeId>>,
                       peers: set<NodeId>, sender: NodeId, reachable: set<NodeId>,
                       before: multiset<(NodeId, Packet)>, after: multiset<(NodeId, Packet)>)
    requires reply.Some? ==> L.Lookup(db, kinds, reply.value, now).Some?
    requires var replies := Replies(Addressed(sender, CachedReply(db, kinds, now, reply)),
                                    Addressed(sender, if ok then OwnReply(identity, hash, provision) else None));
      after == before + replies
               + if ok then ToAll(FloodTargets(entry, peers, sender) * reachable, Query(hash, kinds)) else multiset{}
    ensures GainedByQuery(before, after, sender,
                          if reply.Some?
                          then Some(Record(L.Lookup(db, kinds, reply.value, now).value.providerMessage)) else None,
                          if ok && provision.Provided?
                          then Some(Record(A.Printed(hash, provision.location, identity.publicKey,
                                                     identity.sign(A.SignedBytes(hash, provision.location)))))
                          else None,
                          if ok && entry.None? then (peers - {sender}) * reachable else {}, Query(hash, kinds))
    ensures ok && provision.Provided? && A.InRange(hash, provision.location, identity.publicKey) ==>
      GainsAnnouncement(before, after, sender, identity, hash, provision.location)
  {
    var flood := if ok && entry.None? then (peers - {sender}) * reachable else {};
    var own := if ok then OwnReply(identity, hash, provision) else None;
    SentInFull(before, sender, CachedReply(db, kinds, now, reply), own, flood, Query(hash, kinds));
    if ok && provision.Provided? && A.InRange(hash, provision.location, identity.publicKey) {
      OwnReplyGained(before, after, sender, CachedReply(db, kinds, now, reply), flood, Query(hash, kinds),
                     identity, hash, provision.location);
    }
  }

  lemma OwnReplyGained(before: multiset<(NodeId, Packet)>, after: multiset<(NodeId, Packet)>, sender: NodeId,
                       stored: Option<Packet>, flood: set<NodeId>, q: Packet,
                       identity: A.KeyPair, hash: Bytes, location: A.Location)
    requires A.InRange(hash, location, identity.publicKey)
    requires GainedByQuery(before, after, sender, stored, OwnReply(identity, hash, Provided(location)), flood, q)
    ensures GainsAnnouncement(before, after, sender, identity, hash, location)
  {
    OwnReplyAnnounces(identity, hash, Provided(location));
    var m := OwnReply(identity, hash, Provided(location)).value.message;
    assert Announces(identity, hash, location, m);
    assert after[(sender, Record(m))] > before[(sender, Record(m))];
  }

  class Router {
    const identity: A.KeyPair
    const verify: (Bytes, Bytes, Bytes) -> bool
    const storage: L.StorageService
    var peers: set<NodeId>
    var table: map<Bytes, set<NodeId>>
    var sent: multiset<(NodeId, Packet)>

    constructor (identity: A.KeyPair, verify: (Bytes, Bytes, Bytes) -> bool, storage: L.StorageService)
      ensures this.identity == identity && this.verify == verify && this.storage == storage
      ensures peers == {} && table == map[] && sent == multiset{}
    {
      this.identity, this.verify, this.storage := identity, verify, storage;
      peers, table, sent := {}, map[], multiset{};
    }

    /** Writing to a peer's socket succeeds for the reachable ones. */
    method SendMessage(to: NodeId, p: Packet, reachable: set<NodeId>) returns (ok: bool)
      modifies this`sent
      ensures ok == (to in reachable)
      ensures sent == old(sent) + ToOne(to, if ok then Some(p) else None)
    {
      ok := to in reachable;
      if ok {
        sent := sent + multiset{(to, p)};
      }
    }

    method SendToAll(targets: set<NodeId>, p: Packet, reachable: set<NodeId>)
      modifies this`sent
      ensures sent == old(sent) + ToAll(targets * reachable, p)
    {
      var rest := targets;
      while rest != {}
        invariant rest <= targets
        invariant sent == old(sent) + ToAll((targets - rest) * reachable, p)
        decreases rest
      {
        var t :| t in rest;
        ghost var done := (targets - rest) * reachable;
        rest := rest - {t};
        assert (targets - rest) * reachable == if t in reachable then done + {t} else done;
        if t in reachable {
          SendOneMore(old(sent), done, t, p);
        }
        var _ := SendMessage(t, p, reachable);
      }
      assert targets - {} == targets;
    }

    method SendHashRequest(hash: Bytes, kinds: seq<int>, reachable: set<NodeId>)
      modifies this`sent
      ensures sent == old(sent) + ToAll(peers * reachable, Query(hash, if kinds == [] then [3] else kinds))
      ensures OneCopyEach(old(sent), sent, peers * reachable, Query(hash, if kinds == [] then [3] else kinds))
    {
      var asked := kinds;
      if |asked| == 0 {
        asked := [KIND_FILE];
      }
      ToAllIsOneEach(sent, peers * reachable, Query(hash, asked));
      SendToAll(peers, Query(hash, asked), reachable);
    }

    /** Send back the stored announcement of the best-ranked available node, if there is one.
        rank is the head of what SortNodesByScore makes of the available nodes, or None on an error;
        readOk is the outcome of reading the store; reply names the node whose announcement was sent. */
    method ReplyFromStore(sender: NodeId, hash: Bytes, kinds: seq<int>, now: int, readOk: bool,
                          rank: set<NodeId> -> Option<NodeId>, reachable: set<NodeId>)
      returns (ok: bool, reply: Option<NodeId>)
      requires forall s :: s != {} && rank(s).Some? ==> rank(s).value in s
      modifies this`sent
      ensures var available := L.Available(L.ReadMap(storage.bucket, hash), kinds, now);
        && ok == StoreReplies(available, readOk, rank, sender in reachable)
        && reply == if ok && available != {} then rank(available) else None
      ensures sent == old(sent) + ToOne(sender, CachedReply(L.ReadMap(storage.bucket, hash), kinds, now, reply))
    {
      var read, mapLocations := storage.GetCachedStorageLocations(hash, kinds, None, now, readOk);
      if !read {
        return false, None;
      }
      KeysAvailable(L.ReadMap(storage.bucket, hash), kinds, now, mapLocations.Keys);
      if |mapLocations| == 0 {
        return true, None;
      }
      assert mapLocations.Keys != {};
      var score := rank(mapLocations.Keys);
      if score.None? {
        return false, None;
      }
      var entry := mapLocations[score.value];
      var delivered := SendMessage(sender, Record(entry.providerMessage), reachable);
      if !delivered {
        return false, None;
      }
      return true, score;
    }

    /** Send back the node's own announcement, if its provider store has the hash. */
    method ReplyOwn(sender: NodeId, hash: Bytes, provision: Provision, reachable: set<NodeId>) returns (ok: bool)
      modifies this`sent
      ensures ok == OwnReplies(provision, sender in reachable)
      ensures sent == old(sent) + ToOne(sender, if ok then OwnReply(identity, hash, provision) else None)
    {
      if provision.Failed? {
        return false;
      }
      if provision.Provided? {
        var message := A.PrepareProvideMessage(identity, hash, provision.location);
        ok := SendMessage(sender, Record(message), reachable);
        return;
      }
      return true;
    }

    /** Add the sender to the entry of the hash; pass the query on if that created the entry. */
    method RecordRequester(sender: NodeId, hash: Bytes, kinds: seq<int>, reachable: set<NodeId>)
      modifies this`table, this`sent
      ensures table == old(table)[hash := EntryAfterQuery(EntryOf(old(table), hash), sender)]
      ensures sent == old(sent)
                      + ToAll(FloodTargets(EntryOf(old(table), hash), peers, sender) * reachable, Query(hash, kinds))
    {
      if hash in table {
        var list := table[hash];
        if sender !in list {
          list := list + {sender};
        }
        table := table[hash := list];
        assert FloodTargets(EntryOf(old(table), hash), peers, sender) * reachable == {};
        assert list == EntryAfterQuery(EntryOf(old(table), hash), sender);
        return;
      }
      assert EntryAfterQuery(EntryOf(table, hash), sender) == {sender};
      table := table[hash := {sender}];
      SendToAll(peers - {sender}, Query(hash, kinds), reachable);
    }

    /** The two replies, the second only after the first has succeeded. */
    method SendReplies(sender: NodeId, hash: Bytes, kinds: seq<int>, now: int, readOk: bool,
                       rank: set<NodeId> -> Option<NodeId>, provision: Provision, reachable: set<NodeId>)
      returns (ok: bool, reply: Option<NodeId>)
      requires forall s :: s != {} && rank(s).Some? ==> rank(s).value in s
      modifies this`sent
      ensures var available := L.Available(L.ReadMap(storage.bucket, hash), kinds, now);
        var stored := StoreReplies(available, readOk, rank, sender in reachable);
        && ok == (stored && OwnReplies(provision, sender in reachable))
        && reply == if stored && available != {} then rank(available) else None
      ensures sent == old(sent)
                      + Replies(Addressed(sender, CachedReply(L.ReadMap(storage.bucket, hash), kinds, now, reply)),
                                Addressed(sender, if ok then OwnReply(identity, hash, provision) else None))
    {
      ok, reply := ReplyFromStore(sender, hash, kinds, now, readOk, rank, reachable);
      ghost var stored := CachedReply(L.ReadMap(storage.bucket, hash), kinds, now, reply);
      if !ok {
        RepliesAre(sender, stored, None);
        return;
      }
      ok := ReplyOwn(sender, hash, provision, reachable);
      RepliesAre(sender, stored, if ok then OwnReply(identity, hash, provision) else None);
    }

    /** Replies first; an error there leaves the routing table alone. */
    method HandleHashQuery(sender: NodeId, hash: Bytes, kinds: seq<int>, now: int, readOk: bool,
                           rank: set<NodeId> -> Option<NodeId>, provision: Provision, reachable: set<NodeId>)
      returns (ok: bool, reply: Option<NodeId>)
      requires forall s :: s != {} && rank(s).Some? ==> rank(s).value in s
      modifies this`table, this`sent
      ensures var available := L.Available(L.ReadMap(storage.bucket, hash), kinds, now);
        var stored := StoreReplies(available, readOk, rank, sender in reachable);
        && ok == (stored && OwnReplies(provision, sender in reachable))
        && reply == if stored && available != {} then rank(available) else None
      ensures table == if ok then old(table)[hash := EntryAfterQuery(EntryOf(old(table), hash), sender)] else old(table)
      ensures var replies := Replies(Addressed(sender, CachedReply(L.ReadMap(storage.bucket, hash), kinds, now, reply)),
                                     Addressed(sender, if ok then OwnReply(identity, hash, provision) else None));
        sent == old(sent) + replies
                + if ok
                  then ToAll(FloodTargets(EntryOf(old(table), hash), peers, sender) * reachable, Query(hash, kinds))
                  else multiset{}
      // it succeeds if the store can be read and ranked, the provider does not fail, and the sender can be
      // written to where there is something to send it
      ensures var available := L.Available(L.ReadMap(storage.bucket, hash), kinds, now);
        ok <==> && readOk && !provision.Failed? && (provision.Provided? ==> sender in reachable)
                && (available != {} ==> rank(available).Some? && sender in reachable)
      ensures ok ==> table == old(table)[hash := (if hash in old(table) then old(table)[hash] else {}) + {sender}]
      ensures reply.Some? ==> L.Lookup(L.ReadMap(storage.bucket, hash), kinds, reply.value, now).Some?
      // the sender is sent the stored announcement of the node named and the node's own one; every other
      // reachable peer is sent the query if the hash is new here
      ensures var lookup := if reply.None? then None
                            else L.Lookup(L.ReadMap(storage.bucket, hash), kinds, reply.value, now);
        GainedByQuery(old(sent), sent, sender,
                      if reply.Some? then Some(Record(lookup.value.providerMessage)) else None,
                      if ok && provision.Provided?
                      then Some(Record(A.Printed(hash, provision.location, identity.publicKey,
                                                 identity.sign(A.SignedBytes(hash, provision.location)))))
                      else None,
                      if ok && hash !in old(table) then (peers - {sender}) * reachable else {}, Query(hash, kinds))
      ensures ok && provision.Provided? && A.InRange(hash, provision.location, identity.publicKey) ==>
        GainsAnnouncement(old(sent), sent, sender, identity, hash, provision.location)
    {
      ok, reply := SendReplies(sender, hash, kinds, now, readOk, rank, provision, reachable);
      if ok {
        RecordRequester(sender, hash, kinds, reachable);
      }
      QueryExplained(identity, L.ReadMap(storage.bucket, hash), hash, kinds, now, reply, ok, provision,
                     EntryOf(old(table), hash), peers, sender, reachable, old(sent), sent);
    }

    /** One turn of the relay loop: skip the announcer, give up on a failed send. */
    method RelayTo(peerId: NodeId, announcer: NodeId, p: Packet, reachable: set<NodeId>)
      returns (delivered: bool, finished: bool)
      modifies this`sent
      ensures delivered == Served(peerId, announcer, peers, reachable)
      ensures finished == Settles(peerId, announcer, peers, reachable)
      ensures sent == old(sent) + ToOne(peerId, if delivered then Some(p) else None)
      ensures delivered <==> peerId != announcer && peerId in peers && peerId in reachable
      ensures finished <==> peerId != announcer && (peerId !in peers || peerId in reachable)
    {
      if peerId == announcer {
        return false, false;
      }
      if peerId in peers {
        delivered := SendMessage(peerId, p, reachable);
        return delivered, delivered;
      }
      return false, true;
    }

    method RelayToList(list: set<NodeId>, hash: Bytes, announcer: NodeId, p: Packet, reachable: set<NodeId>)
      modifies this`table, this`sent
      ensures sent == old(sent) + ToAll(RelaySent(Some(list), announcer, peers, reachable), p)
      ensures table == if Drops(Some(list), announcer, peers, reachable) then old(table) - {hash} else old(table)
    {
      var rest := list;
      ghost var served: set<NodeId>, gone := {}, false;
      NoneServed(sent, p);
      while rest != {}
        invariant rest <= list
        invariant forall x :: x in served <==> x in list && x !in rest && Served(x, announcer, peers, reachable)
        invariant gone <==> exists x :: x in list && x !in rest && Settles(x, announcer, peers, reachable)
        invariant sent == old(sent) + ToAll(served, p)
        invariant table == if gone then old(table) - {hash} else old(table)
        decreases rest
      {
        var peerId :| peerId in rest;
        rest := rest - {peerId};
        var delivered, finished := RelayTo(peerId, announcer, p, reachable);
        if delivered {
          SendOneMore(old(sent), served, peerId, p);
          served := served + {peerId};
        }
        if finished {
          RemoveTwice(old(table), hash);
          gone := true;
          table := table - {hash};
        }
      }
      assert served == RelaySent(Some(list), announcer, peers, reachable);
    }

    /** Pass an announcement on to the requesters of its hash, and drop the served entry. */
    method Relay(hash: Bytes, announcer: NodeId, p: Packet, reachable: set<NodeId>)
      modifies this`table, this`sent
      ensures sent == old(sent) + ToAll(RelaySent(EntryOf(old(table), hash), announcer, peers, reachable), p)
      ensures table == if Drops(EntryOf(old(table), hash), announcer, peers, reachable)
                       then old(table) - {hash} else old(table)
    {
      var list: set<NodeId> := {};
      if hash in table {
        list := table[hash];
      }
      RelayToList(list, hash, announcer, p, reachable);
    }

    /** Parse, check the signature, store, then relay to the recorded requesters. */
    method HandleStorageLocation(msg: Bytes, reachable: set<NodeId>, readOk: bool, putOk: bool) returns (ok: bool)
      modifies this`table, this`sent, storage
      ensures ok <==> A.Parse(msg).Ok? && Authentic(verify, A.Parse(msg).value) && readOk && putOk
      ensures !ok ==> table == old(table) && sent == old(sent) && storage.bucket == old(storage.bucket)
      ensures ok ==> var a := A.Parse(msg).value; var entry := EntryOf(old(table), a.hash);
        && storage.bucket == L.Add(old(storage.bucket), L.Addition(a.hash, a.publicKey, a.location, msg))
        && sent == old(sent) + ToAll(RelaySent(entry, a.publicKey, peers, reachable), Record(msg))
        && table == if Drops(entry, a.publicKey, peers, reachable) then old(table) - {a.hash} else old(table)
      // it is accepted only under a signature by its node over exactly the bytes before the key
      ensures ok <==> match A.Parse(msg)
        case Err(_) => false
        case Ok(a) => verify(a.publicKey[1..], a.signed, a.signature) && readOk && putOk
      ensures ok ==> var a := A.Parse(msg).value;
        msg == a.signed + a.publicKey + a.signature && A.InRange(a.hash, a.location, a.publicKey)
      // every printed announcement that verifies is
      ensures forall hash, location, publicKey, signature ::
        (&& msg == A.Printed(hash, location, publicKey, signature) && A.InRange(hash, location, publicKey)
         && verify(publicKey[1..], A.SignedBytes(hash, location), signature) && readOk && putOk) ==> ok
      ensures storage.bucket == AfterMessage(verify, old(storage.bucket), msg, readOk && putOk)
      ensures Vouched(verify, old(storage.bucket)) ==> Vouched(verify, storage.bucket)
      // it goes to the recorded requesters that are reachable peers, but its own node, and nowhere else
      ensures ok ==> var a := A.Parse(msg).value; var list := if a.hash in old(table) then old(table)[a.hash] else {};
        && OneCopyEach(old(sent), sent, (set t | t in list && t != a.publicKey && t in peers && t in reachable),
                       Record(msg))
        && table == if exists t :: t in list && t != a.publicKey && (t in peers ==> t in reachable)
                    then old(table) - {a.hash} else old(table)
    {
      PrintedVerifies(verify, msg);
      if A.Parse(msg).Ok? {
        A.ParsedInRange(msg);
        AcceptedIsVouched(verify, storage.bucket, msg);
      }
      var parsed := A.ParseMessage(msg);
      if parsed.Err? {
        return false;
      }
      var a := parsed.value;
      if !Authentic(verify, a) {
        return false;
      }
      var added := storage.AddStorageLocation(a.hash, a.publicKey, a.location, msg, readOk, putOk);
      if !added {
        return false;
      }
      RelayExplained(EntryOf(table, a.hash), a.publicKey, peers, reachable, sent, Record(msg));
      Relay(a.hash, a.publicKey, Record(msg), reachable);
      return true;
    }
  }

  lemma RemoveTwice(m: map<Bytes, set<NodeId>>, k: Bytes)
    ensures m - {k} - {k} == m - {k}
  {
  }

  lemma NoneServed(before: multiset<(NodeId, Packet)>, p: Packet)
    ensures before + ToAll({}, p) == before
  {
  }
}
