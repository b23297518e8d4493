/** The handshake and the gate in front of every other message (OnNewPeerListen and AddPeer in
    service/default/p2p.go, and handshake_open.go, signed_message.go and signed_handshake_done.go
    in protocol). */
module Handshake {
  import opened Base
  import Dialer

  const HASH_QUERY := 0x4
  const STORAGE_LOCATION := 0x5
  const REGISTRY_ENTRY := 0x7
  const ANNOUNCE_PEERS := 0x8
  const REGISTRY_QUERY := 0xd

  /** The registered kinds that require a finished handshake. */
  const GATED: set<int> := {HASH_QUERY, STORAGE_LOCATION, REGISTRY_ENTRY, REGISTRY_QUERY}

  const FEATURES := 0x3

  /** What MessagePack makes of a message; Malformed has kind HandshakeOpen or SignedMessage but bad fields. */
  datatype Packet =
    | Garbage
    | Malformed
    | Open(handshake: Bytes, network: string)
    | Signed(node: NodeId, signature: Bytes, message: Bytes)
    | Plain(kind: int, body: Bytes)

  /** What it makes of the message inside a signed one. */
  datatype Inner =
    | Unreadable
    | Unknown
    | Done(challenge: Bytes, features: int, uris: seq<Dialer.Uri>)
    | BadDone
    | Announce(body: Bytes)
    | BadAnnounce

  datatype Failure =
    | BadPacket | UnknownKind | BadBody | BadSignature | OtherNetwork
    | WrongChallenge | WrongId | MissingFeatures | UnsupportedProtocol

  /** Panicked stands for Go's run-time panic, Ended for closing the connection. */
  datatype Reaction = Quiet | Ignored | Ended | Panicked | Failed(why: Failure) | Replied(answer: Packet)

  /** Configuration, signatures and MessagePack, and what the gated handlers do with a connection's
      message to the state behind the gate: registry, routing, locations and dialling. */
  datatype Env<!R> = Env(
    network: string,
    local: NodeId,
    selfUris: seq<Dialer.Uri>,
    sign: Bytes -> Bytes,
    verify: (Bytes, Bytes, Bytes) -> bool,
    printDone: (Bytes, int, seq<Dialer.Uri>) -> Bytes,
    inner: Bytes -> Inner,
    decodes: (int, Bytes) -> bool,
    idText: NodeId -> string,
    apply: (R, nat, int, Bytes) -> R)

  datatype Connection = Connection(id: Option<NodeId>, verifyId: bool, challenge: Bytes,
                                   connected: bool, handshakeDone: bool, uris: seq<Dialer.Uri>)

  datatype Shared<R> = Shared(started: bool, peers: map<NodeId, nat>, pending: map<NodeId, nat>,
                              delay: map<NodeId, U64>, store: R)

  /** uri.User = url.User(id) on every connection URI. */
  function Named(uris: seq<Dialer.Uri>, user: string): seq<Dialer.Uri> {
    seq(|uris|, i requires 0 <= i < |uris| => uris[i].(user := Some(user)))
  }

  function AddPeer<R>(s: Shared<R>, id: NodeId, c: nat): Shared<R> {
    s.(peers := s.peers[id := c], delay := s.delay[id := 1], pending := s.pending - {id})
  }

  /** HandshakeDone.HandleMessage. The dial back finds the peer already connected, so only the
      choice of a URI can fail. */
  function Finish<R>(env: Env<R>, s: Shared<R>, conn: Connection, c: nat, node: NodeId, done: Inner)
    : (Shared<R>, Connection, Reaction)
    requires done.Done?
  {
    if !s.started then (s, conn, Ended)
    else if conn.challenge != done.challenge then (s, conn, Failed(WrongChallenge))
    else if conn.verifyId && conn.id != Some(node) then (s, conn, Failed(WrongId))
    else
      var shaken := conn.(id := Some(node), connected := true, handshakeDone := true);
      if done.features != FEATURES then (s, shaken, Failed(MissingFeatures))
      else
        var filed := AddPeer(s, node, c);
        if done.uris == [] then (filed, shaken, Quiet)
        else
          (filed, shaken.(uris := Named(done.uris, env.idText(node))),
           if Dialer.Choose([done.uris[0]]).None? then Failed(UnsupportedProtocol) else Quiet)
  }

  /** SignedMessage.HandleMessage, behind the signature check. */
  function Unwrap<R>(env: Env<R>, s: Shared<R>, conn: Connection, c: nat, node: NodeId, message: Bytes)
    : (Shared<R>, Connection, Reaction)
  {
    match env.inner(message)
    case Unreadable => (s, conn, Failed(BadPacket))
    case Unknown => (s, conn, Quiet)
    case BadDone => (s, conn, Failed(BadBody))
    case Done(_, _, _) => Finish(env, s, conn, c, node, env.inner(message))
    case Announce(body) =>
      if !conn.handshakeDone then (s, conn, Ignored)
      else (s.(store := env.apply(s.store, c, ANNOUNCE_PEERS, body)), conn, Quiet)
    case BadAnnounce => (s, conn, if conn.handshakeDone then Failed(BadBody) else Ignored)
  }

  /** One message on a connection, through the gate of OnNewPeerListen. */
  function React<R>(env: Env<R>, s: Shared<R>, conn: Connection, c: nat, p: Packet): (Shared<R>, Connection, Reaction) {
    match p
    case Garbage => (s, conn, Failed(BadPacket))
    case Malformed => (s, conn, Failed(BadBody))
    case Open(handshake, network) =>
      (s, conn, if network != env.network then Failed(OtherNetwork)
                else
                  var m := env.printDone(handshake, FEATURES, env.selfUris);
                  Replied(Signed(env.local, env.sign(m), m)))
    case Signed(node, signature, message) =>
      if |node| != 33 then (s, conn, Panicked)
      else if !env.verify(node[1..], message, signature) then (s, conn, Failed(BadSignature))
      else Unwrap(env, s, conn, c, node, message)
    case Plain(kind, body) =>
      if kind !in GATED then (s, conn, Failed(UnknownKind))
      else if !conn.handshakeDone then (s, conn, Ignored)
      else if !env.decodes(kind, body) then (s, conn, Failed(BadBody))
      else (s.(store := env.apply(s.store, c, kind, body)), conn, Quiet)
  }

  class Peer {
    const tag: nat
    const verifyId: bool
    var id: Option<NodeId>
    var challenge: Bytes
    var connected: bool
    var handshaked: bool
    var uris: seq<Dialer.Uri>

    constructor (tag: nat, id: Option<NodeId>, verifyId: bool, challenge: Bytes)
      ensures this.tag == tag && Contents() == Connection(id, verifyId, challenge, false, false, [])
    {
      this.tag, this.id, this.verifyId, this.challenge := tag, id, verifyId, challenge;
      connected, handshaked, uris := false, false, [];
    }

    ghost function Contents(): Connection
      reads this
    {
      Connection(id, verifyId, challenge, connected, handshaked, uris)
    }
  }

  class P2PService<R> {
    const env: Env<R>
    var started: bool
    var peers: map<NodeId, nat>
    var pending: map<NodeId, nat>
    var reconnectDelay: map<NodeId, U64>
    var store: R

    constructor (env: Env<R>, store: R)
      ensures this.env == env && Contents() == Shared(false, map[], map[], map[], store)
    {
      this.env, this.store := env, store;
      started, peers, pending, reconnectDelay := false, map[], map[], map[];
    }

    ghost function Contents(): Shared<R>
      reads this
    {
      Shared(started, peers, pending, reconnectDelay, store)
    }

    method HandleHandshakeDone(peer: Peer, node: NodeId, done: Inner) returns (reaction: Reaction)
      requires done.Done?
      modifies this, peer
      ensures (Contents(), peer.Contents(), reaction)
           == Finish(env, old(Contents()), old(peer.Contents()), peer.tag, node, done)
    {
      if !started {
        return Ended;
      }
      if peer.challenge != done.challenge {
        return Failed(WrongChallenge);
      }
      if !peer.verifyId {
        peer.id := Some(node);
      } else if peer.id != Some(node) {
        return Failed(WrongId);
      }
      peer.connected := true;
      peer.handshaked := true;
      if done.features != FEATURES {
        return Failed(MissingFeatures);
      }
      peers := peers[node := peer.tag];
      reconnectDelay := reconnectDelay[node := 1];
      if node in pending {
        pending := pending - {node};
      }
      assert pending == old(pending) - {node};
      if |done.uris| == 0 {
        return Quiet;
      }
      peer.uris := Named(done.uris, env.idText(node));
      var first := Dialer.ChooseUri([done.uris[0]]);
      return if first.None? then Failed(UnsupportedProtocol) else Quiet;
    }

    method HandleSigned(peer: Peer, node: NodeId, message: Bytes) returns (reaction: Reaction)
      modifies this, peer
      ensures (Contents(), peer.Contents(), reaction)
           == Unwrap(env, old(Contents()), old(peer.Contents()), peer.tag, node, message)
    {
      match env.inner(message) {
        case Unreadable =>
          return Failed(BadPacket);
        case Unknown =>
          return Quiet;
        case BadDone =>
          return Failed(BadBody);
        case Done(_, _, _) =>
          reaction := HandleHandshakeDone(peer, node, env.inner(message));
        case Announce(body) =>
          if !peer.handshaked {
            return Ignored;
          }
          store := env.apply(store, peer.tag, ANNOUNCE_PEERS, body);
          return Quiet;
        case BadAnnounce =>
          return if peer.handshaked then Failed(BadBody) else Ignored;
      }
    }

    method OnMessage(peer: Peer, p: Packet) returns (reaction: Reaction)
      modifies this, peer
      ensures (Contents(), peer.Contents(), reaction)
           == React(env, old(Contents()), old(peer.Contents()), peer.tag, p)
      // what gets through the gate is applied, and nothing else is
      ensures match p
        case Plain(kind, body) =>
          store == if kind in {4, 5, 7, 13} && old(peer.handshaked) && env.decodes(kind, body)
                   then env.apply(old(store), peer.tag, kind, body) else old(store)
        case Signed(node, signature, message) =>
          store == if && |node| == 33 && env.verify(node[1..], message, signature) && env.inner(message).Announce?
                      && old(peer.handshaked)
                   then env.apply(old(store), peer.tag, 8, env.inner(message).body) else old(store)
        case _ => store == old(store)
    {
      match p {
        case Garbage =>
          return Failed(BadPacket);
        case Malformed =>
          return Failed(BadBody);
        case Open(handshake, network) =>
          if network != env.network {
            return Failed(OtherNetwork);
          }
          var m := env.printDone(handshake, FEATURES, env.selfUris);
          return Replied(Signed(env.local, env.sign(m), m));
        case Signed(node, signature, message) =>
          if |node| != 33 {
            return Panicked;
          }
          if !env.verify(node[1..], message, signature) {
            return Failed(BadSignature);
          }
          reaction := HandleSigned(peer, node, message);
        case Plain(kind, body) =>
          if kind !in GATED {
            return Failed(UnknownKind);
          }
          if !peer.handshaked {
            return Ignored;
          }
          if !env.decodes(kind, body) {
            return Failed(BadBody);
          }
          store := env.apply(store, peer.tag, kind, body);
          return Quiet;
      }
    }
  }

  // ----- whole runs -----

  /** A node and every connection it has opened, by number. */
  datatype Node<R> = Node(shared: Shared<R>, conns: map<nat, Connection>)

  /** A connection dialled for an id or accepted from anyone, a message on one, its closing, and
      the services being started or stopped. */
  datatype Event =
    | Dialled(c: nat, id: NodeId, challenge: Bytes)
    | Accepted(c: nat, challenge: Bytes)
    | Received(c: nat, packet: Packet)
    | Closed(c: nat)
    | Services(running: bool)

  function After<R>(env: Env<R>, n: Node<R>, e: Event): Node<R> {
    match e
    case Dialled(c, id, challenge) =>
      if c in n.conns then n
      else
        n.(shared := n.shared.(pending := n.shared.pending[id := c]),
           conns := n.conns[c := Connection(Some(id), true, challenge, false, false, [])])
    case Accepted(c, challenge) =>
      if c in n.conns then n
      else n.(conns := n.conns[c := Connection(None, false, challenge, false, false, [])])
    case Received(c, p) =>
      if c !in n.conns then n
      else
        var (shared, conn, _) := React(env, n.shared, n.conns[c], c, p);
        Node(shared, n.conns[c := conn])
    case Closed(c) =>
      if c in n.conns && n.conns[c].id.Some? then
        var id := n.conns[c].id.value;
        n.(shared := n.shared.(peers := n.shared.peers - {id}, pending := n.shared.pending - {id}))
      else n
    case Services(running) => n.(shared := n.shared.(started := running))
  }

  function Start<R>(store: R): Node<R> {
    Node(Shared(false, map[], map[], map[], store), map[])
  }

  function Run<R>(env: Env<R>, store: R, es: seq<Event>): Node<R> {
    if es == [] then Start(store) else After(env, Run(env, store, es[..|es| - 1]), es[|es| - 1])
  }

  /** The packet is a verified HandshakeDone of the node, over the challenge. */
  predicate Proves<R>(env: Env<R>, p: Packet, node: NodeId, challenge: Bytes) {
    && p.Signed? && p.node == node && |node| == 33
    && env.verify(node[1..], p.message, p.signature)
    && env.inner(p.message).Done? && env.inner(p.message).challenge == challenge
  }

  /** In state n, the event proves the node on connection c: services run, and a dialled id matches. */
  predicate Accepts<R>(env: Env<R>, n: Node<R>, e: Event, c: nat, node: NodeId) {
    && e.Received? && e.c == c && c in n.conns && n.shared.started
    && Proves(env, e.packet, node, n.conns[c].challenge)
    && (n.conns[c].verifyId ==> n.conns[c].id == Some(node))
  }

  /** Event i of a run did so. */
  predicate ProvedAt<R>(env: Env<R>, store: R, es: seq<Event>, i: nat, c: nat, node: NodeId) {
    i < |es| && Accepts(env, Run(env, store, es[..i]), es[i], c, node)
  }

  // ----- connections keep what they were opened with -----

  /** The event opened connection c with the challenge, and a dialled id, that it still has. */
  predicate Opens(e: Event, c: nat, conn: Connection) {
    match e
    case Dialled(d, id, challenge) => d == c && conn.verifyId && conn.id == Some(id) && conn.challenge == challenge
    case Accepted(d, challenge) => d == c && !conn.verifyId && conn.challenge == challenge
    case _ => false
  }

  predicate SameOrigin(a: Connection, b: Connection) {
    b.verifyId == a.verifyId && b.challenge == a.challenge && (a.verifyId ==> b.id == a.id)
  }

  lemma StepKeepsOrigin<R>(env: Env<R>, n: Node<R>, e: Event, c: nat)
    requires c in n.conns
    ensures c in After(env, n, e).conns && SameOrigin(n.conns[c], After(env, n, e).conns[c])
  {
  }

  lemma Prefix<R>(env: Env<R>, store: R, es: seq<Event>)
    requires es != []
    ensures Run(env, store, es) == After(env, Run(env, store, es[..|es| - 1]), es[|es| - 1])
    ensures forall i: nat :: i < |es| ==> es[..|es| - 1][..i] == es[..i]
  {
  }

  lemma {:induction false} ConnectionsStay<R>(env: Env<R>, store: R, es: seq<Event>, i: nat, c: nat)
    requires i <= |es| && c in Run(env, store, es[..i]).conns
    ensures c in Run(env, store, es).conns
    ensures SameOrigin(Run(env, store, es[..i]).conns[c], Run(env, store, es).conns[c])
  {
    if i == |es| {
      assert es[..i] == es;
    } else {
      Prefix(env, store, es);
      ConnectionsStay(env, store, es[..|es| - 1], i, c);
      StepKeepsOrigin(env, Run(env, store, es[..|es| - 1]), es[|es| - 1], c);
    }
  }

  /** A connection has the challenge of the event that opened it, and a dialled one its id. */
  lemma {:induction false} OpenedByEvent<R>(env: Env<R>, store: R, es: seq<Event>, c: nat) returns (i: nat)
    requires c in Run(env, store, es).conns
    ensures i < |es| && Opens(es[i], c, Run(env, store, es).conns[c])
  {
    var front := es[..|es| - 1];
    if c in Run(env, store, front).conns {
      i := OpenedByEvent(env, store, front, c);
      StepKeepsOrigin(env, Run(env, store, front), es[|es| - 1], c);
    } else {
      i := |es| - 1;
    }
  }

  // ----- the gate -----

  ghost predicate ProvesSome<R>(env: Env<R>, n: Node<R>, e: Event, c: nat) {
    exists node :: Accepts(env, n, e, c, node)
  }

  /** The gate of c opens in exactly the steps that prove a node on c, and never closes. */
  lemma StepHandshake<R>(env: Env<R>, n: Node<R>, e: Event, c: nat)
    requires c in n.conns
    ensures c in After(env, n, e).conns
    ensures After(env, n, e).conns[c].handshakeDone <==>
              n.conns[c].handshakeDone || ProvesSome(env, n, e, c)
  {
    if e.Received? && e.c == c && e.packet.Signed? {
      assert forall node :: Accepts(env, n, e, c, node) ==> node == e.packet.node;
      if Accepts(env, n, e, c, e.packet.node) {
        assert After(env, n, e).conns[c].handshakeDone;
      }
    }
  }

  ghost predicate Proved<R>(env: Env<R>, store: R, es: seq<Event>, c: nat) {
    exists i: nat, node :: ProvedAt(env, store, es, i, c, node)
  }

  lemma ProvedSnoc<R>(env: Env<R>, store: R, es: seq<Event>, c: nat)
    requires es != []
    ensures Proved(env, store, es, c) <==>
              Proved(env, store, es[..|es| - 1], c) ||
              ProvesSome(env, Run(env, store, es[..|es| - 1]), es[|es| - 1], c)
  {
    var front := es[..|es| - 1];
    Prefix(env, store, es);
    forall i: nat, node
      ensures i < |front| ==> ProvedAt(env, store, front, i, c, node) == ProvedAt(env, store, es, i, c, node)
    {
    }
    var n, e := Run(env, store, front), es[|es| - 1];
    if node :| Accepts(env, n, e, c, node) {
      assert ProvedAt(env, store, es, |es| - 1, c, node);
    }
    if i: nat, node :| ProvedAt(env, store, front, i, c, node) {
      assert ProvedAt(env, store, es, i, c, node);
    }
    if i: nat, node :| ProvedAt(env, store, es, i, c, node) {
      if i < |front| {
        assert ProvedAt(env, store, front, i, c, node);
      } else {
        assert Accepts(env, n, e, c, node);
      }
    }
  }

  /** Over any run, the gate of c is open exactly if some event proved a node on c. */
  lemma {:induction false} GateIff<R>(env: Env<R>, store: R, es: seq<Event>, c: nat)
    requires c in Run(env, store, es).conns
    ensures Run(env, store, es).conns[c].handshakeDone <==> Proved(env, store, es, c)
  {
    var front := es[..|es| - 1];
    ProvedSnoc(env, store, es, c);
    if c in Run(env, store, front).conns {
      GateIff(env, store, front, c);
      StepHandshake(env, Run(env, store, front), es[|es| - 1], c);
    } else if i: nat, node :| ProvedAt(env, store, front, i, c, node) {
      Prefix(env, store, es);
      assert front[..i] == es[..i];
      ConnectionsStay(env, store, front, i, c);
    }
  }

  /** Nothing behind the gate changes but by a message on a connection on which a node was proved. */
  lemma NothingBeforeProof<R>(env: Env<R>, store: R, es: seq<Event>, e: Event)
    requires After(env, Run(env, store, es), e).shared.store != Run(env, store, es).shared.store
    ensures e.Received? && Proved(env, store, es, e.c)
  {
    GateIff(env, store, es, e.c);
  }

  // ----- what gets through the gate has its effect -----

  /** What an event asks of the state behind the gate: a decodable message of a gated kind, or a peer
      announcement under a signature that verifies. */
  function Asks<R>(env: Env<R>, e: Event): Option<(int, Bytes)> {
    match e
    case Received(_, Plain(kind, body)) =>
      if kind in {4, 5, 7, 13} && env.decodes(kind, body) then Some((kind, body)) else None
    case Received(_, Signed(node, signature, message)) =>
      if |node| == 33 && env.verify(node[1..], message, signature) && env.inner(message).Announce?
      then Some((8, env.inner(message).body)) else None
    case _ => None
  }

  /** The store after applying, in order, everything that was asked on a connection with an earlier proof. */
  ghost function Effects<R>(env: Env<R>, store: R, es: seq<Event>): R {
    if es == [] then store
    else
      var front, e := es[..|es| - 1], es[|es| - 1];
      var sofar := Effects(env, store, front);
      match Asks(env, e)
      case None => sofar
      case Some((kind, body)) =>
        if Proved(env, store, front, e.c) then env.apply(sofar, e.c, kind, body) else sofar
  }

  /** One message, in any state: it is applied exactly if it asks something and the gate is open. */
  lemma StepApplies<R>(env: Env<R>, n: Node<R>, e: Event)
    ensures After(env, n, e).shared.store ==
      match Asks(env, e)
      case None => n.shared.store
      case Some((kind, body)) =>
        if e.c in n.conns && n.conns[e.c].handshakeDone then env.apply(n.shared.store, e.c, kind, body)
        else n.shared.store
  {
  }

  /** Over any run the store is the fold of what was asked behind a proof: every such message has its
      effect, once, in order, with its own kind and body, and nothing else has any. */
  lemma {:induction false} StoreIsFold<R>(env: Env<R>, store: R, es: seq<Event>)
    ensures Run(env, store, es).shared.store == Effects(env, store, es)
  {
    if es != [] {
      var front, e := es[..|es| - 1], es[|es| - 1];
      StoreIsFold(env, store, front);
      StepApplies(env, Run(env, store, front), e);
      if Asks(env, e).Some? {
        OpenIff(env, store, front, e.c);
      }
    }
  }

  /** The gate of c is open, whether or not c exists, exactly after a proof on it. */
  lemma OpenIff<R>(env: Env<R>, store: R, es: seq<Event>, c: nat)
    ensures var n := Run(env, store, es);
      c in n.conns && n.conns[c].handshakeDone <==> Proved(env, store, es, c)
  {
    if c in Run(env, store, es).conns {
      GateIff(env, store, es, c);
    } else if i: nat, node :| ProvedAt(env, store, es, i, c, node) {
      ConnectionsStay(env, store, es, i, c);
    }
  }

  /** Services run exactly if the last event that started or stopped them started them. */
  lemma {:induction false} StartedIff<R>(env: Env<R>, store: R, es: seq<Event>)
    ensures Run(env, store, es).shared.started
       <==> exists i :: 0 <= i < |es| && es[i] == Services(true) && forall j :: i < j < |es| ==> !es[j].Services?
  {
    if es != [] {
      var front, e := es[..|es| - 1], es[|es| - 1];
      StartedIff(env, store, front);
      assert forall i :: 0 <= i < |front| ==> front[i] == es[i];
      if e.Services? {
        assert e.running ==> es[|es| - 1] == Services(true);
      } else if i :| 0 <= i < |front| && front[i] == Services(true)
                     && forall j :: i < j < |front| ==> !front[j].Services? {
        assert es[i] == Services(true) && forall j :: i < j < |es| ==> !es[j].Services?;
      }
    }
  }

  /** What a proof does: it gives the connection the prover's id and opens its gate; with the right
      features it also files the connection, resets the node's delay and ends its pending, and names the
      node in the URIs it sent. */
  lemma ProofEffects<R>(env: Env<R>, n: Node<R>, e: Event, c: nat, node: NodeId)
    requires Accepts(env, n, e, c, node)
    ensures var next := After(env, n, e); var done := env.inner(e.packet.message);
      && c in next.conns && next.conns.Keys == n.conns.Keys
      && (forall d :: d in n.conns && d != c ==> next.conns[d] == n.conns[d])
      && next.conns[c].id == Some(node) && next.conns[c].connected && next.conns[c].handshakeDone
      && next.shared.started == n.shared.started && next.shared.store == n.shared.store
      && (done.features != 3 ==> next.shared == n.shared && next.conns[c].uris == n.conns[c].uris)
      && (done.features == 3 ==>
            && next.shared.peers == n.shared.peers[node := c] && next.shared.delay == n.shared.delay[node := 1]
            && next.shared.pending == n.shared.pending - {node}
            && (done.uris == [] ==> next.conns[c].uris == n.conns[c].uris)
            && (done.uris != [] ==>
                  && |next.conns[c].uris| == |done.uris|
                  && forall i :: 0 <= i < |done.uris| ==>
                       next.conns[c].uris[i] == done.uris[i].(user := Some(env.idText(node)))))
  {
  }

  /** No other message changes a connection or who is filed, delayed or pending. */
  lemma OnlyProofsMatter<R>(env: Env<R>, n: Node<R>, e: Event)
    requires e.Received? && !ProvesSome(env, n, e, e.c)
    ensures var next := After(env, n, e);
      next.conns == n.conns && next.shared == n.shared.(store := next.shared.store)
  {
    if e.c in n.conns && e.packet.Signed? {
      assert !Accepts(env, n, e, e.c, e.packet.node);
    }
  }

  /** Why a message is refused. A failure of the features or of the announced URIs is reported after
      the proof has had its effect. */
  lemma FailureIff<R>(env: Env<R>, s: Shared<R>, conn: Connection, c: nat, p: Packet)
    ensures var r := React(env, s, conn, c, p).2;
      var signed := p.Signed? && |p.node| == 33 && env.verify(p.node[1..], p.message, p.signature);
      var done := signed && env.inner(p.message).Done?;
      var timely := done && s.started && env.inner(p.message).challenge == conn.challenge;
      var proved := timely && (conn.verifyId ==> conn.id == Some(p.node));
      && (r == Panicked <==> p.Signed? && |p.node| != 33)
      && (r == Failed(BadSignature) <==> p.Signed? && |p.node| == 33 && !signed)
      && (r == Ended <==> done && !s.started)
      && (r == Failed(WrongChallenge) <==> done && s.started && !timely)
      && (r == Failed(WrongId) <==> timely && !proved)
      && (r == Failed(MissingFeatures) <==> proved && env.inner(p.message).features != 3)
      && (r == Failed(UnsupportedProtocol) <==>
            && proved && env.inner(p.message).features == 3
            && env.inner(p.message).uris != [] && Dialer.Choose([env.inner(p.message).uris[0]]).None?)
      && (r == Failed(OtherNetwork) <==> p.Open? && p.network != env.network)
      && (r == Failed(UnknownKind) <==> p.Plain? && p.kind !in {4, 5, 7, 13})
      && (r == Failed(BadPacket) <==> p.Garbage? || (signed && env.inner(p.message).Unreadable?))
      && (r == Failed(BadBody) <==>
            || p.Malformed?
            || (p.Plain? && p.kind in {4, 5, 7, 13} && conn.handshakeDone && !env.decodes(p.kind, p.body))
            || (signed && (env.inner(p.message).BadDone? || (env.inner(p.message).BadAnnounce? && conn.handshakeDone))))
      && (r == Ignored <==>
            && !conn.handshakeDone
            && (|| (p.Plain? && p.kind in {4, 5, 7, 13})
                || (signed && (env.inner(p.message).Announce? || env.inner(p.message).BadAnnounce?))))
      && (r.Replied? <==> p.Open? && p.network == env.network)
      && (r.Replied? ==> var m := env.printDone(p.handshake, 3, env.selfUris);
                         r.answer == Signed(env.local, env.sign(m), m))
  {
  }

  /** Who is pending: a node is from its dialling until it is proved with the right features or a
      connection with its id is closed. */
  lemma StepPending<R>(env: Env<R>, n: Node<R>, e: Event, node: NodeId)
    ensures node in After(env, n, e).shared.pending <==>
      || (e.Dialled? && e.id == node && e.c !in n.conns)
      || (&& node in n.shared.pending
          && !(exists c: nat :: Accepts(env, n, e, c, node) && env.inner(e.packet.message).features == 3)
          && !(e.Closed? && e.c in n.conns && n.conns[e.c].id == Some(node)))
  {
    if e.Received? {
      assert forall c: nat :: Accepts(env, n, e, c, node) ==> c == e.c;
      if Accepts(env, n, e, e.c, node) {
        ProofEffects(env, n, e, e.c, node);
      } else if ProvesSome(env, n, e, e.c) {
        var other :| Accepts(env, n, e, e.c, other);
        ProofEffects(env, n, e, e.c, other);
      } else {
        OnlyProofsMatter(env, n, e);
      }
    }
  }

  // ----- filed connections -----

  /** Event i proved the node on c with the right features. */
  predicate FiledAt<R>(env: Env<R>, store: R, es: seq<Event>, i: nat, c: nat, node: NodeId) {
    ProvedAt(env, store, es, i, c, node) && env.inner(es[i].packet.message).features == FEATURES
  }

  /** A connection is filed under an id only if a HandshakeDone signed by that id, over the
      challenge of the connection and with the right features, arrived on it. */
  lemma {:induction false} FiledWasProved<R>(env: Env<R>, store: R, es: seq<Event>, node: NodeId) returns (i: nat)
    requires node in Run(env, store, es).shared.peers
    ensures FiledAt(env, store, es, i, Run(env, store, es).shared.peers[node], node)
  {
    var front, e := es[..|es| - 1], es[|es| - 1];
    Prefix(env, store, es);
    var n := Run(env, store, front);
    var c := Run(env, store, es).shared.peers[node];
    if Filed(n, c, node) {
      i := FiledWasProved(env, store, front, node);
      assert front[..i] == es[..i];
    } else {
      i := |es| - 1;
      FilesIff(env, n, e, c, node);
    }
  }

  /** An outgoing connection is filed only under the id that was dialled, signed by it. */
  lemma DialledIsFiled<R>(env: Env<R>, store: R, es: seq<Event>, node: NodeId) returns (i: nat)
    requires node in Run(env, store, es).shared.peers
    ensures var n := Run(env, store, es); var c := n.shared.peers[node];
            && i < |es| && c in n.conns
            && (es[i] == Dialled(c, node, n.conns[c].challenge) || es[i] == Accepted(c, n.conns[c].challenge))
  {
    var n := Run(env, store, es);
    var c := n.shared.peers[node];
    var k := FiledWasProved(env, store, es, node);
    ConnectionsStay(env, store, es, k, c);
    i := OpenedByEvent(env, store, es, c);
  }

  // ----- closing -----

  predicate Filed<R>(n: Node<R>, c: nat, node: NodeId) {
    node in n.shared.peers && n.shared.peers[node] == c
  }

  ghost predicate NowhereFiled<R>(n: Node<R>, c: nat) {
    forall node :: !Filed(n, c, node)
  }

  /** The node that was last proved on c in a run, if any. */
  function LastProver<R>(env: Env<R>, store: R, es: seq<Event>, c: nat): Option<NodeId> {
    if es == [] then None
    else
      var front, e := es[..|es| - 1], es[|es| - 1];
      if e.Received? && e.packet.Signed? && Accepts(env, Run(env, store, front), e, c, e.packet.node)
      then Some(e.packet.node)
      else LastProver(env, store, front, c)
  }

  lemma StepId<R>(env: Env<R>, n: Node<R>, e: Event, c: nat)
    requires c in n.conns
    ensures c in After(env, n, e).conns
    ensures After(env, n, e).conns[c].id
         == if e.Received? && e.packet.Signed? && Accepts(env, n, e, c, e.packet.node)
            then Some(e.packet.node) else n.conns[c].id
  {
  }

  /** A connection's id is that of the node last proved on it; until then it is the dialled one, if any. */
  lemma {:induction false} IdIsLastProver<R>(env: Env<R>, store: R, es: seq<Event>, c: nat)
    ensures c !in Run(env, store, es).conns ==> LastProver(env, store, es, c).None?
    ensures c in Run(env, store, es).conns && LastProver(env, store, es, c).Some? ==>
              Run(env, store, es).conns[c].id == LastProver(env, store, es, c)
  {
    if es != [] {
      var n, e := Run(env, store, es[..|es| - 1]), es[|es| - 1];
      IdIsLastProver(env, store, es[..|es| - 1], c);
      if c in n.conns {
        StepId(env, n, e, c);
      }
    }
  }

  /** Somebody is the last prover as soon as anybody proved, and is one who did. */
  lemma {:induction false} LastProverProved<R>(env: Env<R>, store: R, es: seq<Event>, c: nat)
    ensures LastProver(env, store, es, c).Some? <==> Proved(env, store, es, c)
    ensures LastProver(env, store, es, c).Some? ==>
              exists i: nat :: ProvedAt(env, store, es, i, c, LastProver(env, store, es, c).value)
  {
    if es != [] {
      var front, e := es[..|es| - 1], es[|es| - 1];
      var n := Run(env, store, front);
      ProvedSnoc(env, store, es, c);
      LastProverProved(env, store, front, c);
      Prefix(env, store, es);
      if e.Received? && e.packet.Signed? && Accepts(env, n, e, c, e.packet.node) {
        assert ProvedAt(env, store, es, |es| - 1, c, e.packet.node);
      } else {
        assert forall node :: !Accepts(env, n, e, c, node);
        if LastProver(env, store, front, c).Some? {
          var node := LastProver(env, store, front, c).value;
          var i: nat :| ProvedAt(env, store, front, i, c, node);
          assert ProvedAt(env, store, es, i, c, node);
        }
      }
    }
  }

  lemma RunSnoc<R>(env: Env<R>, store: R, es: seq<Event>, e: Event)
    ensures Run(env, store, es + [e]) == After(env, Run(env, store, es), e)
  {
    assert (es + [e])[..|es|] == es;
  }

  /** Closing c removes whatever is filed under the id of c: c itself, or another connection d of that node. */
  lemma CloseRemoves<R>(env: Env<R>, n: Node<R>, c: nat, d: nat, node: NodeId)
    requires c in n.conns
    ensures Filed(After(env, n, Closed(c)), d, node) <==> Filed(n, d, node) && n.conns[c].id != Some(node)
  {
  }

  lemma FiledIsProved<R>(env: Env<R>, store: R, es: seq<Event>, c: nat, node: NodeId)
    requires Filed(Run(env, store, es), c, node)
    ensures LastProver(env, store, es, c).Some? && c in Run(env, store, es).conns
    ensures Run(env, store, es).conns[c].id == LastProver(env, store, es, c)
    ensures exists i: nat :: ProvedAt(env, store, es, i, c, node)
  {
    var i := FiledWasProved(env, store, es, node);
    assert Proved(env, store, es, c);
    LastProverProved(env, store, es, c);
    IdIsLastProver(env, store, es, c);
  }

  /** After any run, closing c leaves it filed nowhere exactly if it was filed under its last prover only. */
  lemma ClosedUnfiledIff<R>(env: Env<R>, store: R, es: seq<Event>, c: nat)
    requires c in Run(env, store, es).conns
    ensures NowhereFiled(Run(env, store, es + [Closed(c)]), c)
       <==> forall node :: Filed(Run(env, store, es), c, node) ==> LastProver(env, store, es, c) == Some(node)
  {
    var n, after := Run(env, store, es), Run(env, store, es + [Closed(c)]);
    RunSnoc(env, store, es, Closed(c));
    forall node
      ensures Filed(after, c, node) <==> Filed(n, c, node) && LastProver(env, store, es, c) != Some(node)
    {
      CloseRemoves(env, n, c, c, node);
      if Filed(n, c, node) {
        FiledIsProved(env, store, es, c, node);
      }
    }
  }

  /** A connection on which only one node was ever proved is filed nowhere once it is closed. */
  lemma OneProverUnfiles<R>(env: Env<R>, store: R, es: seq<Event>, c: nat, prover: NodeId)
    requires c in Run(env, store, es).conns
    requires forall i: nat, node :: ProvedAt(env, store, es, i, c, node) ==> node == prover
    ensures NowhereFiled(Run(env, store, es + [Closed(c)]), c)
  {
    forall node | Filed(Run(env, store, es), c, node)
      ensures LastProver(env, store, es, c) == Some(node)
    {
      FiledIsProved(env, store, es, c, node);
      LastProverProved(env, store, es, c);
    }
    ClosedUnfiledIff(env, store, es, c);
  }

  /** In particular every dialled connection. */
  lemma DialledUnfiles<R>(env: Env<R>, store: R, es: seq<Event>, c: nat)
    requires c in Run(env, store, es).conns && Run(env, store, es).conns[c].verifyId
    ensures NowhereFiled(Run(env, store, es + [Closed(c)]), c)
  {
    var i := OpenedByEvent(env, store, es, c);
    forall i: nat, node | ProvedAt(env, store, es, i, c, node)
      ensures node == Run(env, store, es).conns[c].id.value
    {
      ConnectionsStay(env, store, es, i, c);
    }
    OneProverUnfiles(env, store, es, c, Run(env, store, es).conns[c].id.value);
  }

  /** A connection filed under a node and then proved by another, with whatever features, stays filed
      under the first for good as far as its closing goes. */
  lemma StaleFiling<R>(env: Env<R>, store: R, es: seq<Event>, e: Event, c: nat, first: NodeId, later: NodeId)
    requires Filed(Run(env, store, es), c, first)
    requires Accepts(env, Run(env, store, es), e, c, later) && later != first
    ensures Filed(Run(env, store, es + [e] + [Closed(c)]), c, first)
  {
    var n := Run(env, store, es);
    RunSnoc(env, store, es, e);
    RunSnoc(env, store, es + [e], Closed(c));
    assert e.packet.node == later;
    StepId(env, n, e, c);
    assert Filed(After(env, n, e), c, first);
    CloseRemoves(env, After(env, n, e), c, c, first);
  }

  /** A proof with the right features files its connection under its node. */
  lemma ProofFiles<R>(env: Env<R>, n: Node<R>, c: nat, p: Packet)
    requires c in n.conns && !n.conns[c].verifyId && n.shared.started
    requires p.Signed? && Proves(env, p, p.node, n.conns[c].challenge) && env.inner(p.message).features == FEATURES
    ensures var next := After(env, n, Received(c, p));
            && next.shared == AddPeer(n.shared, p.node, c)
            && c in next.conns && !next.conns[c].verifyId
            && next.conns[c].id == Some(p.node) && next.conns[c].challenge == n.conns[c].challenge
  {
  }

  /** From the start, any two nodes' proofs on an accepted connection come to that. */
  lemma StaleFromStart<R>(env: Env<R>, store: R, c: nat, challenge: Bytes, p: Packet, q: Packet)
    requires p.Signed? && Proves(env, p, p.node, challenge) && env.inner(p.message).features == FEATURES
    requires q.Signed? && Proves(env, q, q.node, challenge) && q.node != p.node
    ensures Filed(Run(env, store, [Services(true)] + [Accepted(c, challenge)] + [Received(c, p)] + [Received(c, q)]
                                  + [Closed(c)]), c, p.node)
  {
    assert Run(env, store, []) == Start(store);
    assert [] + [Services(true)] == [Services(true)];
    RunSnoc(env, store, [], Services(true));
    RunSnoc(env, store, [Services(true)], Accepted(c, challenge));
    var ready := [Services(true)] + [Accepted(c, challenge)];
    RunSnoc(env, store, ready, Received(c, p));
    ProofFiles(env, Run(env, store, ready), c, p);
    assert Accepts(env, Run(env, store, ready + [Received(c, p)]), Received(c, q), c, q.node);
    StaleFiling(env, store, ready + [Received(c, p)], Received(c, q), c, p.node, q.node);
  }

  /** After any run, closing c unfiles another connection d exactly if both were last proved by, or c was
      dialled for, the node under which d is filed. */
  lemma CloseUnfilesOtherIff<R>(env: Env<R>, store: R, es: seq<Event>, c: nat, d: nat, node: NodeId)
    requires c in Run(env, store, es).conns && Filed(Run(env, store, es), d, node)
    ensures Filed(Run(env, store, es + [Closed(c)]), d, node)
       <==> (LastProver(env, store, es, c) != Some(node) &&
             (Run(env, store, es).conns[c].verifyId ==> Run(env, store, es).conns[c].id != Some(node)))
  {
    var n := Run(env, store, es);
    RunSnoc(env, store, es, Closed(c));
    CloseRemoves(env, n, c, d, node);
    IdIsLastProver(env, store, es, c);
    if LastProver(env, store, es, c).None? && !n.conns[c].verifyId {
      UnprovedHasNoId(env, store, es, c);
    }
  }

  lemma {:induction false} UnprovedHasNoId<R>(env: Env<R>, store: R, es: seq<Event>, c: nat)
    requires c in Run(env, store, es).conns && LastProver(env, store, es, c).None?
    requires !Run(env, store, es).conns[c].verifyId
    ensures Run(env, store, es).conns[c].id.None?
  {
    var n, e := Run(env, store, es[..|es| - 1]), es[|es| - 1];
    if c in n.conns {
      StepId(env, n, e, c);
      StepKeepsOrigin(env, n, e, c);
      UnprovedHasNoId(env, store, es[..|es| - 1], c);
    }
  }

  /** From the start: of two connections of one node, closing the first leaves the second unfiled. */
  lemma LiveUnfiledFromStart<R>(env: Env<R>, store: R, c: nat, d: nat, p: Packet, q: Packet,
                                first: Bytes, second: Bytes)
    requires c != d && p.Signed? && q.Signed? && p.node == q.node
    requires Proves(env, p, p.node, first) && env.inner(p.message).features == FEATURES
    requires Proves(env, q, q.node, second) && env.inner(q.message).features == FEATURES
    ensures var es := [Services(true)] + [Accepted(c, first)] + [Accepted(d, second)]
                      + [Received(c, p)] + [Received(d, q)];
            Filed(Run(env, store, es), d, q.node) && NowhereFiled(Run(env, store, es + [Closed(c)]), d)
  {
    assert Run(env, store, []) == Start(store);
    assert [] + [Services(true)] == [Services(true)];
    RunSnoc(env, store, [], Services(true));
    RunSnoc(env, store, [Services(true)], Accepted(c, first));
    var one := [Services(true)] + [Accepted(c, first)];
    RunSnoc(env, store, one, Accepted(d, second));
    var two := one + [Accepted(d, second)];
    RunSnoc(env, store, two, Received(c, p));
    ProofFiles(env, Run(env, store, two), c, p);
    var three := two + [Received(c, p)];
    RunSnoc(env, store, three, Received(d, q));
    ProofFiles(env, Run(env, store, three), d, q);
    var n := Run(env, store, three + [Received(d, q)]);
    RunSnoc(env, store, three + [Received(d, q)], Closed(c));
    forall node
      ensures !Filed(After(env, n, Closed(c)), d, node)
    {
      CloseRemoves(env, n, c, d, node);
    }
  }

  /** In any state, before or after its closing, an event files c under a node exactly by proving it with
      the right features. */
  lemma FilesIff<R>(env: Env<R>, n: Node<R>, e: Event, c: nat, node: NodeId)
    requires !Filed(n, c, node)
    ensures Filed(After(env, n, e), c, node)
       <==> Accepts(env, n, e, c, node) && env.inner(e.packet.message).features == FEATURES
  {
  }

  ghost predicate ProvesRightly<R>(env: Env<R>, n: Node<R>, e: Event, c: nat) {
    exists node :: Accepts(env, n, e, c, node) && env.inner(e.packet.message).features == FEATURES
  }

  /** c is filed nowhere after es and each later event. */
  ghost predicate StaysUnfiled<R>(env: Env<R>, store: R, es: seq<Event>, later: seq<Event>, c: nat) {
    && (later == [] || StaysUnfiled(env, store, es, later[..|later| - 1], c))
    && NowhereFiled(Run(env, store, es + later), c)
  }

  /** None of the later events proves a node on c with the right features. */
  ghost predicate StaysUnproved<R>(env: Env<R>, store: R, es: seq<Event>, later: seq<Event>, c: nat) {
    later == [] ||
    (StaysUnproved(env, store, es, later[..|later| - 1], c) &&
     !ProvesRightly(env, Run(env, store, es + later[..|later| - 1]), later[|later| - 1], c))
  }

  /** A connection that is filed nowhere, such as a closed one, is filed again at the first event that
      proves a node on it with the right features, and not before. */
  lemma {:induction false} FiledAgainIff<R>(env: Env<R>, store: R, es: seq<Event>, later: seq<Event>, c: nat)
    requires NowhereFiled(Run(env, store, es), c)
    ensures StaysUnfiled(env, store, es, later, c) <==> StaysUnproved(env, store, es, later, c)
    decreases |later|
  {
    if later == [] {
      assert es + later == es;
    } else {
      var front, e := later[..|later| - 1], later[|later| - 1];
      FiledAgainIff(env, store, es, front, c);
      RunSnoc(env, store, es + front, e);
      assert es + later == (es + front) + [e];
      if NowhereFiled(Run(env, store, es + front), c) {
        FiledNextIff(env, Run(env, store, es + front), e, c);
      }
    }
  }

  lemma FiledNextIff<R>(env: Env<R>, n: Node<R>, e: Event, c: nat)
    requires NowhereFiled(n, c)
    ensures NowhereFiled(After(env, n, e), c) <==> !ProvesRightly(env, n, e, c)
  {
    forall node
      ensures Filed(After(env, n, e), c, node)
         <==> Accepts(env, n, e, c, node) && env.inner(e.packet.message).features == FEATURES
    {
      FilesIff(env, n, e, c, node);
    }
  }

  // ----- two nodes -----

  /** Between correct nodes, a's opening makes a file b's connection exactly if their networks agree. */
  lemma PairIff<R, S>(a: Env<R>, s: Shared<R>, conn: Connection, c: nat,
                      b: Env<S>, t: Shared<S>, back: Connection, d: nat)
    requires |b.local| == 33 && s.started && (conn.verifyId ==> conn.id == Some(b.local))
    requires forall m :: a.verify(b.local[1..], m, b.sign(m))
    requires forall challenge, features, uris ::
               a.inner(b.printDone(challenge, features, uris)) == Done(challenge, features, uris)
    ensures var reply := React(b, t, back, d, Open(conn.challenge, a.network)).2;
            (reply.Replied? && var (after, proved, _) := React(a, s, conn, c, reply.answer);
              after == AddPeer(s, b.local, c) && proved.id == Some(b.local) && proved.handshakeDone)
            <==> a.network == b.network
  {
  }
}
