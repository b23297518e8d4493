/** Outgoing connections: retries with doubling delays, failure counters and blocklists
    (ConnectToNode and AddPeer in service/default/p2p.go). */
module Dialer {
  import opened Base
  import Endian

  datatype Uri = Uri(scheme: string, user: Option<string>)

  /** The peer whose message asked for the connection. */
  datatype Peer = Peer(id: Option<NodeId>, ip: string)

  datatype Error = UnsupportedProtocol | MissingNodeId | BadNodeId | TransportNotSupported | CloseFailed

  /** The configuration, the decoder of node ids, and what the outside answers: dialOk(n) is the
      outcome of the n-th dial, closeOk(n) of the n-th closing for abuse. */
  datatype Env = Env(local: NodeId, maxFailures: U64, maxAttempts: nat, decode: string -> Option<NodeId>,
                     dialOk: nat -> bool, closeOk: nat -> bool)

  /** Sets and maps keyed by node id, a log of dials, and counts of closings and nanoseconds slept. */
  datatype State = State(up: bool, peers: set<NodeId>, pending: set<NodeId>, delay: map<NodeId, U64>,
                         failures: map<NodeId, U64>, blockedOut: set<NodeId>, blockedIn: set<NodeId>,
                         blockedIPs: set<string>, dialled: seq<NodeId>, closes: nat, slept: nat)

  datatype Outcome = Done(error: Option<Error>) | Again

  const SECOND := 1_000_000_000

  /** time.Sleep of time.Duration(seconds) * time.Second, whose signed 64-bit product may wrap. */
  function Nap(seconds: U64): nat {
    var d := (seconds * SECOND) % WORD;
    if d < WORD / 2 then d else 0
  }

  predicate WebSocket(u: Uri) {
    u.scheme == "ws" || u.scheme == "wss"
  }

  predicate Tcp(u: Uri) {
    u.scheme == "tcp"
  }

  function First(uris: seq<Uri>, want: Uri -> bool): Option<Uri> {
    if uris == [] then None else if want(uris[0]) then Some(uris[0]) else First(uris[1..], want)
  }

  function Choose(uris: seq<Uri>): Option<Uri> {
    if First(uris, WebSocket).Some? then First(uris, WebSocket) else First(uris, Tcp)
  }

  /** The node a list of connection URIs stands for. */
  function Target(env: Env, uris: seq<Uri>): Result<NodeId, Error> {
    match Choose(uris)
    case None => Err(UnsupportedProtocol)
    case Some(u) =>
      if u.user.None? then Err(MissingNodeId)
      else if env.decode(u.user.value).None? then Err(BadNodeId)
      else Ok(env.decode(u.user.value).value)
  }

  /** Blocks the peer that sent a blocked or failing node and closes it; the flag is the closing's. */
  function BlockSender(env: Env, s: State, from: Option<Peer>): (State, bool) {
    if from.None? then (s, true)
    else
      var p := from.value;
      (s.(blockedIn := if p.id.Some? then s.blockedIn + {p.id.value} else s.blockedIn,
          blockedIPs := s.blockedIPs + {p.ip}, closes := s.closes + 1), env.closeOk(s.closes))
  }

  function Failures(s: State, id: NodeId): U64 {
    if id in s.failures then s.failures[id] else 0
  }

  function Delay(s: State, id: NodeId): U64 {
    if id in s.delay then s.delay[id] else 1
  }

  /** Giving up: one more failure, and at the limit the sender and then the node are blocked. */
  function GiveUp(env: Env, s: State, id: NodeId, from: Option<Peer>): (State, Option<Error>) {
    var counter := (Failures(s, id) + 1) % WORD;
    var failed := s.(failures := s.failures[id := counter]);
    if counter < env.maxFailures then (failed, None)
    else
      var (blocked, closed) := BlockSender(env, failed, from);
      if closed then (blocked.(blockedOut := blocked.blockedOut + {id}), None)
      else (blocked, Some(CloseFailed))
  }

  /** The delay doubles, then its old value is slept. */
  function BackOff(s: State, id: NodeId): State {
    s.(delay := s.delay[id := (Delay(s, id) * 2) % WORD], slept := s.slept + Nap(Delay(s, id)))
  }

  /** Dialling id, over a supported transport or not, and what follows from its outcome. */
  function Dial(env: Env, s: State, supported: bool, id: NodeId, retry: nat, from: Option<Peer>): (State, Outcome) {
    var dialled := if supported then s.(dialled := s.dialled + [id]) else s;
    if supported && env.dialOk(|s.dialled|) then
      (dialled.(failures := s.failures - {id}, pending := s.pending + {id}), Done(None))
    else if retry > env.maxAttempts then
      var (after, error) := GiveUp(env, dialled, id, from);
      (after, Done(error))
    else if !supported then (dialled, Done(Some(TransportNotSupported)))
    else (BackOff(dialled, id), Again)
  }

  /** One activation of ConnectToNode, up to the point where it would call itself again. */
  function Attempt(env: Env, s: State, uris: seq<Uri>, retry: nat, from: Option<Peer>): (State, Outcome) {
    if !s.up then (s, Done(None))
    else
      match Target(env, uris)
      case Err(e) => (s, Done(Some(e)))
      case Ok(id) =>
        if id in s.pending || id in s.peers then (s, Done(None))
        else if id in s.blockedOut then
          var (blocked, closed) := BlockSender(env, s, from);
          (blocked, Done(if closed then None else Some(CloseFailed)))
        else if id == env.local then (s, Done(None))
        else Dial(env, s, WebSocket(Choose(uris).value), id, retry, from)
  }

  /** The whole call: attempts until one of them is done. */
  function Connect(env: Env, s: State, uris: seq<Uri>, retry: nat, from: Option<Peer>): (State, Option<Error>)
    decreases env.maxAttempts + 2 - retry
  {
    var (next, outcome) := Attempt(env, s, uris, retry, from);
    match outcome
    case Done(error) => (next, error)
    case Again => Connect(env, next, uris, retry + 1, from)
  }

  /** The first web socket URI, else the first TCP URI. */
  method ChooseUri(uris: seq<Uri>) returns (uri: Option<Uri>)
    ensures uri == Choose(uris)
  {
    uri := None;
    for i := 0 to |uris|
      invariant uri == None && First(uris, WebSocket) == First(uris[i..], WebSocket)
    {
      if uris[i].scheme == "ws" || uris[i].scheme == "wss" {
        uri := Some(uris[i]);
        break;
      }
    }
    if uri.None? {
      for i := 0 to |uris|
        invariant uri == None && First(uris, Tcp) == First(uris[i..], Tcp)
      {
        if uris[i].scheme == "tcp" {
          uri := Some(uris[i]);
          break;
        }
      }
    }
  }

  class P2PService {
    const env: Env
    var up: bool
    var peers: set<NodeId>
    var peersPending: set<NodeId>
    var reconnectDelay: map<NodeId, U64>
    var outgoingPeerFailures: map<NodeId, U64>
    var outgoingPeerBlocklist: set<NodeId>
    var incomingPeerBlocklist: set<NodeId>
    var incomingIPBlocklist: set<string>
    var dialled: seq<NodeId>
    var closes: nat
    var slept: nat

    constructor (env: Env, blocked: set<NodeId>)
      ensures this.env == env
      ensures Contents() == State(false, {}, {}, map[], map[], blocked, blocked, {}, [], 0, 0)
    {
      this.env := env;
      up, peers, peersPending, reconnectDelay, outgoingPeerFailures := false, {}, {}, map[], map[];
      outgoingPeerBlocklist, incomingPeerBlocklist, incomingIPBlocklist := blocked, blocked, {};
      dialled, closes, slept := [], 0, 0;
    }

    ghost function Contents(): State
      reads this
    {
      State(up, peers, peersPending, reconnectDelay, outgoingPeerFailures, outgoingPeerBlocklist,
            incomingPeerBlocklist, incomingIPBlocklist, dialled, closes, slept)
    }

    method EndForAbuse() returns (ok: bool)
      modifies this`closes
      ensures closes == old(closes) + 1 && ok == env.closeOk(old(closes))
    {
      ok := env.closeOk(closes);
      closes := closes + 1;
    }

    method BlockFrom(from: Option<Peer>) returns (ok: bool)
      modifies this`incomingPeerBlocklist, this`incomingIPBlocklist, this`closes
      ensures (Contents(), ok) == BlockSender(env, old(Contents()), from)
    {
      if from.None? {
        return true;
      }
      var peer := from.value;
      if peer.id.Some? && peer.id.value !in incomingPeerBlocklist {
        incomingPeerBlocklist := incomingPeerBlocklist + {peer.id.value};
      }
      assert incomingPeerBlocklist
          == if peer.id.Some? then old(incomingPeerBlocklist) + {peer.id.value} else old(incomingPeerBlocklist);
      if peer.ip !in incomingIPBlocklist {
        incomingIPBlocklist := incomingIPBlocklist + {peer.ip};
      }
      assert incomingIPBlocklist == old(incomingIPBlocklist) + {peer.ip};
      ok := EndForAbuse();
    }

    /** CreateTransportSocket: only web sockets are registered transports. */
    method CreateSocket(uri: Uri, id: NodeId) returns (supported: bool, ok: bool)
      modifies this`dialled
      ensures supported == WebSocket(uri)
      ensures dialled == if supported then old(dialled) + [id] else old(dialled)
      ensures ok == (supported && env.dialOk(|old(dialled)|))
    {
      if !WebSocket(uri) {
        return false, false;
      }
      ok := env.dialOk(|dialled|);
      dialled := dialled + [id];
      return true, ok;
    }

    method RecordFailure(id: NodeId, from: Option<Peer>) returns (error: Option<Error>)
      modifies this
      ensures (Contents(), error) == GiveUp(env, old(Contents()), id, from)
    {
      var counter: U64 := 0;
      if id in outgoingPeerFailures {
        counter := outgoingPeerFailures[id];
      }
      counter := (counter + 1) % WORD;
      outgoingPeerFailures := outgoingPeerFailures[id := counter];
      if counter >= env.maxFailures {
        var ok := BlockFrom(from);
        if !ok {
          return Some(CloseFailed);
        }
        outgoingPeerBlocklist := outgoingPeerBlocklist + {id};
      }
      return None;
    }

    method DialNode(uri: Uri, id: NodeId, retry: nat, from: Option<Peer>) returns (outcome: Outcome)
      modifies this
      ensures (Contents(), outcome) == Dial(env, old(Contents()), WebSocket(uri), id, retry, from)
      // a dial that succeeds forgets the node's failures and makes it pending
      ensures (uri.scheme == "ws" || uri.scheme == "wss") && env.dialOk(|old(dialled)|) ==>
        && outcome == Done(None) && id in peersPending && id !in outgoingPeerFailures
        && dialled == old(dialled) + [id] && reconnectDelay == old(reconnectDelay) && slept == old(slept)
    {
      var supported, ok := CreateSocket(uri, id);
      if !ok {
        if retry > env.maxAttempts {
          var error := RecordFailure(id, from);
          return Done(error);
        }
        if !supported {
          return Done(Some(TransportNotSupported));
        }
        var delay: U64 := 1;
        if id in reconnectDelay {
          delay := reconnectDelay[id];
        }
        reconnectDelay := reconnectDelay[id := (delay * 2) % WORD];
        slept := slept + Nap(delay);
        return Again;
      }
      if id in outgoingPeerFailures {
        outgoingPeerFailures := outgoingPeerFailures - {id};
      }
      assert outgoingPeerFailures == old(outgoingPeerFailures) - {id};
      peersPending := peersPending + {id};
      return Done(None);
    }

    method ConnectToNode(uris: seq<Uri>, retry: nat, from: Option<Peer>) returns (error: Option<Error>)
      modifies this
      ensures Contents() == Connect(env, old(Contents()), uris, retry, from).0
      ensures error == Connect(env, old(Contents()), uris, retry, from).1
      decreases env.maxAttempts + 2 - retry
    {
      if !up {
        return None;
      }
      var uri := ChooseUri(uris);
      if uri.None? {
        return Some(UnsupportedProtocol);
      }
      if uri.value.user.None? {
        return Some(MissingNodeId);
      }
      var decoded := env.decode(uri.value.user.value);
      if decoded.None? {
        return Some(BadNodeId);
      }
      var id := decoded.value;
      if id in peersPending || id in peers {
        return None;
      }
      if id in outgoingPeerBlocklist {
        var ok := BlockFrom(from);
        return if ok then None else Some(CloseFailed);
      }
      if id == env.local {
        return None;
      }
      var outcome := DialNode(uri.value, id, retry, from);
      match outcome {
        case Done(e) =>
          return e;
        case Again =>
          error := ConnectToNode(uris, retry + 1, from);
      }
    }

    method AddPeer(id: NodeId)
      modifies this`peers, this`reconnectDelay, this`peersPending
      ensures Contents() == Added(old(Contents()), id)
    {
      peers := peers + {id};
      reconnectDelay := reconnectDelay[id := 1];
      peersPending := peersPending - {id};
    }
  }

  function Added(s: State, id: NodeId): State {
    s.(peers := s.peers + {id}, delay := s.delay[id := 1], pending := s.pending - {id})
  }

  // ----- whom a call is for -----

  /** uris[i] is the one chosen: the first web socket URI, or without any, the first TCP one. */
  predicate Preferred(uris: seq<Uri>, i: nat) {
    && i < |uris|
    && if uris[i].scheme == "ws" || uris[i].scheme == "wss"
       then forall j :: 0 <= j < i ==> uris[j].scheme != "ws" && uris[j].scheme != "wss"
       else && uris[i].scheme == "tcp"
            && (forall j :: 0 <= j < |uris| ==> uris[j].scheme != "ws" && uris[j].scheme != "wss")
            && (forall j :: 0 <= j < i ==> uris[j].scheme != "tcp")
  }

  lemma {:induction false} FirstIsFirst(uris: seq<Uri>, want: Uri -> bool)
    ensures First(uris, want).None? <==> forall j :: 0 <= j < |uris| ==> !want(uris[j])
    ensures forall i :: 0 <= i < |uris| && want(uris[i]) && (forall j :: 0 <= j < i ==> !want(uris[j])) ==>
      First(uris, want) == Some(uris[i])
  {
    if uris != [] {
      FirstIsFirst(uris[1..], want);
      assert forall j :: 1 <= j < |uris| ==> uris[j] == uris[1..][j - 1];
    }
  }

  /** A URI is chosen exactly if there is a web socket or TCP one, and it is the preferred one. */
  lemma ChosenIff(uris: seq<Uri>)
    ensures Choose(uris).None?
       <==> forall j :: 0 <= j < |uris| ==> uris[j].scheme != "ws" && uris[j].scheme != "wss" && uris[j].scheme != "tcp"
    ensures forall i: nat :: Preferred(uris, i) ==> Choose(uris) == Some(uris[i])
  {
    FirstIsFirst(uris, WebSocket);
    FirstIsFirst(uris, Tcp);
  }

  /** A node is meant exactly if the chosen URI names it; otherwise the error says what is missing. */
  lemma TargetIff(env: Env, uris: seq<Uri>, id: NodeId)
    ensures var u := Choose(uris); var t := Target(env, uris);
      && (t == Ok(id) <==> u.Some? && u.value.user.Some? && env.decode(u.value.user.value) == Some(id))
      && (t == Err(UnsupportedProtocol) <==> u.None?)
      && (t == Err(MissingNodeId) <==> u.Some? && u.value.user.None?)
      && (t == Err(BadNodeId) <==> u.Some? && u.value.user.Some? && env.decode(u.value.user.value).None?)
  {
  }

  // ----- cost of a call whose dials all fail -----

  function Pow2(n: nat): nat {
    if n == 0 then 1 else 2 * Pow2(n - 1)
  }

  function Copies(id: NodeId, n: nat): seq<NodeId> {
    seq(n, i => id)
  }

  /** A call for id that will be dialled over web sockets, and whose dials all fail. */
  ghost predicate Hopeless(env: Env, s: State, uris: seq<Uri>, id: NodeId) {
    && s.up && Target(env, uris) == Ok(id) && WebSocket(Choose(uris).value)
    && id !in s.pending + s.peers + s.blockedOut && id != env.local
    && forall n: nat :: |s.dialled| <= n ==> !env.dialOk(n)
  }

  lemma ModAdd(x: int, y: int)
    ensures (x + y * WORD) % WORD == x % WORD
  {
    Endian.Remainder(x + y * WORD, WORD, x / WORD + y, x % WORD);
  }

  lemma ModTimes(a: int, k: int)
    ensures (a % WORD * k) % WORD == (a * k) % WORD
  {
    var q, r := a / WORD, a % WORD;
    assert a * k == r * k + (q * k) * WORD by {
      assert a == r + q * WORD;
    }
    ModAdd(r * k, q * k);
  }

  /** The naps of n failed dials in a row. */
  function Naps(d: U64, n: nat): nat
    decreases n
  {
    if n == 0 then 0 else Nap(d) + Naps((d * 2) % WORD, n - 1)
  }

  /** A nap is never longer than its delay, and as long exactly if the nanoseconds fit a signed word. */
  lemma NapIff(d: U64)
    ensures Nap(d) <= d * SECOND
    ensures Nap(d) == d * SECOND <==> d * 2 * SECOND < WORD
  {
  }

  /** In general it is the nanoseconds as a signed word, and no sleep at all if that is negative. */
  lemma NapWraps(d: U64, q: nat, r: nat)
    requires d * 1_000_000_000 == q * WORD + r && r < WORD
    ensures Nap(d) == if r < WORD / 2 then r else 0
  {
    Endian.Remainder(d * SECOND, WORD, q, r);
  }

  lemma AtLeast(x: nat, p: nat)
    requires p >= 1
    ensures x * p >= x
  {
  }

  lemma Smaller(a: nat, b: nat, k: nat)
    requires a <= b
    ensures a * k * SECOND <= b * k * SECOND
  {
    assert (b - a) * k >= 0;
    assert b * k == a * k + (b - a) * k;
  }

  lemma OneMoreDoubling(d: nat, p: nat)
    requires p >= 1
    ensures d * (2 * p - 1) * SECOND == d * SECOND + (d * 2) * (p - 1) * SECOND
    ensures d * (2 * p) * SECOND == (d * 2) * p * SECOND >= d * 2 * SECOND
  {
    assert d * (2 * p - 1) == d + (d * 2) * (p - 1);
    assert d * (2 * p) == (d * 2) * p;
    AtLeast(d * 2, p);
  }

  lemma SumWithoutWrap(d: nat, e: nat, p: nat, q: nat, nap: nat, rest: nat, last: bool)
    requires p >= 1 && q == 2 * p && e == d * 2 && (last ==> p == 1)
    requires nap <= d * SECOND && (nap == d * SECOND <==> e * SECOND < WORD)
    requires rest <= e * (p - 1) * SECOND
    requires rest == e * (p - 1) * SECOND <==> last || e * p * SECOND < WORD
    ensures nap + rest <= d * (q - 1) * SECOND
    ensures nap + rest == d * (q - 1) * SECOND <==> d * q * SECOND < WORD
  {
    OneMoreDoubling(d, p);
  }

  lemma SumWithWrap(d: nat, e: nat, p: nat, q: nat, nap: nat, rest: nat)
    requires p >= 1 && q == 2 * p && d * 2 >= WORD && e < d * 2
    requires nap < d * SECOND && rest <= e * (p - 1) * SECOND
    ensures nap + rest < d * (q - 1) * SECOND && d * q * SECOND >= WORD
  {
    OneMoreDoubling(d, p);
    Smaller(e, d * 2, p - 1);
  }

  lemma Doubled(d: U64)
    ensures d * 2 < WORD ==> (d * 2) % WORD == d * 2
    ensures d * 2 >= WORD ==> (d * 2) % WORD < d * 2 && d * 2 * SECOND >= WORD
  {
  }

  /** The naps add up to at most d * (2^n - 1) seconds, and to no less exactly if nothing overflows. */
  lemma {:induction false} NapsIff(d: U64, n: nat)
    ensures Naps(d, n) <= d * (Pow2(n) - 1) * SECOND
    ensures Naps(d, n) == d * (Pow2(n) - 1) * SECOND <==> n == 0 || d * Pow2(n) * SECOND < WORD
    decreases n
  {
    if n > 0 {
      var p, q, e := Pow2(n - 1), Pow2(n), (d * 2) % WORD;
      var nap, rest := Nap(d), Naps(e, n - 1);
      Positive(n - 1);
      NapIff(d);
      Doubled(d);
      NapsIff(e, n - 1);
      if d * 2 >= WORD {
        SumWithWrap(d, e, p, q, nap, rest);
      } else {
        SumWithoutWrap(d, e, p, q, nap, rest, n == 1);
      }
    }
  }

  lemma {:induction false} Positive(n: nat)
    ensures Pow2(n) >= 1
  {
    if n > 0 {
      Positive(n - 1);
    }
  }

  /** The state after n failed dials of id, each followed by its nap. */
  function BackedOff(s: State, id: NodeId, n: nat): State
    decreases n
  {
    if n == 0 then s else BackedOff(BackOff(s.(dialled := s.dialled + [id]), id), id, n - 1)
  }

  /** A call whose dials all fail is its remaining failed dials, one more, and giving up. */
  lemma {:induction false} HopelessCall(env: Env, s: State, uris: seq<Uri>, retry: nat, from: Option<Peer>, id: NodeId)
    requires Hopeless(env, s, uris, id) && retry <= env.maxAttempts + 1
    ensures var last := BackedOff(s, id, env.maxAttempts + 1 - retry);
            Connect(env, s, uris, retry, from) == GiveUp(env, last.(dialled := last.dialled + [id]), id, from)
    decreases env.maxAttempts + 1 - retry
  {
    if retry <= env.maxAttempts {
      HopelessCall(env, Attempt(env, s, uris, retry, from).0, uris, retry + 1, from, id);
    }
  }

  lemma {:induction false} BackedOffCost(s: State, id: NodeId, n: nat)
    ensures BackedOff(s, id, n).dialled == s.dialled + Copies(id, n)
    ensures BackedOff(s, id, n).failures == s.failures
    ensures Delay(BackedOff(s, id, n), id) == (Delay(s, id) * Pow2(n)) % WORD
    ensures BackedOff(s, id, n).slept == s.slept + Naps(Delay(s, id), n)
    decreases n
  {
    if n > 0 {
      BackedOffCost(BackOff(s.(dialled := s.dialled + [id]), id), id, n - 1);
      DoubledFirst(Delay(s, id), n);
      assert Copies(id, n) == [id] + Copies(id, n - 1);
    }
  }

  lemma DoubledFirst(d: U64, n: nat)
    requires n > 0
    ensures ((d * 2) % WORD * Pow2(n - 1)) % WORD == (d * Pow2(n)) % WORD
  {
    ModTimes(d * 2, Pow2(n - 1));
    assert d * 2 * Pow2(n - 1) == d * Pow2(n);
  }

  lemma GivenUp(env: Env, s: State, id: NodeId, from: Option<Peer>)
    ensures var after := GiveUp(env, s, id, from).0;
            && after.dialled == s.dialled && after.slept == s.slept && after.delay == s.delay
            && after.failures == s.failures[id := (Failures(s, id) + 1) % WORD]
  {
  }

  lemma CallCost(env: Env, s: State, uris: seq<Uri>, from: Option<Peer>, id: NodeId)
    requires Hopeless(env, s, uris, id)
    ensures var n, after := env.maxAttempts + 1, Connect(env, s, uris, 0, from).0;
            && after.dialled == s.dialled + Copies(id, n + 1)
            && after.failures == s.failures[id := (Failures(s, id) + 1) % WORD]
            && Delay(after, id) == (Delay(s, id) * Pow2(n)) % WORD
            && after.slept == s.slept + Naps(Delay(s, id), n)
  {
    var n := env.maxAttempts + 1;
    HopelessCall(env, s, uris, 0, from, id);
    var last := BackedOff(s, id, n);
    BackedOffCost(s, id, n);
    GivenUp(env, last.(dialled := last.dialled + [id]), id, from);
    assert Copies(id, n + 1) == Copies(id, n) + [id];
  }

  /** With budget M, a call whose dials all fail makes exactly M + 2 dials, doubles the delay M + 1
      times modulo 2^64, counts one failure, and sleeps at most d * (2^(M+1) - 1) seconds: as much as
      that exactly if no nap overflows. */
  lemma ExhaustedCost(env: Env, s: State, uris: seq<Uri>, from: Option<Peer>, id: NodeId)
    requires Hopeless(env, s, uris, id)
    ensures var M, d, after := env.maxAttempts, Delay(s, id), Connect(env, s, uris, 0, from).0;
            && after.dialled == s.dialled + Copies(id, M + 2)
            && after.failures == s.failures[id := (Failures(s, id) + 1) % WORD]
            && Delay(after, id) == (d * Pow2(M + 1)) % WORD
            && after.slept <= s.slept + d * (Pow2(M + 1) - 1) * SECOND
            && (after.slept == s.slept + d * (Pow2(M + 1) - 1) * SECOND <==> d * Pow2(M + 1) * SECOND < WORD)
  {
    CallCost(env, s, uris, from, id);
    NapsIff(Delay(s, id), env.maxAttempts + 1);
  }

  /** Doubling a 64-bit delay 64 times leaves no delay at all. */
  lemma DelayVanishes(env: Env, s: State, uris: seq<Uri>, from: Option<Peer>, id: NodeId)
    requires Hopeless(env, s, uris, id) && env.maxAttempts >= 63
    ensures Delay(Connect(env, s, uris, 0, from).0, id) == 0
  {
    ExhaustedCost(env, s, uris, from, id);
    ManyDoublings(Delay(s, id), env.maxAttempts + 1);
  }

  /** A delay of 2^j, as all delays but vanished ones are, vanishes exactly if j + M + 1 reaches 64. */
  lemma DelayVanishesIff(env: Env, s: State, uris: seq<Uri>, from: Option<Peer>, id: NodeId, j: nat)
    requires Hopeless(env, s, uris, id) && j < 64 && Delay(s, id) == Pow2(j)
    ensures Delay(Connect(env, s, uris, 0, from).0, id) == 0 <==> j + env.maxAttempts + 1 >= 64
  {
    ExhaustedCost(env, s, uris, from, id);
    Pow2Adds(j, env.maxAttempts + 1);
    VanishIff(j + env.maxAttempts + 1);
  }

  lemma VanishIff(n: nat)
    ensures Pow2(n) % WORD == 0 <==> n >= 64
  {
    if n >= 64 {
      WordDivides(n);
    } else {
      Positive(n);
      Below(n);
      Endian.Remainder(Pow2(n), WORD, 0, Pow2(n));
    }
  }

  lemma {:induction false} Below(n: nat)
    requires n < 64
    ensures Pow2(n) < WORD
    decreases 64 - n
  {
    Word();
    if n < 63 {
      Below(n + 1);
      assert Pow2(n + 1) == 2 * Pow2(n);
    } else {
      assert Pow2(64) == 2 * Pow2(63);
      Positive(63);
    }
  }

  lemma ManyDoublings(d: U64, n: nat)
    requires n >= 64
    ensures (d * Pow2(n)) % WORD == 0
  {
    WordDivides(n);
    ZeroTimes(Pow2(n), d);
  }

  lemma ZeroTimes(p: int, d: int)
    requires p % WORD == 0
    ensures (d * p) % WORD == 0
  {
    ModTimes(p, d);
    assert p % WORD * d == 0;
    assert d * p == p * d;
  }

  lemma {:induction false} WordDivides(n: nat)
    requires n >= 64
    ensures Pow2(n) % WORD == 0
  {
    if n == 64 {
      Word();
    } else {
      WordDivides(n - 1);
      ModTimes(Pow2(n - 1), 2);
    }
  }

  lemma Word()
    ensures Pow2(64) == WORD
  {
    assert Pow2(8) == 256;
    Pow2Adds(8, 8);
    Pow2Adds(16, 16);
    Pow2Adds(32, 32);
  }

  lemma {:induction false} Pow2Adds(a: nat, b: nat)
    ensures Pow2(a + b) == Pow2(a) * Pow2(b)
  {
    if a > 0 {
      Pow2Adds(a - 1, b);
      assert a + b - 1 == a - 1 + b;
      Twice(Pow2(a - 1), Pow2(b));
    }
  }

  lemma Twice(p: nat, q: nat)
    ensures 2 * (p * q) == (2 * p) * q
  {
  }

  /** Whatever the dials' outcomes, a call dials its own target only, at most M + 2 times. */
  lemma {:induction false} DialBound(env: Env, s: State, uris: seq<Uri>, retry: nat, from: Option<Peer>)
    requires retry <= env.maxAttempts + 1
    ensures var after := Connect(env, s, uris, retry, from).0;
            && s.dialled <= after.dialled
            && |after.dialled| - |s.dialled| <= env.maxAttempts + 2 - retry
            && forall x :: x in after.dialled[|s.dialled|..] ==> Target(env, uris) == Ok(x)
    decreases env.maxAttempts + 2 - retry
  {
    AttemptDials(env, s, uris, retry, from);
    var (next, outcome) := Attempt(env, s, uris, retry, from);
    if outcome.Again? {
      assert retry <= env.maxAttempts;
      DialBound(env, next, uris, retry + 1, from);
    }
  }

  // ----- runs: attempts of any callers in any order, between other events -----

  /** An attempt of some call, a finished handshake, a closed connection, or the services' state. */
  datatype Event =
    | Tried(uris: seq<Uri>, retry: nat, from: Option<Peer>)
    | Authenticated(id: NodeId)
    | Closed(id: NodeId)
    | Services(running: bool)

  function After(env: Env, s: State, e: Event): State {
    match e
    case Tried(uris, retry, from) => Attempt(env, s, uris, retry, from).0
    case Authenticated(id) => Added(s, id)
    case Closed(id) => s.(peers := s.peers - {id}, pending := s.pending - {id})
    case Services(running) => s.(up := running)
  }

  function AfterAll(env: Env, s: State, es: seq<Event>): State
    decreases |es|
  {
    if es == [] then s else AfterAll(env, After(env, s, es[0]), es[1..])
  }

  /** es are attempts with one retry more each, ending in the given state and with the given error. */
  ghost predicate Attempts(env: Env, s: State, uris: seq<Uri>, retry: nat, from: Option<Peer>, es: seq<Event>,
                           after: State, error: Option<Error>) {
    && es != [] && (forall i :: 0 <= i < |es| ==> es[i] == Tried(uris, retry + i, from))
    && AfterAll(env, s, es) == after
    && Attempt(env, AfterAll(env, s, es[..|es| - 1]), uris, retry + |es| - 1, from).1 == Done(error)
  }

  /** A call is a run of attempts, so what holds over runs holds over calls, however interleaved; the
      call's error is that of its last attempt. */
  lemma {:induction false} CallIsRun(env: Env, s: State, uris: seq<Uri>, retry: nat, from: Option<Peer>)
    returns (es: seq<Event>)
    ensures var (after, error) := Connect(env, s, uris, retry, from);
      Attempts(env, s, uris, retry, from, es, after, error)
    ensures AfterAll(env, s, es) == Connect(env, s, uris, retry, from).0
    decreases env.maxAttempts + 2 - retry
  {
    var (next, outcome) := Attempt(env, s, uris, retry, from);
    var (after, error) := Connect(env, s, uris, retry, from);
    if outcome.Again? {
      es := CallIsRun(env, next, uris, retry + 1, from);
      AttemptBefore(env, s, uris, retry, from, es, after, error);
      es := [Tried(uris, retry, from)] + es;
    } else {
      es := [Tried(uris, retry, from)];
      assert es[1..] == [] && es[..0] == [];
    }
  }

  lemma AttemptBefore(env: Env, s: State, uris: seq<Uri>, retry: nat, from: Option<Peer>, rest: seq<Event>,
                      after: State, error: Option<Error>)
    requires Attempts(env, After(env, s, Tried(uris, retry, from)), uris, retry + 1, from, rest, after, error)
    ensures Attempts(env, s, uris, retry, from, [Tried(uris, retry, from)] + rest, after, error)
  {
    var e, es := Tried(uris, retry, from), [Tried(uris, retry, from)] + rest;
    RunCons(env, s, e, rest);
    RunCons(env, s, e, rest[..|rest| - 1]);
    assert es[..|es| - 1] == [e] + rest[..|rest| - 1];
  }

  lemma RunCons(env: Env, s: State, e: Event, rest: seq<Event>)
    ensures AfterAll(env, s, [e] + rest) == AfterAll(env, After(env, s, e), rest)
  {
    assert ([e] + rest)[1..] == rest;
  }

  // ----- what one event does, node by node -----

  /** An attempt for a node it may dial. */
  predicate Wants(env: Env, s: State, e: Event, id: NodeId) {
    && e.Tried? && s.up && Target(env, e.uris) == Ok(id)
    && id !in s.pending + s.peers + s.blockedOut && id != env.local
  }

  /** It dials the node: only web sockets are supported. */
  predicate Dials(env: Env, s: State, e: Event, id: NodeId) {
    Wants(env, s, e, id) && (Choose(e.uris).value.scheme == "ws" || Choose(e.uris).value.scheme == "wss")
  }

  /** The dial succeeds. */
  predicate Reaches(env: Env, s: State, e: Event, id: NodeId) {
    Dials(env, s, e, id) && env.dialOk(|s.dialled|)
  }

  /** It fails with retries left. */
  predicate Retries(env: Env, s: State, e: Event, id: NodeId) {
    Dials(env, s, e, id) && !env.dialOk(|s.dialled|) && e.retry <= env.maxAttempts
  }

  /** Failures are those of the node dialled only: forgotten by a dial that succeeds, one more with a give-up. */
  lemma StepOfRecord(env: Env, s: State, e: Event, id: NodeId)
    ensures Reaches(env, s, e, id) ==> After(env, s, e).failures == s.failures - {id}
    ensures GivesUp(env, s, e, id) ==> After(env, s, e).failures == s.failures[id := (Failures(s, id) + 1) % WORD]
  {
  }

  lemma RecordKept(env: Env, s: State, e: Event)
    requires forall id :: !Reaches(env, s, e, id) && !GivesUp(env, s, e, id)
    ensures After(env, s, e).failures == s.failures
  {
    if e.Tried? && Target(env, e.uris).Ok? {
      assert !Reaches(env, s, e, Target(env, e.uris).value) && !GivesUp(env, s, e, Target(env, e.uris).value);
    }
  }

  /** Failures count the give-ups and are forgotten by a dial that succeeds. */
  lemma StepOfFailures(env: Env, s: State, e: Event, id: NodeId)
    ensures Failures(After(env, s, e), id) == if Reaches(env, s, e, id) then 0
                                              else if GivesUp(env, s, e, id) then (Failures(s, id) + 1) % WORD
                                              else Failures(s, id)
  {
    if t :| Reaches(env, s, e, t) || GivesUp(env, s, e, t) {
      StepOfRecord(env, s, e, t);
      assert Reaches(env, s, e, id) || GivesUp(env, s, e, id) ==> id == t;
    } else {
      RecordKept(env, s, e);
    }
  }

  /** A dial that succeeds makes the node pending, until its handshake is done or it is closed; a peer
      is one from its handshake until it is closed. */
  lemma StepOfFiling(env: Env, s: State, e: Event, id: NodeId)
    ensures var next := After(env, s, e);
      && (id in next.pending <==>
            Reaches(env, s, e, id) || (id in s.pending && e != Authenticated(id) && e != Closed(id)))
      && (id in next.peers <==> e == Authenticated(id) || (id in s.peers && e != Closed(id)))
  {
    if e.Tried? && s.up && Target(env, e.uris).Ok? {
      var t := Target(env, e.uris).value;
      // the cases of an attempt, in its order
      if t in s.pending || t in s.peers {
      } else if t in s.blockedOut {
      } else if t == env.local {
      } else if Reaches(env, s, e, t) {
      } else if e.retry > env.maxAttempts {
      } else {
      }
    }
  }

  /** A delay starts at 1, is doubled by each dial that will be retried and starts anew with a handshake. */
  lemma StepOfDelay(env: Env, s: State, e: Event, id: NodeId)
    ensures Delay(After(env, s, e), id) == if e == Authenticated(id) then 1
                                           else if Retries(env, s, e, id) then (Delay(s, id) * 2) % WORD
                                           else Delay(s, id)
  {
  }

  /** Only the node dialled is logged, and the old delay is slept before a retry and nowhere else. */
  lemma StepOfLog(env: Env, s: State, e: Event)
    ensures var next := After(env, s, e);
      && (forall id :: Dials(env, s, e, id) ==> next.dialled == s.dialled + [id])
      && ((forall id :: !Dials(env, s, e, id)) ==> next.dialled == s.dialled)
      && (forall id :: Retries(env, s, e, id) ==> next.slept == s.slept + Nap(Delay(s, id)))
      && ((forall id :: !Retries(env, s, e, id)) ==> next.slept == s.slept)
  {
    if e.Tried? && s.up && Target(env, e.uris).Ok? {
      var t := Target(env, e.uris).value;
      // the cases of an attempt, in its order
      if t in s.pending || t in s.peers {
      } else if t in s.blockedOut {
      } else if t == env.local {
      } else if Reaches(env, s, e, t) {
      } else if e.retry > env.maxAttempts {
      } else if Retries(env, s, e, t) {
      } else {
        assert !WebSocket(Choose(e.uris).value);
      }
    }
  }

  /** A node is blocked by a give-up at the limit whose sender, if any, closes. */
  lemma StepOfBlocks(env: Env, s: State, e: Event, id: NodeId)
    ensures id in After(env, s, e).blockedOut <==>
      || id in s.blockedOut
      || (&& GivesUp(env, s, e, id) && (Failures(s, id) + 1) % WORD >= env.maxFailures
          && (e.from.None? || env.closeOk(s.closes)))
  {
    if e.Tried? && s.up && Target(env, e.uris).Ok? {
      var t := Target(env, e.uris).value;
      // the cases of an attempt, in its order
      if t in s.pending || t in s.peers {
      } else if t in s.blockedOut {
      } else if t == env.local {
      } else if Reaches(env, s, e, t) {
      } else if GivesUp(env, s, e, t) {
      } else {
      }
    }
  }

  /** The sender is kept out and closed for passing on a blocked node, or one given up at the limit. */
  lemma StepOfSender(env: Env, s: State, e: Event, id: NodeId)
    requires BlocksSender(env, s, e, id)
    ensures var next := After(env, s, e);
      && next.closes == s.closes + (if e.from.Some? then 1 else 0)
      && next.blockedIPs == s.blockedIPs + (if e.from.Some? then {e.from.value.ip} else {})
      && next.blockedIn == s.blockedIn + (if e.from.Some? && e.from.value.id.Some?
                                          then {e.from.value.id.value} else {})
  {
    if id in s.blockedOut {
      assert After(env, s, e) == BlockSender(env, s, e.from).0;
      SenderKeptOut(env, s, e.from);
    } else {
      var last := s.(dialled := After(env, s, e).dialled);
      assert After(env, s, e) == GiveUp(env, last, id, e.from).0;
      SenderKeptOut(env, last.(failures := last.failures[id := (Failures(s, id) + 1) % WORD]), e.from);
    }
  }

  lemma SenderKeptOut(env: Env, s: State, from: Option<Peer>)
    ensures var next := BlockSender(env, s, from).0;
      && next.closes == s.closes + (if from.Some? then 1 else 0)
      && next.blockedIPs == s.blockedIPs + (if from.Some? then {from.value.ip} else {})
      && next.blockedIn == s.blockedIn + (if from.Some? && from.value.id.Some? then {from.value.id.value} else {})
  {
  }

  /** Without such a case nobody is closed or kept out. */
  lemma NobodyBlocked(env: Env, s: State, e: Event)
    requires forall id :: !BlocksSender(env, s, e, id)
    ensures var next := After(env, s, e);
      next.closes == s.closes && next.blockedIPs == s.blockedIPs && next.blockedIn == s.blockedIn
  {
    if e.Tried? && Target(env, e.uris).Ok? {
      assert !BlocksSender(env, s, e, Target(env, e.uris).value);
    }
  }

  /** What an attempt returns. */
  lemma OutcomeIff(env: Env, s: State, e: Event)
    requires e.Tried?
    ensures var r := Attempt(env, s, e.uris, e.retry, e.from).1; var t := Target(env, e.uris);
      && (r.Again? <==> t.Ok? && Retries(env, s, e, t.value))
      && (forall error :: t == Err(error) && s.up ==> r == Done(Some(error)))
      && (r == Done(Some(TransportNotSupported)) <==>
            t.Ok? && Wants(env, s, e, t.value) && !Dials(env, s, e, t.value) && e.retry <= env.maxAttempts)
      && (r == Done(Some(CloseFailed)) <==>
            t.Ok? && BlocksSender(env, s, e, t.value) && e.from.Some? && !env.closeOk(s.closes))
  {
  }

  predicate PowerOrNone(d: U64) {
    d == 0 || exists j: nat :: j < 64 && d == Pow2(j)
  }

  ghost predicate DelaysArePowers(s: State) {
    forall id :: id in s.delay ==> PowerOrNone(s.delay[id])
  }

  lemma DoubledPower(d: U64)
    requires PowerOrNone(d)
    ensures PowerOrNone((d * 2) % WORD)
  {
    if d != 0 {
      var j: nat :| j < 64 && d == Pow2(j);
      assert Pow2(j + 1) == d * 2;
      if j < 63 {
        Below(j + 1);
        assert (d * 2) % WORD == Pow2(j + 1);
      } else {
        Word();
      }
    }
  }

  /** After any run, every delay is a power of two, or has vanished. */
  lemma {:induction false} DelaysStayPowers(env: Env, s: State, es: seq<Event>)
    requires DelaysArePowers(s)
    ensures DelaysArePowers(AfterAll(env, s, es))
    decreases |es|
  {
    if es != [] {
      StepDelays(env, s, es[0]);
      DelaysStayPowers(env, After(env, s, es[0]), es[1..]);
    }
  }

  lemma StepDelays(env: Env, s: State, e: Event)
    requires DelaysArePowers(s)
    ensures DelaysArePowers(After(env, s, e))
  {
    assert Pow2(0) == 1 && PowerOrNone(1);
    if e.Tried? && Target(env, e.uris).Ok? {
      DoubledPower(Delay(s, Target(env, e.uris).value));
    }
  }

  /** Every node that has failed as often as allowed is blocked. */
  ghost predicate FailuresBlocked(env: Env, s: State) {
    forall id :: id in s.failures && s.failures[id] >= env.maxFailures ==> id in s.blockedOut
  }

  /** An attempt that gives up on id after its last dial. */
  predicate GivesUp(env: Env, s: State, e: Event, id: NodeId) {
    && e.Tried? && s.up && Target(env, e.uris) == Ok(id)
    && id !in s.pending + s.peers + s.blockedOut && id != env.local
    && e.retry > env.maxAttempts && !(WebSocket(Choose(e.uris).value) && env.dialOk(|s.dialled|))
  }

  /** The one way to lose the invariant: at the limit, the sender's connection fails to close. */
  predicate CloseFails(env: Env, s: State, e: Event, id: NodeId) {
    GivesUp(env, s, e, id) && (Failures(s, id) + 1) % WORD >= env.maxFailures && e.from.Some? && !env.closeOk(s.closes)
  }

  /** A sender is newly blocked exactly for passing on a node that is blocked, or one on which an
      attempt gives up at the limit. */
  lemma SenderBlockedIff(env: Env, s: State, e: Event, p: Peer)
    requires e.Tried? && e.from == Some(p) && p.ip !in s.blockedIPs
    ensures p.ip in After(env, s, e).blockedIPs <==> exists id :: BlocksSender(env, s, e, id)
    ensures p.ip in After(env, s, e).blockedIPs && p.id.Some? ==> p.id.value in After(env, s, e).blockedIn
  {
    if Target(env, e.uris).Ok? {
      var id := Target(env, e.uris).value;
      assert BlocksSender(env, s, e, id) <==> p.ip in After(env, s, e).blockedIPs;
    }
  }

  predicate BlocksSender(env: Env, s: State, e: Event, id: NodeId) {
    || (e.Tried? && s.up && Target(env, e.uris) == Ok(id) && id !in s.pending + s.peers && id in s.blockedOut)
    || (GivesUp(env, s, e, id) && (Failures(s, id) + 1) % WORD >= env.maxFailures)
  }

  /** The invariant is kept exactly unless the sender's connection fails to close. */
  lemma FailuresBlockedIff(env: Env, s: State, e: Event)
    requires FailuresBlocked(env, s)
    ensures FailuresBlocked(env, After(env, s, e)) <==> !exists id :: CloseFails(env, s, e, id)
  {
    if e.Tried? && Target(env, e.uris).Ok? {
      var id := Target(env, e.uris).value;
      if CloseFails(env, s, e, id) {
        assert id in After(env, s, e).failures;
      }
    }
  }

  /** If closings succeed, the invariant holds after any run. */
  lemma {:induction false} FailuresAlwaysBlocked(env: Env, s: State, es: seq<Event>)
    requires FailuresBlocked(env, s) && forall n: nat :: env.closeOk(n)
    ensures FailuresBlocked(env, AfterAll(env, s, es))
    decreases |es|
  {
    if es != [] {
      FailuresBlockedIff(env, s, es[0]);
      FailuresAlwaysBlocked(env, After(env, s, es[0]), es[1..]);
    }
  }

  /** Blocking is for good: a blocked node stays blocked and is not dialled again. */
  lemma {:induction false} BlockedForGood(env: Env, s: State, es: seq<Event>, id: NodeId)
    requires id in s.blockedOut
    ensures id in AfterAll(env, s, es).blockedOut
    ensures s.dialled <= AfterAll(env, s, es).dialled
    ensures id !in AfterAll(env, s, es).dialled[|s.dialled|..]
    decreases |es|
  {
    if es != [] {
      StepDials(env, s, es[0]);
      BlockedForGood(env, After(env, s, es[0]), es[1..], id);
    }
  }

  lemma AttemptDials(env: Env, s: State, uris: seq<Uri>, retry: nat, from: Option<Peer>)
    ensures var next := Attempt(env, s, uris, retry, from).0;
            && s.blockedOut <= next.blockedOut
            && (next.dialled == s.dialled ||
                (Target(env, uris).Ok? && Target(env, uris).value !in s.blockedOut &&
                 next.dialled == s.dialled + [Target(env, uris).value]))
  {
  }

  lemma StepDials(env: Env, s: State, e: Event)
    ensures s.blockedOut <= After(env, s, e).blockedOut && s.dialled <= After(env, s, e).dialled
    ensures forall x :: x in After(env, s, e).dialled[|s.dialled|..] ==> x !in s.blockedOut
  {
    if e.Tried? {
      AttemptDials(env, s, e.uris, e.retry, e.from);
    }
  }

  /** With closings that succeed, a node whose failures reached the limit is never dialled again. */
  lemma FailedOutNeverDialled(env: Env, s: State, es: seq<Event>, later: seq<Event>, id: NodeId)
    requires s.failures == map[] && forall n: nat :: env.closeOk(n)
    requires Failures(AfterAll(env, s, es), id) >= env.maxFailures && id in AfterAll(env, s, es).failures
    ensures var reached := AfterAll(env, s, es);
            && reached.dialled <= AfterAll(env, reached, later).dialled
            && id !in AfterAll(env, reached, later).dialled[|reached.dialled|..]
  {
    FailuresAlwaysBlocked(env, s, es);
    BlockedForGood(env, AfterAll(env, s, es), later, id);
  }

  // ----- dials that succeed -----

  /** How often a call gave up on id since the last dial of it that succeeded, n times before the run. */
  ghost function GiveUpsSince(env: Env, s: State, es: seq<Event>, id: NodeId, n: nat): nat
    decreases |es|
  {
    if es == [] then n
    else GiveUpsSince(env, After(env, s, es[0]), es[1..], id,
                      if Reaches(env, s, es[0], id) then 0 else if GivesUp(env, s, es[0], id) then n + 1 else n)
  }

  /** After any run a node's failures are the give-ups on it since the last dial of it that succeeded. */
  lemma {:induction false} FailuresAreGiveUps(env: Env, s: State, es: seq<Event>, id: NodeId, n: nat)
    requires Failures(s, id) == n % WORD
    ensures Failures(AfterAll(env, s, es), id) == GiveUpsSince(env, s, es, id, n) % WORD
    decreases |es|
  {
    if es != [] {
      StepOfFailures(env, s, es[0], id);
      NextFailure(n);
      FailuresAreGiveUps(env, After(env, s, es[0]), es[1..], id,
                         if Reaches(env, s, es[0], id) then 0 else if GivesUp(env, s, es[0], id) then n + 1 else n);
    }
  }

  lemma NextFailure(n: nat)
    ensures (n % WORD + 1) % WORD == (n + 1) % WORD
  {
    assert n + 1 == n % WORD + 1 + (n / WORD) * WORD;
    ModAdd(n % WORD + 1, n / WORD);
  }

  /** How often a dial of id was to be retried since its last handshake, n times before the run. */
  ghost function RetriesSince(env: Env, s: State, es: seq<Event>, id: NodeId, n: nat): nat
    decreases |es|
  {
    if es == [] then n
    else RetriesSince(env, After(env, s, es[0]), es[1..], id,
                      if es[0] == Authenticated(id) then 0 else if Retries(env, s, es[0], id) then n + 1 else n)
  }

  /** After any run a node's delay is two to the power of its retries since its last handshake. */
  lemma {:induction false} DelaysAreRetries(env: Env, s: State, es: seq<Event>, id: NodeId, n: nat)
    requires Delay(s, id) == Pow2(n) % WORD
    ensures Delay(AfterAll(env, s, es), id) == Pow2(RetriesSince(env, s, es, id, n)) % WORD
    decreases |es|
  {
    if es != [] {
      var m := if es[0] == Authenticated(id) then 0 else if Retries(env, s, es[0], id) then n + 1 else n;
      StepOfDelay(env, s, es[0], id);
      ModTimes(Pow2(n), 2);
      assert Pow2(0) == 1 && Pow2(n + 1) == Pow2(n) * 2;
      DelaysAreRetries(env, After(env, s, es[0]), es[1..], id, m);
    }
  }

  /** A node that is pending or a peer stays one of the two, and is not dialled again, while no
      connection with its id is closed. */
  lemma {:induction false} ReachedNotRedialled(env: Env, s: State, es: seq<Event>, id: NodeId)
    requires id in s.pending + s.peers && Closed(id) !in es
    ensures var after := AfterAll(env, s, es);
      && id in after.pending + after.peers
      && s.dialled <= after.dialled && id !in after.dialled[|s.dialled|..]
    decreases |es|
  {
    if es != [] {
      StepOfFiling(env, s, es[0], id);
      assert es[0] in es;
      LoggedOther(env, s, es[0], id);
      ReachedNotRedialled(env, After(env, s, es[0]), es[1..], id);
    }
  }

  lemma LoggedOther(env: Env, s: State, e: Event, id: NodeId)
    requires !Dials(env, s, e, id)
    ensures s.dialled <= After(env, s, e).dialled && id !in After(env, s, e).dialled[|s.dialled|..]
  {
    StepOfLog(env, s, e);
    if other :| Dials(env, s, e, other) {
      assert After(env, s, e).dialled == s.dialled + [other];
    }
  }

  /** A call whose last dial succeeded returns without an error, and leaves its node pending and
      without failures; one whose dials all failed leaves it with one failure more. */
  lemma {:induction false} CallReaches(env: Env, s: State, uris: seq<Uri>, retry: nat, from: Option<Peer>, id: NodeId)
    requires Target(env, uris) == Ok(id)
    ensures var (after, error) := Connect(env, s, uris, retry, from);
      |after.dialled| > |s.dialled| ==>
        if env.dialOk(|after.dialled| - 1)
        then error == None && id in after.pending && id !in after.failures && after.blockedOut == s.blockedOut
        else id !in after.pending && Failures(after, id) == (Failures(s, id) + 1) % WORD
    decreases env.maxAttempts + 2 - retry
  {
    var e := Tried(uris, retry, from);
    var (next, outcome) := Attempt(env, s, uris, retry, from);
    CallStep(env, s, e, id);
    if outcome.Again? {
      CallReaches(env, next, uris, retry + 1, from, id);
      Redials(env, s, e, id);
    }
  }

  /** The attempt that ends a call, and the ones before it. */
  lemma CallStep(env: Env, s: State, e: Event, id: NodeId)
    requires e.Tried? && Target(env, e.uris) == Ok(id)
    ensures var (next, outcome) := Attempt(env, s, e.uris, e.retry, e.from);
      && (outcome.Again? <==> Retries(env, s, e, id))
      && (outcome.Done? && |next.dialled| > |s.dialled| ==>
            && |next.dialled| == |s.dialled| + 1
            && if env.dialOk(|s.dialled|)
               then && outcome == Done(None) && id in next.pending && id !in next.failures
                    && next.blockedOut == s.blockedOut
               else id !in next.pending && Failures(next, id) == (Failures(s, id) + 1) % WORD)
  {
  }

  /** After a failed dial with retries left, the next attempt of the same call dials again. */
  lemma Redials(env: Env, s: State, e: Event, id: NodeId)
    requires Retries(env, s, e, id)
    ensures var next := After(env, s, e);
      && next.dialled == s.dialled + [id] && Failures(next, id) == Failures(s, id) && next.blockedOut == s.blockedOut
      && Dials(env, next, Tried(e.uris, e.retry + 1, e.from), id)
      && |Connect(env, next, e.uris, e.retry + 1, e.from).0.dialled| > |next.dialled|
  {
    var (later, outcome) := Attempt(env, After(env, s, e), e.uris, e.retry + 1, e.from);
    if outcome.Again? {
      DialBound(env, later, e.uris, e.retry + 2, e.from);
    }
  }

  /** Without that: a node at its limit whose sender fails to close is dialled by the next attempt. */
  lemma CloseFailureRedials(env: Env, s: State, e: Event, id: NodeId)
    requires CloseFails(env, s, e, id) && WebSocket(Choose(e.uris).value)
    ensures var next := After(env, s, e);
            id !in next.blockedOut && After(env, next, e).dialled == next.dialled + [id]
  {
  }
}
