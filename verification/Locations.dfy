/** The store of storage locations learnt from announcements (service/default/storage.go). */
module Locations {
  import opened Base
  import A = Announcement

  /** What is stored for a node under a hash and a kind: fields 1, 3 and 4 of the details map. */
  datatype Record = Record(parts: seq<Bytes>, expiry: int, message: Bytes)

  type NodeStorage = map<NodeId, Record>
  type LocationMap = map<int, NodeStorage>

  datatype StorageLocation = StorageLocation(kind: int, parts: seq<Bytes>, expiry: int, providerMessage: Bytes)

  datatype Addition = Addition(hash: Bytes, node: NodeId, location: A.Location, message: Bytes)

  function Stored(a: Addition): Record {
    Record(a.location.parts, a.location.expiry, a.message)
  }

  function ReadMap(bucket: map<Bytes, LocationMap>, hash: Bytes): LocationMap {
    if hash in bucket then bucket[hash] else map[]
  }

  function ReadNodes(db: LocationMap, kind: int): NodeStorage {
    if kind in db then db[kind] else map[]
  }

  function Add(bucket: map<Bytes, LocationMap>, a: Addition): map<Bytes, LocationMap> {
    var db := ReadMap(bucket, a.hash);
    var nodes := ReadNodes(db, a.location.kind)[a.node := Stored(a)];
    bucket[a.hash := db[a.location.kind := nodes]]
  }

  predicate Live(db: LocationMap, kind: int, node: NodeId, now: int) {
    kind in db && node in db[kind] && db[kind][node].expiry >= now
  }

  function Entry(db: LocationMap, kind: int, node: NodeId): StorageLocation
    requires kind in db && node in db[kind]
  {
    var r := db[kind][node];
    StorageLocation(kind, r.parts, r.expiry, r.message)
  }

  /** The entry of the last listed kind under which the node has an unexpired record. */
  function Lookup(db: LocationMap, kinds: seq<int>, node: NodeId, now: int): Option<StorageLocation> {
    if kinds == [] then None
    else
      var last := kinds[|kinds| - 1];
      if Live(db, last, node, now) then Some(Entry(db, last, node))
      else Lookup(db, kinds[..|kinds| - 1], node, now)
  }

  function Nodes(db: LocationMap): set<NodeId> {
    set kind, n | kind in db && n in db[kind] :: n
  }

  /** The nodes with an unexpired record of a listed kind. */
  function Available(db: LocationMap, kinds: seq<int>, now: int): set<NodeId> {
    set n | n in Nodes(db) && Lookup(db, kinds, n, now).Some?
  }

  lemma {:induction false} LookupAvailable(db: LocationMap, kinds: seq<int>, now: int, n: NodeId)
    ensures n in Available(db, kinds, now) <==> Lookup(db, kinds, n, now).Some?
  {
    if kinds != [] {
      LookupAvailable(db, kinds[..|kinds| - 1], now, n);
    }
  }

  class StorageService {
    var bucket: map<Bytes, LocationMap>

    constructor ()
      ensures bucket == map[]
    {
      bucket := map[];
    }

    /** readOk and putOk are the outcomes of the bucket's Get and Put. */
    method AddStorageLocation(hash: Bytes, node: NodeId, location: A.Location, message: Bytes,
                              readOk: bool, putOk: bool)
      returns (ok: bool)
      modifies this
      ensures ok <==> readOk && putOk
      ensures bucket == if ok then Add(old(bucket), Addition(hash, node, location, message)) else old(bucket)
    {
      if !readOk {
        return false;
      }
      var locationDb: LocationMap := map[];
      if hash in bucket {
        locationDb := bucket[hash];
      }
      var innerMap: NodeStorage := map[];
      if location.kind in locationDb {
        innerMap := locationDb[location.kind];
      }
      innerMap := innerMap[node := Record(location.parts, location.expiry, message)];
      locationDb := locationDb[location.kind := innerMap];
      if !putOk {
        return false;
      }
      bucket := bucket[hash := locationDb];
      return true;
    }

    /** local is the node's own id and location when the caller asks for it and the node can provide. */
    method GetCachedStorageLocations(hash: Bytes, kinds: seq<int>, local: Option<(NodeId, StorageLocation)>, now: int,
                                     readOk: bool)
      returns (ok: bool, locations: map<NodeId, StorageLocation>)
      ensures ok == readOk
      ensures ok ==> forall n :: Lookup(ReadMap(bucket, hash), kinds, n, now).Some? ==>
        n in locations && locations[n] == Lookup(ReadMap(bucket, hash), kinds, n, now).value
      ensures ok ==> forall n :: Lookup(ReadMap(bucket, hash), kinds, n, now).None? ==>
        (n in locations <==> local.Some? && local.value.0 == n) && (n in locations ==> locations[n] == local.value.1)
    {
      ok, locations := readOk, map[];
      if !readOk {
        return;
      }
      var locationMap := ReadMap(bucket, hash);
      if local.Some? {
        locations := locations[local.value.0 := local.value.1];
      }
      ghost var start := locations;
      for i := 0 to |kinds|
        invariant forall n :: Lookup(locationMap, kinds[..i], n, now).Some? ==>
          n in locations && locations[n] == Lookup(locationMap, kinds[..i], n, now).value
        invariant forall n :: Lookup(locationMap, kinds[..i], n, now).None? ==>
          (n in locations <==> n in start) && (n in locations ==> locations[n] == start[n])
      {
        var t := kinds[i];
        assert kinds[..i + 1][..i] == kinds[..i];
        if t in locationMap {
          var nodeMap := locationMap[t];
          ghost var before := locations;
          var rest := nodeMap.Keys;
          while rest != {}
            invariant rest <= nodeMap.Keys
            invariant forall n :: n !in rest && Live(locationMap, t, n, now) ==>
              n in locations && locations[n] == Entry(locationMap, t, n)
            invariant forall n :: n in rest || !Live(locationMap, t, n, now) ==>
              (n in locations <==> n in before) && (n in locations ==> locations[n] == before[n])
            decreases rest
          {
            var key :| key in rest;
            rest := rest - {key};
            var value := nodeMap[key];
            if value.expiry >= now {
              locations := locations[key := StorageLocation(t, value.parts, value.expiry, value.message)];
            }
          }
        }
      }
      assert kinds[..|kinds|] == kinds;
    }
  }

  /** The bucket after a sequence of additions. */
  function AddAll(adds: seq<Addition>): map<Bytes, LocationMap> {
    if adds == [] then map[] else Add(AddAll(adds[..|adds| - 1]), adds[|adds| - 1])
  }

  predicate Concerns(a: Addition, hash: Bytes, kind: int, node: NodeId) {
    a.hash == hash && a.location.kind == kind && a.node == node
  }

  /** i is the last addition for this hash, kind and node. */
  ghost predicate LastFor(adds: seq<Addition>, i: nat, hash: Bytes, kind: int, node: NodeId) {
    && i < |adds| && Concerns(adds[i], hash, kind, node)
    && forall j :: i < j < |adds| ==> !Concerns(adds[j], hash, kind, node)
  }

  /** A record is stored exactly when something was added for it, and it is the last thing added. */
  lemma {:induction false} StoredIsLast(adds: seq<Addition>, hash: Bytes, kind: int, node: NodeId)
    ensures var db := ReadMap(AddAll(adds), hash);
      && (kind in db && node in db[kind] <==> exists i: nat :: LastFor(adds, i, hash, kind, node))
      && forall i: nat :: LastFor(adds, i, hash, kind, node) ==>
           kind in db && node in db[kind] && db[kind][node] == Stored(adds[i])
  {
    if adds != [] {
      var front, n := adds[..|adds| - 1], |adds| - 1;
      StoredIsLast(front, hash, kind, node);
      var db := ReadMap(AddAll(adds), hash);
      if Concerns(adds[n], hash, kind, node) {
        assert LastFor(adds, n, hash, kind, node);
      } else {
        assert forall i: nat :: LastFor(adds, i, hash, kind, node) <==> LastFor(front, i, hash, kind, node);
      }
    }
  }

  /** i is what a lookup at time now must return for the node: an unexpired last record of a listed
      kind, such that no kind listed later has one. */
  ghost predicate Answer(adds: seq<Addition>, i: nat, hash: Bytes, kinds: seq<int>, k: nat, node: NodeId, now: int) {
    && k < |kinds| && LastFor(adds, i, hash, kinds[k], node) && adds[i].location.expiry >= now
    && forall m, j: nat :: k < m < |kinds| && LastFor(adds, j, hash, kinds[m], node) ==> adds[j].location.expiry < now
  }

  /** After any additions, a lookup returns for each node the last record added for the last listed
      kind that has an unexpired one, and nothing for any other node. */
  lemma {:induction false} LookupIsLastWriter(adds: seq<Addition>, hash: Bytes, kinds: seq<int>, node: NodeId, now: int)
    ensures var r := Lookup(ReadMap(AddAll(adds), hash), kinds, node, now);
      && (r.Some? <==> exists i: nat, k: nat :: Answer(adds, i, hash, kinds, k, node, now))
      && forall i: nat, k: nat :: Answer(adds, i, hash, kinds, k, node, now) ==>
           r == Some(StorageLocation(kinds[k], adds[i].location.parts, adds[i].location.expiry, adds[i].message))
    decreases |kinds|
  {
    if kinds != [] {
      var last := |kinds| - 1;
      LookupIsLastWriter(adds, hash, kinds[..last], node, now);
      if Live(ReadMap(AddAll(adds), hash), kinds[last], node, now) {
        LastKindAnswers(adds, hash, kinds, node, now);
      } else {
        NoneLive(adds, hash, kinds[last], node, now);
        forall i: nat, k: nat
          ensures Answer(adds, i, hash, kinds, k, node, now) <==> Answer(adds, i, hash, kinds[..last], k, node, now)
        {
          LastKindSilent(adds, hash, kinds, i, k, node, now);
        }
      }
    }
  }

  /** If the last listed kind has an unexpired record, its last addition is the only answer. */
  lemma LastKindAnswers(adds: seq<Addition>, hash: Bytes, kinds: seq<int>, node: NodeId, now: int)
    requires kinds != [] && Live(ReadMap(AddAll(adds), hash), kinds[|kinds| - 1], node, now)
    ensures exists i: nat, k: nat :: Answer(adds, i, hash, kinds, k, node, now)
    ensures forall i: nat, k: nat :: Answer(adds, i, hash, kinds, k, node, now) ==>
      Some(StorageLocation(kinds[k], adds[i].location.parts, adds[i].location.expiry, adds[i].message))
        == Lookup(ReadMap(AddAll(adds), hash), kinds, node, now)
  {
    var last := |kinds| - 1;
    StoredIsLast(adds, hash, kinds[last], node);
    var i: nat :| LastFor(adds, i, hash, kinds[last], node);
    assert Answer(adds, i, hash, kinds, last, node, now);
    OneLast(adds, hash, kinds[last], node);
    forall j: nat, k: nat | Answer(adds, j, hash, kinds, k, node, now)
      ensures k == last && j == i
    {
    }
  }

  /** If it has none, the answers are those of the kinds before it. */
  lemma LastKindSilent(adds: seq<Addition>, hash: Bytes, kinds: seq<int>, i: nat, k: nat, node: NodeId, now: int)
    requires kinds != []
    requires forall j: nat :: LastFor(adds, j, hash, kinds[|kinds| - 1], node) ==> adds[j].location.expiry < now
    ensures Answer(adds, i, hash, kinds, k, node, now) <==> Answer(adds, i, hash, kinds[..|kinds| - 1], k, node, now)
  {
  }

  lemma NoneLive(adds: seq<Addition>, hash: Bytes, kind: int, node: NodeId, now: int)
    requires !Live(ReadMap(AddAll(adds), hash), kind, node, now)
    ensures forall j: nat :: LastFor(adds, j, hash, kind, node) ==> adds[j].location.expiry < now
  {
    StoredIsLast(adds, hash, kind, node);
  }

  lemma OneLast(adds: seq<Addition>, hash: Bytes, kind: int, node: NodeId)
    ensures forall i: nat, j: nat :: LastFor(adds, i, hash, kind, node) && LastFor(adds, j, hash, kind, node) ==> i == j
  {
  }
}
