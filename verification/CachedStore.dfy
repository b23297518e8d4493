/** Buckets of a key-value store behind one shared cache (db/bboltdb.go, db/etcd.go, db/lru.go). */
module CachedStore {
  import opened Base

  type Value = Bytes

  /** Where a value is kept. The cache forgets the bucket: its keys are the bare keys. */
  datatype Place = Place(bucket: Bytes, key: Bytes)

  datatype StoreError = RootBucket | BackendFailed

  function Find<K, V>(m: map<K, V>, k: K): Option<V> {
    if k in m then Some(m[k]) else None
  }

  datatype World = World(store: map<Place, Value>, cache: map<Bytes, Value>)

  datatype Op = Get(at: Place) | Put(at: Place, value: Value) | Delete(at: Place)

  function Fetch(w: World, at: Place): Option<Value> {
    if at.key in w.cache then Some(w.cache[at.key]) else Find(w.store, at)
  }

  /** What an operation does to store and cache; a bounded cache may then lose any keys. */
  function After(w: World, op: Op, evicted: set<Bytes>): World {
    match op
    case Get(at) =>
      if at.key in w.cache || at !in w.store then World(w.store, w.cache - evicted)
      else World(w.store, w.cache[at.key := w.store[at]] - evicted)
    case Put(at, value) => World(w.store[at := value], w.cache[at.key := value] - evicted)
    case Delete(at) => World(w.store - {at}, w.cache - {at.key} - evicted)
  }

  /** The database and the cache all buckets share. */
  class Engine {
    var store: map<Place, Value>
    var cache: map<Bytes, Value>

    constructor ()
      ensures store == map[] && cache == map[]
    {
      store, cache := map[], map[];
    }

    function State(): World
      reads this
    {
      World(store, cache)
    }

    method Evict(keys: set<Bytes>)
      modifies this`cache
      ensures cache == old(cache) - keys
    {
      cache := cache - keys;
    }
  }

  class Bucket {
    const engine: Engine
    const name: Bytes
    const root: bool

    constructor (engine: Engine, name: Bytes, root: bool)
      ensures this.engine == engine && this.name == name && this.root == root
    {
      this.engine, this.name, this.root := engine, name, root;
    }

    /** A value in the cache is returned without asking the backend. */
    method Get(key: Bytes, backendOk: bool, evicted: set<Bytes>) returns (r: Result<Option<Value>, StoreError>)
      modifies engine
      ensures root ==> r == Err(RootBucket)
      ensures !root && !backendOk && key !in old(engine.cache) ==> r == Err(BackendFailed)
      ensures r.Err? ==> engine.State() == old(engine.State())
      ensures !root && (backendOk || key in old(engine.cache)) ==> r == Ok(Fetch(old(engine.State()), Place(name, key)))
      ensures r.Ok? ==> engine.State() == After(old(engine.State()), Op.Get(Place(name, key)), evicted)
      // a value read from the store is cached, unless it is evicted; a cached one is returned as it is
      ensures r.Ok? ==> engine.store == old(engine.store)
      ensures r.Ok? && key in old(engine.cache) ==>
        r.value == Some(old(engine.cache)[key]) && engine.cache == old(engine.cache) - evicted
      ensures r.Ok? && key !in old(engine.cache) && Place(name, key) in old(engine.store) ==>
        && r.value == Some(old(engine.store)[Place(name, key)])
        && engine.cache == old(engine.cache)[key := r.value.value] - evicted
      ensures r.Ok? && key !in old(engine.cache) && Place(name, key) !in old(engine.store) ==>
        r.value == None && engine.cache == old(engine.cache) - evicted
    {
      if root {
        return Err(RootBucket);
      }
      if key in engine.cache {
        r := Ok(Some(engine.cache[key]));
        engine.Evict(evicted);
        return;
      }
      if !backendOk {
        return Err(BackendFailed);
      }
      var val := Find(engine.store, Place(name, key));
      if val.Some? {
        engine.cache := engine.cache[key := val.value];
      }
      engine.Evict(evicted);
      return Ok(val);
    }

    method Put(key: Bytes, value: Value, backendOk: bool, evicted: set<Bytes>) returns (r: Result<(), StoreError>)
      modifies engine
      ensures root || !backendOk ==> r.Err? && engine.State() == old(engine.State())
      ensures !root && backendOk ==> r.Ok?
      ensures !root && backendOk ==>
                engine.State() == After(old(engine.State()), Op.Put(Place(name, key), value), evicted)
      ensures r.Ok? ==> && engine.store == old(engine.store)[Place(name, key) := value]
                        && engine.cache == old(engine.cache)[key := value] - evicted
    {
      if root {
        return Err(RootBucket);
      }
      if !backendOk {
        return Err(BackendFailed);
      }
      engine.store := engine.store[Place(name, key) := value];
      engine.cache := engine.cache[key := value];
      engine.Evict(evicted);
      return Ok(());
    }

    method Delete(key: Bytes, backendOk: bool, evicted: set<Bytes>) returns (r: Result<(), StoreError>)
      modifies engine
      ensures root || !backendOk ==> r.Err? && engine.State() == old(engine.State())
      ensures !root && backendOk ==> r.Ok?
      ensures !root && backendOk ==> engine.State() == After(old(engine.State()), Op.Delete(Place(name, key)), evicted)
      ensures r.Ok? ==> && engine.store == old(engine.store) - {Place(name, key)}
                        && engine.cache == old(engine.cache) - {key} - evicted
    {
      if root {
        return Err(RootBucket);
      }
      if !backendOk {
        return Err(BackendFailed);
      }
      engine.store := engine.store - {Place(name, key)};
      engine.cache := engine.cache - {key};
      engine.Evict(evicted);
      return Ok(());
    }
  }

  // The cached store against a plain map of maps.

  datatype Event = Event(op: Op, evicted: set<Bytes>)

  function AfterAll(events: seq<Event>): World {
    if events == [] then World(map[], map[])
    else After(AfterAll(events[..|events| - 1]), events[|events| - 1].op, events[|events| - 1].evicted)
  }

  /** The value last put at a place, unless it was deleted since. */
  function LastPut(events: seq<Event>, at: Place): Option<Value> {
    if events == [] then None
    else
      match events[|events| - 1].op
      case Put(p, value) => if p == at then Some(value) else LastPut(events[..|events| - 1], at)
      case Delete(p) => if p == at then None else LastPut(events[..|events| - 1], at)
      case Get(_) => LastPut(events[..|events| - 1], at)
  }

  predicate Uses(events: seq<Event>, places: set<Place>) {
    forall i :: 0 <= i < |events| ==> events[i].op.at in places
  }

  /** No key is used in two buckets. */
  predicate KeysApart(places: set<Place>) {
    forall p, q :: p in places && q in places && p.key == q.key ==> p == q
  }

  lemma {:induction false} StoreIsLastPut(events: seq<Event>, at: Place)
    ensures Find(AfterAll(events).store, at) == LastPut(events, at)
  {
    if events != [] {
      StoreIsLastPut(events[..|events| - 1], at);
    }
  }

  /** What is cached under a key is what its place holds. */
  lemma {:induction false} CacheAgrees(events: seq<Event>, places: set<Place>, at: Place)
    requires KeysApart(places) && Uses(events, places) && at in places
    ensures at.key in AfterAll(events).cache ==> LastPut(events, at) == Some(AfterAll(events).cache[at.key])
  {
    if events != [] {
      var front := events[..|events| - 1];
      CacheAgrees(front, places, at);
      StoreIsLastPut(front, at);
      assert events[|events| - 1].op.at in places;
    }
  }

  lemma GetIsLastPut(events: seq<Event>, places: set<Place>, at: Place)
    requires KeysApart(places) && Uses(events, places) && at in places
    ensures Fetch(AfterAll(events), at) == LastPut(events, at)
  {
    CacheAgrees(events, places, at);
    StoreIsLastPut(events, at);
  }

  /** Event i brings the key into the cache: a put, or a read that found a value. */
  predicate Brings(events: seq<Event>, i: nat, key: Bytes) {
    && i < |events| && events[i].op.at.key == key
    && (events[i].op.Put? || (events[i].op.Get? && LastPut(events[..i], events[i].op.at).Some?))
  }

  /** Event j loses it: an eviction or a deletion. */
  predicate Loses(events: seq<Event>, j: nat, key: Bytes) {
    j < |events| && (key in events[j].evicted || (events[j].op.Delete? && events[j].op.at.key == key))
  }

  /** Event i brought the key in, and nothing from then on loses it. */
  ghost predicate BroughtAt(events: seq<Event>, i: nat, key: Bytes) {
    Brings(events, i, key) && forall j: nat :: i <= j < |events| ==> !Loses(events, j, key)
  }

  /** After any history over keys apart, a key is cached, so that its next read does not ask the
      backend, exactly if some put or successful read brought it in and nothing lost it since. */
  lemma {:induction false} CachedIff(events: seq<Event>, places: set<Place>, key: Bytes)
    requires KeysApart(places) && Uses(events, places)
    ensures key in AfterAll(events).cache <==> exists i: nat :: BroughtAt(events, i, key)
  {
    if events != [] {
      var front, n := events[..|events| - 1], |events| - 1;
      CachedIff(front, places, key);
      CachedNow(events, places, key);
      forall i: nat | i < n
        ensures BroughtAt(events, i, key) <==> BroughtAt(front, i, key) && !Loses(events, n, key)
      {
        StillThere(events, i, key);
      }
      assert BroughtAt(events, n, key) <==> Brings(events, n, key) && !Loses(events, n, key);
      assert forall i: nat :: BroughtAt(events, i, key) ==> i < n || i == n;
    }
  }

  /** The last event keeps what the history before it brought in, unless it loses the key. */
  lemma StillThere(events: seq<Event>, i: nat, key: Bytes)
    requires events != [] && i < |events| - 1
    ensures BroughtAt(events, i, key)
       <==> BroughtAt(events[..|events| - 1], i, key) && !Loses(events, |events| - 1, key)
  {
    var front := events[..|events| - 1];
    assert front[..i] == events[..i];
    forall j: nat | j < |front|
      ensures Loses(front, j, key) == Loses(events, j, key)
    {
    }
  }

  lemma CachedNow(events: seq<Event>, places: set<Place>, key: Bytes)
    requires KeysApart(places) && Uses(events, places) && events != []
    ensures var front, n := events[..|events| - 1], |events| - 1;
      key in AfterAll(events).cache
      <==> !Loses(events, n, key) && (key in AfterAll(front).cache || Brings(events, n, key))
  {
    var front, e := events[..|events| - 1], events[|events| - 1];
    StoreIsLastPut(front, e.op.at);
    if e.op.at.key == key && key in AfterAll(front).cache {
      CacheAgrees(front, places, e.op.at);
    }
  }

  /** Every read of every history over these places, whatever the cache evicts, returns the last value put there. */
  ghost predicate ReadsRight(places: set<Place>) {
    forall events, at :: Uses(events, places) && at in places ==> Fetch(AfterAll(events), at) == LastPut(events, at)
  }

  /** A key shared by two buckets is read through: what one bucket puts, the other gets. */
  lemma SharedKeyLeaks(p: Place, q: Place, value: Value)
    requires p != q && p.key == q.key
    ensures var events := [Event(Put(p, value), {})];
      Fetch(AfterAll(events), q) == Some(value) && LastPut(events, q) == None
  {
    var events := [Event(Put(p, value), {})];
    assert events[..0] == [];
  }

  /** The shared cache is right exactly when no key is used in two buckets. */
  lemma CacheRightIff(places: set<Place>)
    ensures ReadsRight(places) <==> KeysApart(places)
  {
    if KeysApart(places) {
      forall events, at | Uses(events, places) && at in places
        ensures Fetch(AfterAll(events), at) == LastPut(events, at)
      {
        GetIsLastPut(events, places, at);
      }
    } else {
      var p, q :| p in places && q in places && p.key == q.key && p != q;
      SharedKeyLeaks(p, q, []);
      assert Uses([Event(Put(p, []), {})], places);
    }
  }

  // etcd's physical keys.

  const SLASH: Byte := 47

  /** A bucket handle of the etcd store: its prefix and its name. */
  datatype Handle = Handle(prefix: Bytes, name: Bytes)

  function OpenBucket(h: Handle, name: Bytes): (r: Option<Handle>)
    ensures r.Some? <==> SLASH !in name
  {
    if SLASH in name then None else Some(Handle(h.prefix + [SLASH] + name, name))
  }

  function PhysicalKey(h: Handle, key: Bytes): Bytes {
    h.prefix + [SLASH] + h.name + [SLASH] + key
  }

  function FirstSlash(s: Bytes): nat {
    if s == [] || s[0] == SLASH then 0 else 1 + FirstSlash(s[1..])
  }

  lemma {:induction false} FirstSlashAfter(a: Bytes, x: Bytes)
    requires SLASH !in a
    ensures FirstSlash(a + [SLASH] + x) == |a|
  {
    if a != [] {
      FirstSlashAfter(a[1..], x);
      assert (a + [SLASH] + x)[1..] == a[1..] + [SLASH] + x;
      assert a[0] in a;
    }
  }

  lemma SplitAtSlash(a: Bytes, b: Bytes, x: Bytes, y: Bytes)
    requires SLASH !in a && SLASH !in b
    requires a + [SLASH] + x == b + [SLASH] + y
    ensures a == b && x == y
  {
    var s, t := a + [SLASH] + x, b + [SLASH] + y;
    FirstSlashAfter(a, x);
    FirstSlashAfter(b, y);
    assert a == s[..|a|] && b == t[..|b|];
    assert x == s[|a| + 1..] && y == t[|b| + 1..];
  }

  /** Sibling buckets never share a physical key, so for them etcd is a store of places too. */
  lemma SiblingKeysInjective(root: Handle, n1: Bytes, k1: Bytes, n2: Bytes, k2: Bytes)
    requires OpenBucket(root, n1).Some? && OpenBucket(root, n2).Some?
    ensures PhysicalKey(OpenBucket(root, n1).value, k1) == PhysicalKey(OpenBucket(root, n2).value, k2)
       <==> (n1 == n2 && k1 == k2)
  {
    var s, t := PhysicalKey(OpenBucket(root, n1).value, k1), PhysicalKey(OpenBucket(root, n2).value, k2);
    var x, y := n1 + [SLASH] + k1, n2 + [SLASH] + k2;
    assert s == root.prefix + [SLASH] + (n1 + [SLASH] + x);
    assert t == root.prefix + [SLASH] + (n2 + [SLASH] + y);
    if s == t {
      assert s[|root.prefix| + 1..] == n1 + [SLASH] + x;
      assert t[|root.prefix| + 1..] == n2 + [SLASH] + y;
      SplitAtSlash(n1, n2, x, y);
      SplitAtSlash(n1, n2, k1, k2);
    }
  }

  /** A bucket opened inside a bucket of the same name is not apart from it. */
  lemma NestedKeysCollide(root: Handle, n: Bytes, k: Bytes)
    requires OpenBucket(root, n).Some?
    ensures var outer := OpenBucket(root, n).value;
      OpenBucket(outer, n).Some? && PhysicalKey(OpenBucket(outer, n).value, k) == PhysicalKey(outer, n + [SLASH] + k)
  {
    var outer := OpenBucket(root, n).value;
    assert PhysicalKey(OpenBucket(outer, n).value, k) == outer.prefix + [SLASH] + n + [SLASH] + n + [SLASH] + k;
  }

  // ----- chains of nested buckets -----

  /** Buckets opened one inside the other. */
  function Opened(root: Handle, names: seq<Bytes>): Option<Handle> {
    if names == [] then Some(root)
    else
      match Opened(root, names[..|names| - 1])
      case None => None
      case Some(h) => OpenBucket(h, names[|names| - 1])
  }

  predicate SlashFree(names: seq<Bytes>) {
    forall i :: 0 <= i < |names| ==> SLASH !in names[i]
  }

  function Joined(names: seq<Bytes>): Bytes {
    if names == [] then [] else [SLASH] + names[0] + Joined(names[1..])
  }

  /** The last name comes twice in a physical key. */
  function Doubled(names: seq<Bytes>): seq<Bytes>
    requires names != []
  {
    names + [names[|names| - 1]]
  }

  lemma {:induction false} JoinedSum(a: seq<Bytes>, b: seq<Bytes>)
    ensures Joined(a + b) == Joined(a) + Joined(b)
  {
    if a == [] {
      assert a + b == b;
    } else {
      JoinedSum(a[1..], b);
      assert (a + b)[1..] == a[1..] + b;
    }
  }

  lemma JoinedSnoc(a: seq<Bytes>, name: Bytes)
    ensures Joined(a + [name]) == Joined(a) + [SLASH] + name
  {
    JoinedSum(a, [name]);
    assert Joined([name]) == [SLASH] + name;
  }

  lemma {:induction false} OpenedHandle(root: Handle, names: seq<Bytes>)
    ensures Opened(root, names).Some? <==> SlashFree(names)
    ensures Opened(root, names).Some? ==> Opened(root, names).value.prefix == root.prefix + Joined(names)
    ensures Opened(root, names).Some? && names != [] ==> Opened(root, names).value.name == names[|names| - 1]
  {
    if names != [] {
      var front, last := names[..|names| - 1], names[|names| - 1];
      OpenedHandle(root, front);
      JoinedSnoc(front, last);
      assert names == front + [last];
    }
  }

  lemma OpenedKey(root: Handle, names: seq<Bytes>, key: Bytes)
    requires names != [] && Opened(root, names).Some?
    ensures PhysicalKey(Opened(root, names).value, key) == root.prefix + (Joined(Doubled(names)) + [SLASH] + key)
  {
    var last := names[|names| - 1];
    OpenedHandle(root, names);
    JoinedSnoc(names, last);
    AfterRoot(root.prefix, Joined(names), last, key);
  }

  lemma AfterRoot(p: Bytes, a: Bytes, n: Bytes, key: Bytes)
    ensures ((p + a) + [SLASH] + n) + [SLASH] + key == p + ((a + [SLASH] + n) + [SLASH] + key)
  {
  }

  /** What follows the first slash of a joined path and key. */
  function Rest(names: seq<Bytes>, key: Bytes): Bytes {
    (Joined(names) + [SLASH] + key)[1..]
  }

  lemma BeginsWithSlash(names: seq<Bytes>, key: Bytes)
    ensures Joined(names) + [SLASH] + key == [SLASH] + Rest(names, key)
  {
    var s := Joined(names) + [SLASH] + key;
    assert s[0] == SLASH;
    assert s == [s[0]] + s[1..];
  }

  lemma Regroup(a: Bytes, b: Bytes, key: Bytes, rest: Bytes)
    requires b + [SLASH] + key == [SLASH] + rest
    ensures ([SLASH] + a + b) + [SLASH] + key == [SLASH] + (a + [SLASH] + rest)
  {
    assert ([SLASH] + a + b) + [SLASH] + key == ([SLASH] + a) + (b + [SLASH] + key);
    assert [SLASH] + (a + [SLASH] + rest) == ([SLASH] + a) + ([SLASH] + rest);
  }

  lemma FirstName(names: seq<Bytes>, key: Bytes)
    requires names != []
    ensures Joined(names) + [SLASH] + key == [SLASH] + (names[0] + [SLASH] + Rest(names[1..], key))
  {
    BeginsWithSlash(names[1..], key);
    Regroup(names[0], Joined(names[1..]), key, Rest(names[1..], key));
  }

  /** Equal joined paths agree name by name, as far as the shorter one goes. */
  lemma {:induction false} JoinedAgree(a: seq<Bytes>, b: seq<Bytes>, k: Bytes, l: Bytes)
    requires SlashFree(a) && SlashFree(b) && |a| <= |b|
    requires Joined(a) + [SLASH] + k == Joined(b) + [SLASH] + l
    ensures a <= b
  {
    if a != [] {
      FirstName(a, k);
      FirstName(b, l);
      var x, y := a[0] + [SLASH] + Rest(a[1..], k), b[0] + [SLASH] + Rest(b[1..], l);
      assert ([SLASH] + x)[1..] == x && ([SLASH] + y)[1..] == y;
      SplitAtSlash(a[0], b[0], Rest(a[1..], k), Rest(b[1..], l));
      SameTail(a[1..], b[1..], k, l);
      JoinedAgree(a[1..], b[1..], k, l);
      assert a == [a[0]] + a[1..] && b == [b[0]] + b[1..];
    }
  }

  lemma SameTail(a: seq<Bytes>, b: seq<Bytes>, k: Bytes, l: Bytes)
    requires Rest(a, k) == Rest(b, l)
    ensures Joined(a) + [SLASH] + k == Joined(b) + [SLASH] + l
  {
    BeginsWithSlash(a, k);
    BeginsWithSlash(b, l);
  }

  ghost predicate Collide(g: Handle, h: Handle) {
    exists k, l :: PhysicalKey(g, k) == PhysicalKey(h, l)
  }

  /** Two chains of buckets can share a physical key exactly if one's path of names, its last name
      doubled, begins the other's. */
  lemma ChainsCollideIff(root: Handle, a: seq<Bytes>, b: seq<Bytes>)
    requires a != [] && b != [] && Opened(root, a).Some? && Opened(root, b).Some?
    ensures Collide(Opened(root, a).value, Opened(root, b).value)
       <==> Doubled(a) <= Doubled(b) || Doubled(b) <= Doubled(a)
  {
    var g, h := Opened(root, a).value, Opened(root, b).value;
    if k, l :| PhysicalKey(g, k) == PhysicalKey(h, l) {
      CollidingPrefix(root, a, b, k, l);
    }
    if Doubled(a) <= Doubled(b) {
      var k := PrefixCollides(root, a, b);
    } else if Doubled(b) <= Doubled(a) {
      var k := PrefixCollides(root, b, a);
      assert PhysicalKey(g, []) == PhysicalKey(h, k);
    }
  }

  lemma CollidingPrefix(root: Handle, a: seq<Bytes>, b: seq<Bytes>, k: Bytes, l: Bytes)
    requires a != [] && b != [] && Opened(root, a).Some? && Opened(root, b).Some?
    requires PhysicalKey(Opened(root, a).value, k) == PhysicalKey(Opened(root, b).value, l)
    ensures Doubled(a) <= Doubled(b) || Doubled(b) <= Doubled(a)
  {
    OpenedHandle(root, a);
    OpenedHandle(root, b);
    OpenedKey(root, a, k);
    OpenedKey(root, b, l);
    SameAfter(root.prefix, Joined(Doubled(a)) + [SLASH] + k, Joined(Doubled(b)) + [SLASH] + l);
    if |a| <= |b| {
      JoinedAgree(Doubled(a), Doubled(b), k, l);
    } else {
      JoinedAgree(Doubled(b), Doubled(a), l, k);
    }
  }

  lemma SameAfter(p: Bytes, x: Bytes, y: Bytes)
    requires p + x == p + y
    ensures x == y
  {
    assert (p + x)[|p|..] == x && (p + y)[|p|..] == y;
  }

  lemma PrefixCollides(root: Handle, a: seq<Bytes>, b: seq<Bytes>) returns (k: Bytes)
    requires a != [] && b != [] && Opened(root, a).Some? && Opened(root, b).Some? && Doubled(a) <= Doubled(b)
    ensures PhysicalKey(Opened(root, a).value, k) == PhysicalKey(Opened(root, b).value, [])
  {
    var rest := Doubled(b)[|Doubled(a)|..];
    k := Rest(rest, []);
    JoinedSum(Doubled(a), rest);
    assert Doubled(b) == Doubled(a) + rest;
    var tail := Joined(rest) + [SLASH] + [];
    assert tail == [SLASH] + k;
    OpenedKey(root, a, k);
    OpenedKey(root, b, []);
    assert Joined(Doubled(a)) + tail == Joined(Doubled(b)) + [SLASH] + [];
    assert Joined(Doubled(a)) + ([SLASH] + k) == Joined(Doubled(a)) + [SLASH] + k;
  }
}
