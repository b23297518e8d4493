/** One node's registry: a register per public key, ordered by revision and kept as bytes
    in a bucket (service/default/registry.go). */
module Registry {
  import opened Base
  import Endian
  import RE = RegistryEntry

  const MAX_REVISION := 281474976710656
  const MAX_DATA_SIZE := 64

  datatype Refusal = InvalidPubkey | UnsupportedKey | InvalidRevision | DataTooLong | BadSignature
                   | ReadFailed | CorruptStore(error: RE.EntryError) | StoreFailed | SendFailed

  /** The checks on an entry from the network, in the order they are made. */
  function Check(verify: RE.Verifier, e: RE.Entry): Option<Refusal> {
    if |e.pk| != 33 then Some(InvalidPubkey)
    else if e.pk[0] != ED25519 then Some(UnsupportedKey)
    else if e.revision > MAX_REVISION then Some(InvalidRevision)
    else if |e.data| > MAX_DATA_SIZE then Some(DataTooLong)
    else if !RE.Verified(verify, e) then Some(BadSignature)
    else None
  }

  predicate Valid(verify: RE.Verifier, e: RE.Entry) {
    Check(verify, e).None?
  }

  /** An accepted Ed25519 signature has 64 bytes (section 5.1.7 of RFC 8032). */
  ghost predicate Sound(verify: RE.Verifier) {
    forall k, m, s :: verify(k, m, s) ==> |s| == 64
  }

  /** What Set makes of an entry: refuse it, find it known, answer it with the newer one, or store it. */
  datatype Decision = Refuse(why: Refusal) | Known | Stale(newer: Bytes) | Store(record: Bytes)

  function Decide(verify: RE.Verifier, bucket: map<Bytes, Bytes>, e: RE.Entry, trusted: bool): Decision {
    if !trusted && Check(verify, e).Some? then Refuse(Check(verify, e).value)
    else if e.pk !in bucket then Store(RE.Marshal(e))
    else match RE.Unmarshal(bucket[e.pk])
      case Err(error) => Refuse(CorruptStore(error))
      case Ok(existing) =>
        if existing.revision == e.revision then Known
        else if existing.revision > e.revision then Stale(RE.Marshal(existing))
        else Store(RE.Marshal(e))
  }

  /** With a bucket whose Get may fail. */
  function Outcome(verify: RE.Verifier, bucket: map<Bytes, Bytes>, e: RE.Entry, trusted: bool, readOk: bool): Decision {
    if readOk || (!trusted && Check(verify, e).Some?) then Decide(verify, bucket, e, trusted) else Refuse(ReadFailed)
  }

  /** Which entries pass the checks, and which check refuses the others: a 33-byte Ed25519 key, a
      revision up to 2^48, up to 64 bytes of data, and a signature over type, revision, length and data. */
  lemma RefusalIff(verify: RE.Verifier, e: RE.Entry)
    ensures var key := |e.pk| == 33 && e.pk[0] == 0xed;
      var small := key && e.revision <= 0x1_0000_0000_0000;
      var short := small && |e.data| <= 64;
      && (Check(verify, e) == Some(InvalidPubkey) <==> |e.pk| != 33)
      && (Check(verify, e) == Some(UnsupportedKey) <==> |e.pk| == 33 && !key)
      && (Check(verify, e) == Some(InvalidRevision) <==> key && !small)
      && (Check(verify, e) == Some(DataTooLong) <==> small && !short)
      && (Check(verify, e) == Some(BadSignature) <==>
            short && !verify(e.pk[1..], [7] + Endian.Encode(e.revision, 8) + [|e.data|] + e.data, e.signature))
      && (Valid(verify, e) <==>
            short && verify(e.pk[1..], [7] + Endian.Encode(e.revision, 8) + [|e.data|] + e.data, e.signature))
  {
    assert [RE.RECORD_TYPE] + [] == [RE.RECORD_TYPE];
  }

  /** A stored entry that can be read reads the same from its own record. */
  lemma ReadBack(record: Bytes)
    requires RE.Unmarshal(record).Ok?
    ensures RE.Unmarshal(RE.Marshal(RE.Unmarshal(record).value)) == RE.Unmarshal(record)
  {
    RE.UnmarshalMarshal(RE.Unmarshal(record).value);
  }

  /** Whatever the bucket holds: an answer to a stale entry carries the very entry that is stored, with
      its own signature; a stored record carries the very entry that came, if it is portable. */
  lemma DecideExplained(verify: RE.Verifier, bucket: map<Bytes, Bytes>, e: RE.Entry, trusted: bool)
    ensures var d := Decide(verify, bucket, e, trusted);
      var admitted := trusted || Valid(verify, e);
      var known := admitted && e.pk in bucket && RE.Unmarshal(bucket[e.pk]).Ok?;
      && (d.Known? <==> known && RE.Unmarshal(bucket[e.pk]).value.revision == e.revision)
      && (d.Stale? <==> known && RE.Unmarshal(bucket[e.pk]).value.revision > e.revision)
      && (d.Store? <==> (known && RE.Unmarshal(bucket[e.pk]).value.revision < e.revision)
                        || (admitted && e.pk !in bucket))
      && (d.Stale? ==> RE.Unmarshal(d.newer) == RE.Unmarshal(bucket[e.pk]))
      && (d.Store? && RE.Portable(e) ==> RE.Unmarshal(d.record) == Ok(e))
      && (d.Refuse? ==> d.why == if !admitted then Check(verify, e).value
                                 else CorruptStore(RE.Unmarshal(bucket[e.pk]).error))
  {
    if e.pk in bucket && RE.Unmarshal(bucket[e.pk]).Ok? {
      ReadBack(bucket[e.pk]);
    }
    if RE.Portable(e) {
      RE.UnmarshalMarshal(e);
    }
  }

  /** With a bucket of meaningful records, a stale entry is answered with a record that means exactly
      the stored entry and that any node accepts as valid. */
  lemma StaleIsStored(verify: RE.Verifier, bucket: map<Bytes, Bytes>, e: RE.Entry, trusted: bool)
    requires BucketOk(verify, bucket) && Decide(verify, bucket, e, trusted).Stale?
    ensures var m := Decide(verify, bucket, e, trusted).newer;
      && e.pk in bucket && RE.Unmarshal(m) == RE.Unmarshal(bucket[e.pk]) && Meaningful(verify, e.pk, m)
      && RE.Unmarshal(m).value.revision > e.revision
  {
    DecideExplained(verify, bucket, e, trusted);
    assert Meaningful(verify, e.pk, bucket[e.pk]);
  }

  class RegistryService {
    const verify: RE.Verifier
    var bucket: map<Bytes, Bytes>
    var streams: set<Bytes>
    var fired: seq<RE.Entry>
    var sent: seq<(NodeId, Bytes)>

    constructor (verify: RE.Verifier)
      ensures this.verify == verify && bucket == map[] && streams == {} && fired == [] && sent == []
    {
      this.verify := verify;
      bucket, streams, fired, sent := map[], {}, [], [];
    }

    method GetFromDB(pk: Bytes, readOk: bool) returns (r: Result<Option<RE.Entry>, Refusal>)
      ensures r == if !readOk then Err(ReadFailed)
                   else if pk !in bucket then Ok(None)
                   else match RE.Unmarshal(bucket[pk]) case Err(e) => Err(CorruptStore(e)) case Ok(sre) => Ok(Some(sre))
    {
      if !readOk {
        return Err(ReadFailed);
      }
      if pk !in bucket {
        return Ok(None);
      }
      var sre := RE.Unmarshal(bucket[pk]);
      if sre.Err? {
        return Err(CorruptStore(sre.error));
      }
      return Ok(Some(sre.value));
    }

    method SendMessage(to: NodeId, message: Bytes, reachable: set<NodeId>) returns (ok: bool)
      modifies this`sent
      ensures ok == (to in reachable)
      ensures sent == old(sent) + if ok then [(to, message)] else []
    {
      ok := to in reachable;
      if ok {
        sent := sent + [(to, message)];
      }
    }

    /** As written, the loop over the peers only picks the one the entry came from (line 161). */
    method BroadcastEntry(sre: RE.Entry, receivedFrom: NodeId, peers: set<NodeId>, reachable: set<NodeId>)
      returns (ok: bool)
      modifies this`sent
      ensures ok == (receivedFrom in peers ==> receivedFrom in reachable)
      ensures sent == old(sent) + if receivedFrom in peers && receivedFrom in reachable
                                  then [(receivedFrom, RE.Marshal(sre))] else []
    {
      var updateMessage := RE.MarshalSigned(sre);
      var rest := peers;
      while rest != {}
        invariant rest <= peers
        invariant receivedFrom in peers && receivedFrom !in rest ==> receivedFrom in reachable
        invariant sent == old(sent) + if receivedFrom in peers && receivedFrom !in rest
                                      then [(receivedFrom, RE.Marshal(sre))] else []
        decreases rest
      {
        var peer :| peer in rest;
        rest := rest - {peer};
        if peer == receivedFrom {
          ok := SendMessage(peer, updateMessage, reachable);
          if !ok {
            return;
          }
        }
      }
      return true;
    }

    /** The sender is a connected peer: its id is read before anything else. Keys are not empty,
        since their first byte is. */
    method Set(sre: RE.Entry, trusted: bool, receivedFrom: NodeId, peers: set<NodeId>, reachable: set<NodeId>,
               readOk: bool, putOk: bool)
      returns (r: Result<(), Refusal>)
      requires sre.pk != []
      modifies this`bucket, this`fired, this`sent
      ensures var d := Outcome(verify, old(bucket), sre, trusted, readOk);
        && (d.Refuse? ==> r == Err(d.why))
        && (d.Known? ==> r == Ok(()))
        && (d.Stale? ==> r == if receivedFrom in reachable then Ok(()) else Err(SendFailed))
        && (d.Store? ==> r == if !putOk then Err(StoreFailed)
                              else if receivedFrom in peers && receivedFrom !in reachable then Err(SendFailed)
                              else Ok(()))
      ensures var d := Outcome(verify, old(bucket), sre, trusted, readOk);
        bucket == if d.Store? && putOk then old(bucket)[sre.pk := d.record] else old(bucket)
      ensures !trusted && readOk && putOk ==> bucket == AfterSet(verify, old(bucket), sre)
      ensures var d := Outcome(verify, old(bucket), sre, trusted, readOk);
        fired == if d.Store? && sre.pk in streams then old(fired) + [sre] else old(fired)
      ensures var d := Outcome(verify, old(bucket), sre, trusted, readOk);
        && (d.Stale? ==> sent == old(sent) + if receivedFrom in reachable then [(receivedFrom, d.newer)] else [])
        && (d.Store? ==> sent == old(sent) + if putOk && receivedFrom in peers && receivedFrom in reachable
                                             then [(receivedFrom, d.record)] else [])
        && (d.Refuse? || d.Known? ==> sent == old(sent))
      ensures !trusted && !Valid(verify, sre) ==> r == Err(Check(verify, sre).value)
      ensures (trusted || Valid(verify, sre)) && !readOk ==>
        r == Err(ReadFailed) && bucket == old(bucket) && sent == old(sent) && fired == old(fired)
      // a stale entry is answered with what is stored under its key, an entry with its own signature
      ensures (trusted || Valid(verify, sre)) && readOk && receivedFrom in reachable && sre.pk in old(bucket) ==>
        var stored := RE.Unmarshal(old(bucket)[sre.pk]);
        stored.Ok? && stored.value.revision > sre.revision ==>
          exists m :: sent == old(sent) + [(receivedFrom, m)] && RE.Unmarshal(m) == stored
    {
      DecideExplained(verify, bucket, sre, trusted);
      if !trusted {
        if |sre.pk| != 33 {
          return Err(InvalidPubkey);
        }
        if sre.pk[0] != ED25519 {
          return Err(UnsupportedKey);
        }
        if sre.revision > MAX_REVISION {
          return Err(InvalidRevision);
        }
        if |sre.data| > MAX_DATA_SIZE {
          return Err(DataTooLong);
        }
        if !RE.Verified(verify, sre) {
          return Err(BadSignature);
        }
      }
      var found := GetFromDB(sre.pk, readOk);
      if found.Err? {
        return Err(found.error);
      }
      if found.value.Some? {
        var existing := found.value.value;
        if existing.revision == sre.revision {
          return Ok(());
        } else if existing.revision > sre.revision {
          var updateMessage := RE.MarshalSigned(existing);
          var delivered := SendMessage(receivedFrom, updateMessage, reachable);
          return if delivered then Ok(()) else Err(SendFailed);
        }
      }
      if sre.pk in streams {
        fired := fired + [sre];
      }
      if !putOk {
        return Err(StoreFailed);
      }
      var record := RE.MarshalSigned(sre);
      bucket := bucket[sre.pk := record];
      var delivered := BroadcastEntry(sre, receivedFrom, peers, reachable);
      return if delivered then Ok(()) else Err(SendFailed);
    }
  }

  // Whole runs of entries from the network.

  function AfterSet(verify: RE.Verifier, bucket: map<Bytes, Bytes>, e: RE.Entry): map<Bytes, Bytes> {
    var d := Decide(verify, bucket, e, false);
    if d.Store? then bucket[e.pk := d.record] else bucket
  }

  function AfterAll(verify: RE.Verifier, bucket: map<Bytes, Bytes>, es: seq<RE.Entry>): map<Bytes, Bytes> {
    if es == [] then bucket else AfterSet(verify, AfterAll(verify, bucket, es[..|es| - 1]), es[|es| - 1])
  }

  /** The bytes under k mean a valid entry for k. */
  predicate Meaningful(verify: RE.Verifier, k: Bytes, record: Bytes) {
    RE.Unmarshal(record).Ok? && RE.Unmarshal(record).value.pk == k && Valid(verify, RE.Unmarshal(record).value)
  }

  ghost predicate BucketOk(verify: RE.Verifier, bucket: map<Bytes, Bytes>) {
    forall k :: k in bucket ==> Meaningful(verify, k, bucket[k])
  }

  lemma ValidRoundTrip(verify: RE.Verifier, e: RE.Entry)
    requires Sound(verify) && Valid(verify, e)
    ensures RE.Unmarshal(RE.Marshal(e)) == Ok(e) && Meaningful(verify, e.pk, RE.Marshal(e))
  {
    assert verify(e.pk[1..], RE.Body([], e.data, e.revision), e.signature);
    RE.UnmarshalMarshal(e);
  }

  lemma SetKeepsBucket(verify: RE.Verifier, bucket: map<Bytes, Bytes>, e: RE.Entry)
    requires Sound(verify) && BucketOk(verify, bucket)
    ensures BucketOk(verify, AfterSet(verify, bucket, e))
    ensures Decide(verify, bucket, e, false).Refuse? ==> !Valid(verify, e)
  {
    if Valid(verify, e) {
      ValidRoundTrip(verify, e);
    }
  }

  /** Whatever entries arrive, stored bytes always unmarshal to an entry of their bucket key that passes
      every check: signature verified, revision at most 2^48, data at most 64 bytes. */
  lemma {:induction false} BucketStaysMeaningful(verify: RE.Verifier, bucket: map<Bytes, Bytes>, es: seq<RE.Entry>)
    requires Sound(verify) && BucketOk(verify, bucket)
    ensures BucketOk(verify, AfterAll(verify, bucket, es))
  {
    if es != [] {
      BucketStaysMeaningful(verify, bucket, es[..|es| - 1]);
      SetKeepsBucket(verify, AfterAll(verify, bucket, es[..|es| - 1]), es[|es| - 1]);
    }
  }

  /** The revision stored under k; -1 when there is none. */
  function StoredRevision(bucket: map<Bytes, Bytes>, k: Bytes): int {
    if k in bucket && RE.Unmarshal(bucket[k]).Ok? then RE.Unmarshal(bucket[k]).value.revision else -1
  }

  /** Stored revisions never decrease. */
  lemma {:induction false} RevisionsOnlyGrow(verify: RE.Verifier, bucket: map<Bytes, Bytes>, es: seq<RE.Entry>,
                                             k: Bytes)
    requires Sound(verify) && BucketOk(verify, bucket)
    ensures StoredRevision(bucket, k) <= StoredRevision(AfterAll(verify, bucket, es), k)
  {
    if es != [] {
      var front, e := es[..|es| - 1], es[|es| - 1];
      RevisionsOnlyGrow(verify, bucket, front, k);
      BucketStaysMeaningful(verify, bucket, front);
      SetRaises(verify, AfterAll(verify, bucket, front), e, k);
    }
  }

  lemma SetRaises(verify: RE.Verifier, bucket: map<Bytes, Bytes>, e: RE.Entry, k: Bytes)
    requires Sound(verify) && BucketOk(verify, bucket)
    ensures StoredRevision(bucket, k) <= StoredRevision(AfterSet(verify, bucket, e), k)
  {
    if Valid(verify, e) {
      ValidRoundTrip(verify, e);
    }
  }

  predicate Counts(verify: RE.Verifier, e: RE.Entry, k: Bytes) {
    Valid(verify, e) && e.pk == k
  }

  /** Which entries compete for the key k. */
  function Contender(verify: RE.Verifier, k: Bytes): RE.Entry -> bool {
    e => Counts(verify, e, k)
  }

  /** The i-th entry is the first delivered among the contenders of highest revision. */
  ghost predicate Winner(contends: RE.Entry -> bool, es: seq<RE.Entry>, i: nat) {
    && i < |es| && contends(es[i])
    && (forall j :: 0 <= j < |es| && contends(es[j]) ==> es[j].revision <= es[i].revision)
    && (forall j :: 0 <= j < i && contends(es[j]) ==> es[j].revision < es[i].revision)
  }

  ghost predicate Contested(contends: RE.Entry -> bool, es: seq<RE.Entry>) {
    exists i :: 0 <= i < |es| && contends(es[i])
  }

  /** How one more entry changes the winner. */
  lemma WinnerSnoc(contends: RE.Entry -> bool, front: seq<RE.Entry>, e: RE.Entry, i: nat)
    requires Contested(contends, front) ==> Winner(contends, front, i)
    ensures var es := front + [e];
      && (Contested(contends, es) <==> Contested(contends, front) || contends(e))
      && (contends(e) && (!Contested(contends, front) || e.revision > front[i].revision) ==>
            Winner(contends, es, |front|))
      && (Contested(contends, front) && (contends(e) ==> e.revision <= front[i].revision) ==> Winner(contends, es, i))
  {
    var es := front + [e];
    assert forall j :: 0 <= j < |front| ==> es[j] == front[j];
    if Contested(contends, front) {
      var j :| 0 <= j < |front| && contends(front[j]);
      assert contends(es[j]);
    }
    if contends(e) {
      assert contends(es[|front|]);
    }
  }

  /** How one more entry changes what is stored under k. */
  lemma SetOutcome(verify: RE.Verifier, bucket: map<Bytes, Bytes>, e: RE.Entry, k: Bytes)
    requires Sound(verify)
    ensures var after := AfterSet(verify, bucket, e);
      && (!Counts(verify, e, k) ==> (k in after <==> k in bucket) && (k in after ==> after[k] == bucket[k]))
      && (Counts(verify, e, k) && k !in bucket ==> k in after && after[k] == RE.Marshal(e))
      && (Counts(verify, e, k) && k in bucket ==> k in after)
  {
  }

  lemma SetReplaces(verify: RE.Verifier, bucket: map<Bytes, Bytes>, e: RE.Entry, stored: RE.Entry, k: Bytes)
    requires Sound(verify) && Counts(verify, e, k) && Counts(verify, stored, k)
    requires k in bucket && bucket[k] == RE.Marshal(stored)
    ensures AfterSet(verify, bucket, e) == if e.revision > stored.revision then bucket[k := RE.Marshal(e)] else bucket
  {
    ValidRoundTrip(verify, stored);
  }

  /** The bucket holds the winner under k, or nothing. */
  ghost predicate HoldsWinner(contends: RE.Entry -> bool, es: seq<RE.Entry>, bucket: map<Bytes, Bytes>, k: Bytes) {
    && (k in bucket <==> Contested(contends, es))
    && (k in bucket ==> exists i: nat :: Winner(contends, es, i) && bucket[k] == RE.Marshal(es[i]))
  }

  lemma SetKeepsWinner(verify: RE.Verifier, front: seq<RE.Entry>, e: RE.Entry, bucket: map<Bytes, Bytes>, k: Bytes)
    requires Sound(verify) && HoldsWinner(Contender(verify, k), front, bucket, k)
    ensures HoldsWinner(Contender(verify, k), front + [e], AfterSet(verify, bucket, e), k)
  {
    var contends, es, after := Contender(verify, k), front + [e], AfterSet(verify, bucket, e);
    SetOutcome(verify, bucket, e, k);
    if k in bucket {
      var i: nat :| Winner(contends, front, i) && bucket[k] == RE.Marshal(front[i]);
      WinnerSnoc(contends, front, e, i);
      assert es[i] == front[i];
      if contends(e) {
        SetReplaces(verify, bucket, e, front[i], k);
      }
      assert Winner(contends, es, if contends(e) && e.revision > front[i].revision then |front| else i);
    } else {
      WinnerSnoc(contends, front, e, 0);
      assert contends(e) ==> Winner(contends, es, |front|) && es[|front|] == e;
    }
  }

  /** After any entries, in any order, for any keys, valid or not: a key holds the first delivered
      of its valid entries of highest revision, and nothing if it had none. */
  lemma {:induction false} RegisterIsMaximum(verify: RE.Verifier, es: seq<RE.Entry>, k: Bytes)
    requires Sound(verify)
    ensures HoldsWinner(Contender(verify, k), es, AfterAll(verify, map[], es), k)
  {
    if es != [] {
      var front, e := es[..|es| - 1], es[|es| - 1];
      RegisterIsMaximum(verify, front, k);
      SetKeepsWinner(verify, front, e, AfterAll(verify, map[], front), k);
      assert front + [e] == es;
    }
  }

  lemma WinnerRevision(verify: RE.Verifier, es: seq<RE.Entry>, k: Bytes) returns (i: nat)
    requires Sound(verify) && k in AfterAll(verify, map[], es)
    ensures Winner(Contender(verify, k), es, i) && StoredRevision(AfterAll(verify, map[], es), k) == es[i].revision
  {
    RegisterIsMaximum(verify, es, k);
    i :| Winner(Contender(verify, k), es, i) && AfterAll(verify, map[], es)[k] == RE.Marshal(es[i]);
    ValidRoundTrip(verify, es[i]);
  }

  lemma PermutedHas(es: seq<RE.Entry>, fs: seq<RE.Entry>, i: nat) returns (j: nat)
    requires multiset(es) == multiset(fs) && i < |es|
    ensures j < |fs| && fs[j] == es[i]
  {
    assert es[i] in multiset(fs);
    assert es[i] in fs;
    j :| 0 <= j < |fs| && fs[j] == es[i];
  }

  lemma PermutedRevisionAtMost(verify: RE.Verifier, es: seq<RE.Entry>, fs: seq<RE.Entry>, k: Bytes)
    requires Sound(verify) && multiset(es) == multiset(fs)
    ensures StoredRevision(AfterAll(verify, map[], es), k) <= StoredRevision(AfterAll(verify, map[], fs), k)
  {
    if k in AfterAll(verify, map[], es) {
      var i := WinnerRevision(verify, es, k);
      var j := PermutedHas(es, fs, i);
      RegisterIsMaximum(verify, fs, k);
      assert Contender(verify, k)(fs[j]);
      var w := WinnerRevision(verify, fs, k);
    } else {
      assert StoredRevision(AfterAll(verify, map[], es), k) == -1;
    }
  }

  /** The revision a key ends up with does not depend on the order of delivery. */
  lemma OrderDoesNotMatter(verify: RE.Verifier, es: seq<RE.Entry>, fs: seq<RE.Entry>, k: Bytes)
    requires Sound(verify) && multiset(es) == multiset(fs)
    ensures StoredRevision(AfterAll(verify, map[], es), k) == StoredRevision(AfterAll(verify, map[], fs), k)
  {
    PermutedRevisionAtMost(verify, es, fs, k);
    PermutedRevisionAtMost(verify, fs, es, k);
  }
}
