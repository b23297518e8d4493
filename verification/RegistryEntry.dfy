/** Signed registry entries and their byte form (protocol/registry.go). */
module RegistryEntry {
  import opened Base
  import Endian

  /** types.RecordTypeRegistryEntry, a single-byte positive fixint. */
  const RECORD_TYPE: Byte := 7

  datatype Entry = Entry(pk: Bytes, revision: U64, data: Bytes, signature: Bytes)

  datatype EntryError = InvalidEntry | InvalidSignature

  /** Signature verification (section 5.1.7 of RFC 8032) as a parameter: key, message, signature. */
  type Verifier = (Bytes, Bytes, Bytes) -> bool

  /** What is signed: the entry without its key. The length byte wraps at 256. */
  function Body(pk: Bytes, data: Bytes, revision: U64): Bytes {
    [RECORD_TYPE] + pk + Endian.Encode(revision, 8) + [|data| % 256] + data
  }

  function Marshal(e: Entry): Bytes {
    Body(e.pk, e.data, e.revision) + e.signature
  }

  predicate Verified(verify: Verifier, e: Entry)
    requires |e.pk| > 0
  {
    verify(e.pk[1..], Body([], e.data, e.revision), e.signature)
  }

  function Unmarshal(event: Bytes): (r: Result<Entry, EntryError>)
    ensures r.Ok? ==> |r.value.pk| == 33 && |r.value.data| < 256 && r.value.signature != []
  {
    if |event| < 43 || |event| < 43 + (event[42] as int) then Err(InvalidEntry)
    else
      var signatureStart := 43 + (event[42] as int);
      if signatureStart < |event| then
        Ok(Entry(event[1..34], Endian.Value(event[34..42]) % WORD, event[43..signatureStart], event[signatureStart..]))
      else Err(InvalidSignature)
  }

  method MarshalRegistryEntry(pk: Option<Bytes>, data: Bytes, revision: U64) returns (buffer: Bytes)
    ensures buffer == Body(if pk.Some? then pk.value else [], data, revision)
  {
    buffer := [RECORD_TYPE];
    if pk.Some? {
      buffer := buffer + pk.value;
    }
    var revBytes := Endian.EncodeEndian(revision, 8);
    buffer := buffer + revBytes;
    buffer := buffer + [|data| % 256];
    buffer := buffer + data;
    assert pk.None? ==> [RECORD_TYPE] + [] == [RECORD_TYPE];
  }

  method MarshalSigned(e: Entry) returns (buffer: Bytes)
    ensures buffer == Marshal(e)
  {
    buffer := MarshalRegistryEntry(Some(e.pk), e.data, e.revision);
    buffer := buffer + e.signature;
  }

  /** Entries whose byte form determines them. */
  predicate Portable(e: Entry) {
    |e.pk| == 33 && |e.data| < 256 && e.signature != []
  }

  lemma Fields(e: Entry)
    requires |e.pk| == 33
    ensures var b := Marshal(e);
      && |b| == 43 + |e.data| + |e.signature| && b[0] == RECORD_TYPE
      && b[1..34] == e.pk && b[34..42] == Endian.Encode(e.revision, 8) && b[42] == |e.data| % 256
      && b[43..43 + |e.data|] == e.data && b[43 + |e.data|..] == e.signature
  {
  }

  lemma UnmarshalMarshal(e: Entry)
    requires Portable(e)
    ensures Unmarshal(Marshal(e)) == Ok(e)
  {
    Fields(e);
    Endian.SmallPowers();
    Endian.FieldWritten(e.revision, 8);
  }

  /** Marshal then unmarshal is the identity on exactly the portable entries. */
  lemma RoundTripIff(e: Entry)
    ensures Unmarshal(Marshal(e)) == Ok(e) <==> Portable(e)
  {
    if Portable(e) {
      UnmarshalMarshal(e);
    } else if |e.pk| == 33 && |e.data| < 256 {
      Fields(e);
    }
  }

  lemma Pieces(b: Bytes, n: nat, first: Byte)
    requires 43 <= n <= |b|
    ensures [first] + b[1..34] + b[34..42] + [b[42]] + b[43..n] + b[n..] == [first] + b[1..]
  {
  }

  /** Unmarshal then marshal is the identity on exactly the records with the right leading byte. */
  lemma RemarshalIff(b: Bytes)
    requires Unmarshal(b).Ok?
    ensures Marshal(Unmarshal(b).value) == b <==> b[0] == RECORD_TYPE
  {
    var n := 43 + (b[42] as int);
    Endian.FieldRead(b[34..42]);
    Pieces(b, n, RECORD_TYPE);
    Pieces(b, n, b[0]);
    assert b == [b[0]] + b[1..];
  }

  /** What the parser reads: exactly the printings of portable entries, whatever their leading byte. */
  lemma UnmarshalIff(b: Bytes, e: Entry)
    ensures Unmarshal(b) == Ok(e) <==> Portable(e) && b != [] && b[1..] == Marshal(e)[1..]
  {
    if Unmarshal(b) == Ok(e) {
      var n := 43 + (b[42] as int);
      Endian.FieldRead(b[34..42]);
      Pieces(b, n, RECORD_TYPE);
    } else if Portable(e) && b != [] && b[1..] == Marshal(e)[1..] {
      SameTail(b, Marshal(e));
      UnmarshalMarshal(e);
      assert false;
    }
  }

  /** The leading byte is not looked at. */
  lemma SameTail(a: Bytes, b: Bytes)
    requires a != [] && b != [] && a[1..] == b[1..]
    ensures Unmarshal(a) == Unmarshal(b)
  {
    assert |a| == |b| && forall i :: 1 <= i < |a| ==> a[i] == a[1..][i - 1] == b[i];
    if |a| >= 43 && |a| >= 43 + (a[42] as int) {
      var n := 43 + (a[42] as int);
      assert a[1..34] == b[1..34] && a[34..42] == b[34..42] && a[43..n] == b[43..n] && a[n..] == b[n..];
    }
  }

  /** What it refuses: records too short for their fixed part and their data, and those without a signature. */
  lemma UnmarshalErrors(b: Bytes)
    ensures Unmarshal(b) == Err(InvalidEntry) <==> |b| < 43 || |b| < 43 + (b[42] as int)
    ensures Unmarshal(b) == Err(InvalidSignature) <==> |b| >= 43 && |b| == 43 + (b[42] as int)
  {
  }

  /** The signed bytes fix revision and data, so a signature vouches for both. */
  lemma BodyInjective(d1: Bytes, r1: U64, d2: Bytes, r2: U64)
    requires Body([], d1, r1) == Body([], d2, r2)
    ensures d1 == d2 && r1 == r2
  {
    var b1, b2 := Body([], d1, r1), Body([], d2, r2);
    assert b1[1..9] == Endian.Encode(r1, 8) && b2[1..9] == Endian.Encode(r2, 8);
    assert b1[10..] == d1 && b2[10..] == d2;
    Endian.SmallPowers();
    Endian.RoundTrip(r1, 8);
    Endian.RoundTrip(r2, 8);
  }
}
