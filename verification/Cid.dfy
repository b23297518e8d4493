/** Content identifiers and their byte form (encoding/cid.go, types/cid.go). */
module Cid {
  import opened Base
  import Endian

  const RAW := 0x26
  const METADATA_MEDIA := 0xc5
  const METADATA_WEBAPP := 0x59
  const RESOLVER := 0x25
  const USER_IDENTITY := 0x77
  const BRIDGE := 0x3a
  const ENCRYPTED_STATIC := 0xae
  const ENCRYPTED_DYNAMIC := 0xad
  const DIRECTORY := 0x5d

  const KNOWN_TYPES: set<int> :=
    {RAW, METADATA_MEDIA, METADATA_WEBAPP, RESOLVER, USER_IDENTITY, BRIDGE,
     ENCRYPTED_STATIC, ENCRYPTED_DYNAMIC, DIRECTORY}

  /** A CID: its type is a Go int, its hash the full multihash bytes. */
  datatype CID = CID(cidType: int, hash: Bytes, size: U64)

  /** OutOfRange stands for Go's run-time panic on a slice or index beyond the input. */
  datatype CidError = EmptyBytes | InvalidCid | InvalidType(code: int) | OutOfRange

  /** The size suffix of a raw CID: little-endian, without high zeros, never empty. */
  function SizeTail(size: U64): (t: Bytes)
    ensures Endian.Value(t) == size
    ensures 1 <= |t| <= 8 && (t == [0] || t[|t| - 1] != 0)
  {
    Endian.TrimKeepsValue(Endian.Encode(size, 8));
    Endian.RoundTrip(size, 8);
    Endian.SmallPowers();
    var t := Endian.Trim(Endian.Encode(size, 8));
    if t == [] then [0] else t
  }

  function Serialized(c: CID): Bytes {
    if c.cidType == BRIDGE then c.hash
    else if c.cidType == RAW then [c.cidType % 256] + c.hash + SizeTail(c.size)
    else [c.cidType % 256] + c.hash
  }

  function Parse(b: Bytes): (r: Result<CID, CidError>)
    ensures r.Ok? ==> r.value.cidType in KNOWN_TYPES && |r.value.hash| == if r.value.cidType == BRIDGE then 34 else 33
  {
    if b == [] then Err(EmptyBytes)
    else if b[0] == BRIDGE then
      if |b| < 35 then Err(OutOfRange) else Ok(CID(BRIDGE, b[1..35], 0))
    else if |b| < 34 then Err(InvalidCid)
    else if b[0] !in KNOWN_TYPES then Err(InvalidType(b[0]))
    else Ok(CID(b[0], b[1..34], Endian.Value(b[34..]) % WORD))
  }

  method ToBytes(c: CID) returns (out: Bytes)
    ensures out == Serialized(c)
  {
    if c.cidType == BRIDGE {
      return c.hash;
    } else if c.cidType == RAW {
      var sizeBytes := Endian.EncodeEndian(c.size, 8);
      while |sizeBytes| > 0 && sizeBytes[|sizeBytes| - 1] == 0
        invariant Endian.Trim(sizeBytes) == Endian.Trim(Endian.Encode(c.size, 8))
      {
        sizeBytes := sizeBytes[..|sizeBytes| - 1];
      }
      if |sizeBytes| == 0 {
        sizeBytes := [0];
      }
      return [c.cidType % 256] + c.hash + sizeBytes;
    }
    return [c.cidType % 256] + c.hash;
  }

  /** Known, non-bridge type and a 33-byte hash. */
  predicate WellFormed(c: CID) {
    c.cidType in KNOWN_TYPES && c.cidType != BRIDGE && |c.hash| == 33
  }

  /** CIDs whose byte form determines them. */
  predicate Portable(c: CID) {
    WellFormed(c) && (c.cidType == RAW || c.size == 0)
  }

  /** What of a CID its byte form carries: only raw CIDs carry their size. */
  function Carried(c: CID): CID {
    if c.cidType == RAW then c else c.(size := 0)
  }

  /** Any CID of a known, non-bridge type with a 33-byte hash parses back to what it carries. */
  lemma ParseSerialized(c: CID)
    requires WellFormed(c)
    ensures Parse(Serialized(c)) == Ok(Carried(c))
  {
    var b := Serialized(c);
    assert b[0] == c.cidType;
    assert b[1..34] == c.hash;
    if c.cidType == RAW {
      assert b[34..] == SizeTail(c.size);
      Endian.Remainder(c.size, WORD, 0, c.size);
    } else {
      assert b[34..] == [];
    }
  }

  /** The byte form: a bridge CID is its hash; any other has the type byte, the hash, and if it is raw
      the little-endian size without high zeros, at least one byte. */
  lemma Layout(c: CID)
    ensures c.cidType == 0x3a ==> Serialized(c) == c.hash
    ensures var s, n := Serialized(c), |c.hash|;
      c.cidType != 0x3a ==>
        && |s| > n && s[0] == c.cidType % 256 && s[1..n + 1] == c.hash
        && (c.cidType != 0x26 ==> |s| == n + 1)
        && (c.cidType == 0x26 ==> CanonicalSize(s[n + 1..]) && Endian.Value(s[n + 1..]) == c.size)
  {
    if c.cidType == RAW {
      assert Serialized(c)[|c.hash| + 1..] == SizeTail(c.size);
    }
  }

  /** Whatever follows a known type and 33 bytes of hash is read as the size; a bridge CID has 34
      bytes of hash and no size. */
  lemma ParseReads(cidType: Byte, hash: Bytes, rest: Bytes)
    requires cidType in KNOWN_TYPES && |hash| == if cidType == 0x3a then 34 else 33
    ensures Parse([cidType] + hash + rest)
         == Ok(CID(cidType, hash, if cidType == 0x3a then 0 else Endian.Value(rest) % WORD))
  {
    var b := [cidType] + hash + rest;
    assert b[0] == cidType && b[1..|hash| + 1] == hash && b[|hash| + 1..] == rest;
  }

  /** Only such strings are accepted, and the error tells what is wrong with any other. */
  lemma AcceptedIff(b: Bytes)
    ensures Parse(b).Ok? <==>
      && b != [] && |b| >= (if b[0] == 0x3a then 35 else 34)
      && b[0] in {0x26, 0xc5, 0x59, 0x25, 0x77, 0x3a, 0xae, 0xad, 0x5d}
    ensures Parse(b).Ok? ==> [b[0]] + Parse(b).value.hash <= b && Parse(b).value.cidType == b[0]
    ensures Parse(b) == Err(EmptyBytes) <==> b == []
    ensures Parse(b) == Err(OutOfRange) <==> b != [] && b[0] == 0x3a && |b| < 35
    ensures Parse(b) == Err(InvalidCid) <==> b != [] && b[0] != 0x3a && |b| < 34
    ensures forall code :: Parse(b) == Err(InvalidType(code)) <==> |b| >= 34 && b[0] == code && code !in KNOWN_TYPES
  {
  }

  /** Printing then parsing is the identity on exactly the portable CIDs. */
  lemma RoundTripIff(c: CID)
    ensures Parse(Serialized(c)) == Ok(c) <==> Portable(c)
  {
    if WellFormed(c) {
      ParseSerialized(c);
    }
  }

  /** What a CID carries comes back from its bytes exactly when the CID is well-formed. */
  lemma CarriedIff(c: CID)
    ensures Parse(Serialized(c)) == Ok(Carried(c)) <==> WellFormed(c)
  {
    if WellFormed(c) {
      ParseSerialized(c);
    }
  }

  /** Equal in type byte, hash and, if raw, size. */
  predicate SameIdentity(a: CID, b: CID) {
    && a.hash == b.hash && (a.cidType == BRIDGE <==> b.cidType == BRIDGE) && (a.cidType == RAW <==> b.cidType == RAW)
    && (a.cidType != BRIDGE ==> a.cidType % 256 == b.cidType % 256)
    && (a.cidType == RAW ==> a.size == b.size)
  }

  /** Equals compares byte forms: for any two CIDs with hashes of one length, that is identity. */
  lemma EqualsIff(a: CID, b: CID)
    requires |a.hash| == |b.hash|
    ensures Serialized(a) == Serialized(b) <==> SameIdentity(a, b)
  {
    var s, t, n := Serialized(a), Serialized(b), |a.hash|;
    if s == t {
      assert a.cidType == BRIDGE <==> |s| == n;
      if a.cidType != BRIDGE {
        assert s[0] == a.cidType % 256 && t[0] == b.cidType % 256;
        assert s[1..n + 1] == a.hash && t[1..n + 1] == b.hash;
        assert a.cidType == RAW ==> s[n + 1..] == SizeTail(a.size);
        assert b.cidType == RAW ==> t[n + 1..] == SizeTail(b.size);
      }
    }
  }

  /** In particular well-formed CIDs are equal exactly if they carry the same. */
  lemma WellFormedEqualsIff(a: CID, b: CID)
    requires WellFormed(a) && WellFormed(b)
    ensures Serialized(a) == Serialized(b) <==> Carried(a) == Carried(b)
  {
    ParseSerialized(a);
    ParseSerialized(b);
  }

  /** With hashes of different lengths it is not: a size of two bytes or more can lend one to the hash. */
  lemma EqualsConfuses(hash: Bytes, size: U64)
    requires |SizeTail(size)| > 1
    ensures var t := SizeTail(size);
            && Endian.Value(t[1..]) < WORD
            && Serialized(CID(RAW, hash, size)) == Serialized(CID(RAW, hash + [t[0]], Endian.Value(t[1..])))
  {
    var t := SizeTail(size);
    Endian.FieldRead(t[1..]);
    TailsEqual(SizeTail(Endian.Value(t[1..])), t[1..]);
    Lend([RAW], hash, t);
  }

  lemma Lend(p: Bytes, hash: Bytes, t: Bytes)
    requires t != []
    ensures p + (hash + [t[0]]) + t[1..] == p + hash + t
  {
  }

  /** The byte strings the printer can have produced. */
  predicate Canonical(b: Bytes) {
    b != [] && b[0] != BRIDGE &&
    if b[0] == RAW then |b| >= 34 && CanonicalSize(b[34..]) else |b| == 34
  }

  /** Parsing then printing is the identity on exactly the canonical byte strings. */
  lemma ReprintIff(b: Bytes)
    requires Parse(b).Ok?
    ensures Serialized(Parse(b).value) == b <==> Canonical(b)
  {
    if b[0] == RAW {
      RawReprint(b);
      TailIff(b[34..]);
    } else if b[0] != BRIDGE && |b| == 34 {
      assert b == [b[0]] + b[1..34];
      assert b[34..] == [];
    }
  }

  /** A raw CID is reprinted as its prefix, its hash and the tail of its size. */
  lemma RawReprint(b: Bytes)
    requires Parse(b).Ok? && b[0] == RAW
    ensures Serialized(Parse(b).value) == b <==> SizeTail(Endian.Value(b[34..]) % WORD) == b[34..]
  {
    var s := Serialized(Parse(b).value);
    assert s == (b[..34] + SizeTail(Endian.Value(b[34..]) % WORD));
    assert b == b[..34] + b[34..];
    assert s[34..] == SizeTail(Endian.Value(b[34..]) % WORD);
  }

  predicate CanonicalSize(t: Bytes) {
    1 <= |t| <= 8 && (|t| == 1 || t[|t| - 1] != 0)
  }

  lemma TailIff(t: Bytes)
    ensures SizeTail(Endian.Value(t) % WORD) == t <==> CanonicalSize(t)
  {
    if CanonicalSize(t) {
      Endian.FieldRead(t);
      CanonicalTail(t);
    }
  }

  /** Size tails of equal value are equal. */
  lemma TailsEqual(s: Bytes, t: Bytes)
    requires (s == [0] || (s != [] && s[|s| - 1] != 0)) && CanonicalSize(t) && Endian.Value(s) == Endian.Value(t)
    ensures s == t
  {
    if t == [0] {
      if s != [0] {
        Endian.NonZeroValue(s);
      }
    } else if s == [0] {
      Endian.NonZeroValue(t);
    } else {
      Endian.TrimmedUnique(s, t);
    }
  }

  lemma CanonicalTail(t: Bytes)
    requires CanonicalSize(t)
    ensures Endian.Value(t) < WORD && SizeTail(Endian.Value(t)) == t
  {
    Endian.FieldRead(t);
    TailsEqual(SizeTail(Endian.Value(t)), t);
  }
}
