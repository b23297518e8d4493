/** Encrypted content identifiers (encoding/encrypted_cid.go). */
module EncryptedCid {
  import opened Base
  import Endian
  import Cid

  datatype EncryptedCID = EncryptedCID(
    blobHash: Bytes, original: Cid.CID, algorithm: Byte, padding: U64, chunkSizeAsPowerOf2: int, key: Bytes)

  datatype EncryptedCidError = WrongType | OutOfRange | Inner(error: Cid.CidError)

  /** The buffer grows by appending, field after field. */
  method ToBytes(c: EncryptedCID) returns (data: Bytes)
    ensures data == Serialized(c)
  {
    data := [Cid.ENCRYPTED_STATIC, c.algorithm, c.chunkSizeAsPowerOf2 % 256];
    data := data + c.blobHash;
    data := data + c.key;
    var padding := Endian.EncodeEndian(c.padding, 4);
    data := data + padding;
    var original := Cid.ToBytes(c.original);
    data := data + original;
  }

  function Serialized(c: EncryptedCID): Bytes {
    [Cid.ENCRYPTED_STATIC, c.algorithm, c.chunkSizeAsPowerOf2 % 256]
    + c.blobHash + c.key + Endian.Encode(c.padding, 4) + Cid.Serialized(c.original)
  }

  function Parse(d: Bytes): (r: Result<EncryptedCID, EncryptedCidError>)
    ensures r.Ok? ==> |r.value.blobHash| == 33 && |r.value.key| == 32 && 0 <= r.value.chunkSizeAsPowerOf2 < 256
  {
    if d == [] then Err(OutOfRange)
    else if d[0] != Cid.ENCRYPTED_STATIC then Err(WrongType)
    else if |d| < 72 then Err(OutOfRange)
    else match Cid.Parse(d[72..])
      case Err(e) => Err(Inner(e))
      case Ok(original) =>
        Ok(EncryptedCID(d[3..36], original, d[1], Endian.Value(d[68..72]) % WORD, d[2], d[36..68]))
  }

  predicate Portable(c: EncryptedCID) {
    && |c.blobHash| == 33 && |c.key| == 32
    && c.padding < 0x1_0000_0000 && 0 <= c.chunkSizeAsPowerOf2 < 256
    && Cid.Portable(c.original)
  }

  lemma Fields(c: EncryptedCID)
    requires |c.blobHash| == 33 && |c.key| == 32
    ensures var d := Serialized(c);
      && |d| >= 72 && d[0] == Cid.ENCRYPTED_STATIC && d[1] == c.algorithm && d[2] == c.chunkSizeAsPowerOf2 % 256
      && d[3..36] == c.blobHash && d[36..68] == c.key
      && d[68..72] == Endian.Encode(c.padding, 4) && d[72..] == Cid.Serialized(c.original)
  {
  }

  /** What parsing makes of printed fields of the right lengths: integers lose their high parts. */
  lemma ParseSerialized(c: EncryptedCID)
    requires |c.blobHash| == 33 && |c.key| == 32
    ensures Parse(Serialized(c)) == match Cid.Parse(Cid.Serialized(c.original))
      case Err(e) => Err(Inner(e))
      case Ok(o) =>
        Ok(EncryptedCID(c.blobHash, o, c.algorithm, c.padding % 0x1_0000_0000, c.chunkSizeAsPowerOf2 % 256, c.key))
  {
    Fields(c);
    var d := Serialized(c);
    assert d != [];
    Endian.SmallPowers();
    Endian.ValueOfEncode(c.padding, 4);
    Endian.FieldRead(d[68..72]);
  }

  /** Printing then parsing is the identity on exactly the portable encrypted CIDs. */
  lemma RoundTripIff(c: EncryptedCID)
    ensures Parse(Serialized(c)) == Ok(c) <==> Portable(c)
  {
    if |c.blobHash| == 33 && |c.key| == 32 {
      ParseSerialized(c);
      Cid.RoundTripIff(c.original);
      Unchanged(c.padding, 0x1_0000_0000);
      Unchanged(c.chunkSizeAsPowerOf2, 256);
    } else {
      assert Parse(Serialized(c)) != Ok(c);
    }
  }

  /** d is a type byte 0xae, then algorithm, chunk power, 33 bytes of hash, 32 of key and a four-byte
      padding, followed by the bytes of a CID. */
  predicate Reads(d: Bytes, c: EncryptedCID) {
    && |d| >= 72 && |c.blobHash| == 33 && |c.key| == 32
    && 0 <= c.chunkSizeAsPowerOf2 < 256 && c.padding < 0x1_0000_0000
    && d[..72] == [0xae, c.algorithm, c.chunkSizeAsPowerOf2] + c.blobHash + c.key + Endian.Encode(c.padding, 4)
    && Cid.Parse(d[72..]) == Ok(c.original)
  }

  /** The parser accepts exactly such bytes, as what they say. */
  lemma ParsedIff(d: Bytes, c: EncryptedCID)
    ensures Parse(d) == Ok(c) <==> Reads(d, c)
  {
    if Parse(d) == Ok(c) {
      Endian.SmallPowers();
      Endian.FieldRead(d[68..72]);
      Pieces(d);
    } else if Reads(d, c) {
      ReadsParsed(d, c);
      assert false;
    }
  }

  lemma ReadsParsed(d: Bytes, c: EncryptedCID)
    requires Reads(d, c)
    ensures Parse(d) == Ok(c)
  {
    var padding := Endian.Encode(c.padding, 4);
    HeadFields(d, c.algorithm, c.chunkSizeAsPowerOf2, c.blobHash, c.key, padding);
    Endian.SmallPowers();
    Endian.FieldWritten(c.padding, 4);
    assert c.padding % WORD == c.padding;
  }

  lemma Pieces(d: Bytes)
    requires |d| >= 72
    ensures d[..72] == [d[0], d[1], d[2]] + d[3..36] + d[36..68] + d[68..72]
  {
  }

  lemma HeadFields(d: Bytes, algorithm: Byte, chunk: Byte, blobHash: Bytes, key: Bytes, padding: Bytes)
    requires |blobHash| == 33 && |key| == 32 && |padding| == 4 && |d| >= 72
    requires d[..72] == [0xae, algorithm, chunk] + blobHash + key + padding
    ensures d[0] == 0xae && d[1] == algorithm && d[2] == chunk
    ensures d[3..36] == blobHash && d[36..68] == key && d[68..72] == padding
  {
    var h := d[..72];
    assert d[0] == h[0] && d[1] == h[1] && d[2] == h[2];
    assert d[3..36] == h[3..36] && d[36..68] == h[36..68] && d[68..72] == h[68..72];
  }

  /** What it refuses, and why. */
  lemma ParseErrors(d: Bytes)
    ensures Parse(d) == Err(WrongType) <==> d != [] && d[0] != 0xae
    ensures Parse(d) == Err(OutOfRange) <==> d == [] || (d[0] == 0xae && |d| < 72)
    ensures forall e :: Parse(d) == Err(Inner(e)) <==> |d| >= 72 && d[0] == 0xae && Cid.Parse(d[72..]) == Err(e)
  {
  }

  lemma Unchanged(v: int, m: int)
    requires m > 0
    ensures v % m == v <==> 0 <= v < m
  {
    if 0 <= v < m {
      Endian.Remainder(v, m, 0, v);
    }
  }
}
