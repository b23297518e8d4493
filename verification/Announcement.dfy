/** Signed storage location announcements: the printer in storage/p2p.go and the parser
    at the head of StorageLocation.HandleMessage (protocol/storage_location.go). */
module Announcement {
  import opened Base
  import Endian

  /** types.RecordTypeStorageLocation, a single-byte positive fixint. */
  const RECORD_TYPE: Byte := 5

  /** A location: kind is a Go int, expiry an int64, each part the bytes of a Go string. */
  datatype Location = Location(kind: int, expiry: int, parts: seq<Bytes>)

  datatype Announcement = Announcement(
    hash: Bytes, location: Location, publicKey: Bytes, signature: Bytes, signed: Bytes)

  /** OutOfRange stands for Go's run-time panic on a slice beyond the message. */
  datatype ParseError = OutOfRange | InvalidMessage | UnsupportedKey(kind: Byte)

  /** A key pair: the 33-byte node id and the signing function of its private key. */
  datatype KeyPair = KeyPair(publicKey: Bytes, sign: Bytes -> Bytes)

  function PartBytes(part: Bytes): Bytes {
    Endian.Encode(|part| % WORD, 2) + part
  }

  function PartsBytes(parts: seq<Bytes>): Bytes {
    if parts == [] then [] else PartBytes(parts[0]) + PartsBytes(parts[1..])
  }

  /** Everything before the public key, which is what gets signed. */
  function SignedBytes(hash: Bytes, location: Location): Bytes {
    [RECORD_TYPE] + hash + [location.kind % 256] + Endian.Encode(location.expiry % WORD, 4)
    + [|location.parts| % 256] + PartsBytes(location.parts) + [0]
  }

  function Printed(hash: Bytes, location: Location, publicKey: Bytes, signature: Bytes): Bytes {
    SignedBytes(hash, location) + publicKey + signature
  }

  method PrepareProvideMessage(identity: KeyPair, hash: Bytes, location: Location) returns (message: Bytes)
    ensures message == Printed(hash, location, identity.publicKey, identity.sign(SignedBytes(hash, location)))
  {
    var list := [RECORD_TYPE];
    list := list + hash;
    list := list + [location.kind % 256];
    var expiry := Endian.EncodeEndian(location.expiry % WORD, 4);
    list := list + expiry;
    list := list + [|location.parts| % 256];
    ghost var head := list;
    for i := 0 to |location.parts|
      invariant list == head + PartsBytes(location.parts[..i])
    {
      var part := location.parts[i];
      var length := Endian.EncodeEndian(|part| % WORD, 2);
      NextPart(location.parts, i);
      Regroup(head, PartsBytes(location.parts[..i]), length, part);
      list := list + length;
      list := list + part;
    }
    assert location.parts[..|location.parts|] == location.parts;
    list := list + [0];
    message := list + identity.publicKey;
    message := message + identity.sign(list);
  }

  lemma Regroup(a: Bytes, b: Bytes, c: Bytes, d: Bytes)
    ensures ((a + b) + c) + d == a + (b + (c + d))
  {
  }

  lemma NextPart(parts: seq<Bytes>, i: nat)
    requires i < |parts|
    ensures PartsBytes(parts[..i + 1]) == PartsBytes(parts[..i]) + PartBytes(parts[i])
  {
    PartsSnoc(parts[..i], parts[i]);
    assert parts[..i + 1] == parts[..i] + [parts[i]];
  }

  lemma {:induction false} PartsSnoc(parts: seq<Bytes>, part: Bytes)
    ensures PartsBytes(parts + [part]) == PartsBytes(parts) + PartBytes(part)
  {
    if parts == [] {
      assert ([] + [part])[1..] == [];
    } else {
      PartsSnoc(parts[1..], part);
      assert (parts + [part])[1..] == parts[1..] + [part];
    }
  }

  /** count length-prefixed parts starting at cursor, and the position after them. */
  function ParseParts(msg: Bytes, cursor: nat, count: nat): (r: Result<(seq<Bytes>, nat), ParseError>)
    decreases count
  {
    if count == 0 then Ok(([], cursor))
    else if |msg| < cursor + 2 then Err(OutOfRange)
    else
      var length := Endian.Value(msg[cursor..cursor + 2]) % WORD;
      if |msg| < cursor + 2 + length then Err(InvalidMessage)
      else Prepend([msg[cursor + 2..cursor + 2 + length]], ParseParts(msg, cursor + 2 + length, count - 1))
  }

  function Parse(msg: Bytes): (r: Result<Announcement, ParseError>)
    ensures r.Ok? ==> |r.value.hash| == 33 && |r.value.publicKey| == 33 && r.value.publicKey[0] == ED25519
  {
    if |msg| < 40 then Err(OutOfRange)
    else match ParseParts(msg, 40, msg[39])
      case Err(e) => Err(e)
      case Ok((parts, end)) =>
        var cursor := end + 1;
        if |msg| < cursor + 33 then Err(OutOfRange)
        else if msg[cursor] != ED25519 then Err(UnsupportedKey(msg[cursor]))
        else
          var location := Location(msg[34], Endian.Value(msg[35..39]) % WORD, parts);
          Ok(Announcement(msg[1..34], location, msg[cursor..cursor + 33], msg[cursor + 33..], msg[..cursor]))
  }

  /** Parts read before the rest. */
  function Prepend(parts: seq<Bytes>, r: Result<(seq<Bytes>, nat), ParseError>): Result<(seq<Bytes>, nat), ParseError> {
    match r
    case Err(e) => Err(e)
    case Ok((rest, end)) => Ok((parts + rest, end))
  }

  lemma PrependNone(r: Result<(seq<Bytes>, nat), ParseError>)
    ensures Prepend([], r) == r
  {
    if r.Ok? {
      assert [] + r.value.0 == r.value.0;
    }
  }

  lemma PrependOne(parts: seq<Bytes>, part: Bytes, r: Result<(seq<Bytes>, nat), ParseError>)
    ensures Prepend(parts, Prepend([part], r)) == Prepend(parts + [part], r)
  {
    if r.Ok? {
      assert parts + ([part] + r.value.0) == (parts + [part]) + r.value.0;
    }
  }

  /** The parser as written: a cursor walks over the parts. */
  method ParseMessage(msg: Bytes) returns (r: Result<Announcement, ParseError>)
    ensures r == Parse(msg)
  {
    if |msg| < 40 {
      return Err(OutOfRange);
    }
    var hash, typeOfData := msg[1..34], msg[34];
    var expiry := Endian.DecodeEndian(msg[35..39]);
    var partCount: nat := msg[39];
    var parts: seq<Bytes> := [];
    var cursor: nat := 40;
    PrependNone(ParseParts(msg, cursor, partCount));
    for i := 0 to partCount
      invariant ParseParts(msg, 40, partCount) == Prepend(parts, ParseParts(msg, cursor, partCount - i))
    {
      if |msg| < cursor + 2 {
        return Err(OutOfRange);
      }
      var length := Endian.DecodeEndian(msg[cursor..cursor + 2]);
      cursor := cursor + 2;
      if |msg| < cursor + length {
        return Err(InvalidMessage);
      }
      var part := msg[cursor..cursor + length];
      PrependOne(parts, part, ParseParts(msg, cursor + length, partCount - i - 1));
      parts := parts + [part];
      cursor := cursor + length;
    }
    assert parts + [] == parts;
    cursor := cursor + 1;
    if |msg| < cursor + 33 {
      return Err(OutOfRange);
    }
    var publicKey, signature := msg[cursor..cursor + 33], msg[cursor + 33..];
    if publicKey[0] != ED25519 {
      return Err(UnsupportedKey(publicKey[0]));
    }
    return Ok(Announcement(hash, Location(typeOfData, expiry, parts), publicKey, signature, msg[..cursor]));
  }

  predicate ShortParts(parts: seq<Bytes>) {
    forall p :: p in parts ==> |p| < 0x1_0000
  }

  /** The announcements the wire format can carry. */
  predicate InRange(hash: Bytes, location: Location, publicKey: Bytes) {
    && |hash| == 33 && 0 <= location.kind < 256 && 0 <= location.expiry < 0x1_0000_0000
    && |location.parts| < 256 && ShortParts(location.parts)
    && |publicKey| == 33 && publicKey[0] == ED25519
  }

  lemma LengthPrefix(part: Bytes)
    requires |part| < 0x1_0000
    ensures Endian.Value(Endian.Encode(|part| % WORD, 2)) % WORD == |part|
  {
    Endian.SmallPowers();
    Endian.FieldWritten(|part|, 2);
  }

  lemma SubSlice(msg: Bytes, c: nat, s: Bytes, i: nat, j: nat)
    requires i <= j <= |s| && c + |s| <= |msg| && msg[c..c + |s|] == s
    ensures msg[c + i..c + j] == s[i..j]
  {
    assert forall k :: i <= k < j ==> msg[c..c + |s|][k] == s[k];
    assert forall k :: i <= k < j ==> msg[c + k] == s[k];
    assert forall k :: 0 <= k < j - i ==> msg[c + i..c + j][k] == msg[c + (i + k)] == s[i..j][k];
  }

  lemma ParseOne(msg: Bytes, c: nat, count: nat, length: nat, rest: seq<Bytes>, end: nat)
    requires count > 0 && c + 2 + length <= |msg| && Endian.Value(msg[c..c + 2]) % WORD == length
    requires ParseParts(msg, c + 2 + length, count - 1) == Ok((rest, end))
    ensures ParseParts(msg, c, count) == Ok(([msg[c + 2..c + 2 + length]] + rest, end))
  {
  }

  lemma {:induction false} ParsePrintedParts(msg: Bytes, c: nat, parts: seq<Bytes>)
    requires ShortParts(parts)
    requires c + |PartsBytes(parts)| <= |msg| && msg[c..c + |PartsBytes(parts)|] == PartsBytes(parts)
    ensures ParseParts(msg, c, |parts|) == Ok((parts, c + |PartsBytes(parts)|))
    decreases |parts|
  {
    if parts != [] {
      var p, rest := parts[0], parts[1..];
      FirstPart(msg, c, parts);
      ShortSplit(parts);
      ParsePrintedParts(msg, c + 2 + |p|, rest);
      OneMorePart(msg, c, p, rest, c + 2 + |p| + |PartsBytes(rest)|);
    }
  }

  lemma ShortSplit(parts: seq<Bytes>)
    requires ShortParts(parts) && parts != []
    ensures |parts[0]| < 0x1_0000 && ShortParts(parts[1..]) && [parts[0]] + parts[1..] == parts
  {
    assert parts[0] in parts && forall p :: p in parts[1..] ==> p in parts;
  }

  /** A printed part in front of parts that parse. */
  lemma OneMorePart(msg: Bytes, c: nat, p: Bytes, rest: seq<Bytes>, end: nat)
    requires |p| < 0x1_0000 && c + 2 + |p| <= |msg|
    requires msg[c..c + 2] == Endian.Encode(|p| % WORD, 2) && msg[c + 2..c + 2 + |p|] == p
    requires ParseParts(msg, c + 2 + |p|, |rest|) == Ok((rest, end))
    ensures ParseParts(msg, c, |rest| + 1) == Ok(([p] + rest, end))
  {
    LengthPrefix(p);
    ParseOne(msg, c, |rest| + 1, |p|, rest, end);
  }

  /** Where the first part and the rest lie in printed parts. */
  lemma FirstPart(msg: Bytes, c: nat, parts: seq<Bytes>)
    requires parts != []
    requires c + |PartsBytes(parts)| <= |msg| && msg[c..c + |PartsBytes(parts)|] == PartsBytes(parts)
    ensures var p, n := parts[0], |PartsBytes(parts)|;
      && n == 2 + |p| + |PartsBytes(parts[1..])| && msg[c..c + 2] == Endian.Encode(|p| % WORD, 2)
      && msg[c + 2..c + 2 + |p|] == p
      && msg[c + 2 + |p|..c + 2 + |p| + |PartsBytes(parts[1..])|] == PartsBytes(parts[1..])
  {
    var p, rest := parts[0], PartsBytes(parts[1..]);
    ThreePieces(msg, c, Endian.Encode(|p| % WORD, 2), p, rest);
  }

  lemma ThreePieces(msg: Bytes, c: nat, a: Bytes, b: Bytes, d: Bytes)
    requires c + |a| + |b| + |d| <= |msg| && msg[c..c + |a| + |b| + |d|] == (a + b) + d
    ensures msg[c..c + |a|] == a && msg[c + |a|..c + |a| + |b|] == b
    ensures msg[c + |a| + |b|..c + |a| + |b| + |d|] == d
  {
    var s := (a + b) + d;
    SubSlice(msg, c, s, 0, |a|);
    SubSlice(msg, c, s, |a|, |a| + |b|);
    SubSlice(msg, c, s, |a| + |b|, |s|);
    assert s[..|a|] == a && s[|a|..|a| + |b|] == b && s[|a| + |b|..] == d;
  }

  lemma SignedLayout(hash: Bytes, location: Location)
    requires |hash| == 33
    ensures var s := SignedBytes(hash, location);
      var end := 40 + |PartsBytes(location.parts)|;
      && |s| == end + 1 && s[0] == 5 && s[1..34] == hash && s[34] == location.kind % 256
      && s[35..39] == Endian.Encode(location.expiry % WORD, 4) && s[39] == |location.parts| % 256
      && s[40..end] == PartsBytes(location.parts) && s[end] == 0
  {
  }

  lemma ParseLayout(msg: Bytes, s: Bytes, hash: Bytes, location: Location, publicKey: Bytes, signature: Bytes)
    requires InRange(hash, location, publicKey)
    requires msg == s + (publicKey + signature)
    requires var end := 40 + |PartsBytes(location.parts)|;
      && |s| == end + 1 && s[1..34] == hash && s[34] == location.kind
      && s[35..39] == Endian.Encode(location.expiry % WORD, 4) && s[39] == |location.parts|
      && s[40..end] == PartsBytes(location.parts)
    ensures Parse(msg) == Ok(Announcement(hash, location, publicKey, signature, s))
  {
    var end := |s| - 1;
    HeadFields(msg, s, publicKey + signature, end);
    TailFields(msg, s, publicKey, signature);
    ParsePrintedParts(msg, 40, location.parts);
    ExpiryField(location.expiry);
  }

  lemma HeadFields(msg: Bytes, s: Bytes, tail: Bytes, end: nat)
    requires msg == s + tail && 40 <= end < |s|
    ensures msg[1..34] == s[1..34] && msg[34] == s[34] && msg[35..39] == s[35..39] && msg[39] == s[39]
    ensures msg[40..end] == s[40..end] && msg[..|s|] == s
  {
    assert msg[0..0 + |s|] == s;
    SubSlice(msg, 0, s, 1, 34);
    SubSlice(msg, 0, s, 35, 39);
    SubSlice(msg, 0, s, 40, end);
  }

  lemma TailFields(msg: Bytes, s: Bytes, publicKey: Bytes, signature: Bytes)
    requires msg == s + (publicKey + signature) && |publicKey| == 33
    ensures |msg| >= |s| + 33 && msg[|s|..|s| + 33] == publicKey && msg[|s| + 33..] == signature
    ensures msg[|s|] == publicKey[0]
  {
    var tail := publicKey + signature;
    assert msg[|s|..] == tail && tail[..33] == publicKey && tail[33..] == signature;
    assert msg[|s|..|s| + 33] == tail[..33] && msg[|s| + 33..] == tail[33..];
  }

  /** In range, the parser reads back what was printed and checks exactly the bytes that were signed. */
  lemma ParsePrinted(hash: Bytes, location: Location, publicKey: Bytes, signature: Bytes)
    requires InRange(hash, location, publicKey)
    ensures Parse(Printed(hash, location, publicKey, signature))
         == Ok(Announcement(hash, location, publicKey, signature, SignedBytes(hash, location)))
  {
    var s := SignedBytes(hash, location);
    SignedLayout(hash, location);
    assert (s + publicKey) + signature == s + (publicKey + signature);
    ParseLayout(s + (publicKey + signature), s, hash, location, publicKey, signature);
  }

  lemma ExpiryField(expiry: nat)
    requires expiry < 0x1_0000_0000
    ensures Endian.Value(Endian.Encode(expiry % WORD, 4)) % WORD == expiry
  {
    Endian.SmallPowers();
    Endian.FieldWritten(expiry, 4);
  }

  lemma {:induction false} PartsShape(msg: Bytes, cursor: nat, count: nat)
    requires cursor <= |msg| && ParseParts(msg, cursor, count).Ok?
    ensures var (parts, end) := ParseParts(msg, cursor, count).value;
      && |parts| == count && ShortParts(parts) && cursor <= end <= |msg| && msg[cursor..end] == PartsBytes(parts)
    decreases count
  {
    if count > 0 {
      var prefix := msg[cursor..cursor + 2];
      LengthRead(prefix);
      var length := Endian.Value(prefix) % WORD;
      var next := cursor + 2 + length;
      PartsShape(msg, next, count - 1);
      var (rest, end) := ParseParts(msg, next, count - 1).value;
      OnePartMore(msg[cursor + 2..next], rest);
      ThreeSlices(msg, cursor, cursor + 2, next, end);
    }
  }

  lemma LengthRead(prefix: Bytes)
    requires |prefix| == 2
    ensures Endian.Value(prefix) % WORD < 0x1_0000 && Endian.Encode(Endian.Value(prefix) % WORD, 2) == prefix
  {
    Endian.SmallPowers();
    Endian.FieldRead(prefix);
  }

  lemma OnePartMore(part: Bytes, rest: seq<Bytes>)
    requires |part| < 0x1_0000 && ShortParts(rest)
    ensures ShortParts([part] + rest)
    ensures PartsBytes([part] + rest) == Endian.Encode(|part|, 2) + part + PartsBytes(rest)
  {
    assert |part| % WORD == |part|;
    assert ([part] + rest)[1..] == rest;
  }

  lemma ThreeSlices(msg: Bytes, a: nat, b: nat, c: nat, d: nat)
    requires a <= b <= c <= d <= |msg|
    ensures msg[a..d] == msg[a..b] + msg[b..c] + msg[c..d]
  {
  }

  /** Whatever the parser accepts is in range. */
  lemma ParsedInRange(msg: Bytes)
    requires Parse(msg).Ok?
    ensures var a := Parse(msg).value;
      InRange(a.hash, a.location, a.publicKey) && a.signed + a.publicKey + a.signature == msg
  {
    ParsedRange(msg);
    WholeMessage(msg, |Parse(msg).value.signed|);
  }

  lemma ParsedRange(msg: Bytes)
    requires Parse(msg).Ok?
    ensures var a := Parse(msg).value; InRange(a.hash, a.location, a.publicKey) && |a.signed| + 33 <= |msg|
  {
    PartsShape(msg, 40, msg[39]);
    ExpiryRead(msg[35..39]);
  }

  lemma ExpiryRead(b: Bytes)
    requires |b| == 4
    ensures Endian.Value(b) % WORD < 0x1_0000_0000
  {
    Endian.FieldRead(b);
    Endian.SmallPowers();
  }

  lemma WholeMessage(msg: Bytes, cursor: nat)
    requires cursor + 33 <= |msg|
    ensures msg[..cursor] + msg[cursor..cursor + 33] + msg[cursor + 33..] == msg
  {
  }

  /** msg is a printed announcement, but for its first byte and the terminator after the parts. */
  predicate Reads(msg: Bytes, hash: Bytes, location: Location, publicKey: Bytes, signature: Bytes) {
    var s := SignedBytes(hash, location);
    var end := |s| - 1;
    && |msg| > end && msg[1..end] == s[1..end] && msg[end + 1..] == publicKey + signature
  }

  /** The parser accepts exactly such messages in range, whatever the two bytes are, as what they
      announce, and has the signature checked over the bytes before the key as received. */
  lemma AcceptsIff(msg: Bytes, hash: Bytes, location: Location, publicKey: Bytes, signature: Bytes)
    ensures var n := |SignedBytes(hash, location)|;
      && n > 0
      && (Parse(msg) == Ok(Announcement(hash, location, publicKey, signature, if n <= |msg| then msg[..n] else msg))
          <==> InRange(hash, location, publicKey) && Reads(msg, hash, location, publicKey, signature))
  {
    var n := |SignedBytes(hash, location)|;
    if InRange(hash, location, publicKey) && Reads(msg, hash, location, publicKey, signature) {
      AcceptsReads(msg, hash, location, publicKey, signature);
    } else if Parse(msg).Ok? {
      var a := Parse(msg).value;
      if a == Announcement(hash, location, publicKey, signature, if n <= |msg| then msg[..n] else msg) {
        ParsedInRange(msg);
        SameFields(msg, SignedBytes(hash, location));
        ReadsBack(msg, a, SignedBytes(hash, location));
      }
    }
  }

  lemma AcceptsReads(msg: Bytes, hash: Bytes, location: Location, publicKey: Bytes, signature: Bytes)
    requires InRange(hash, location, publicKey) && Reads(msg, hash, location, publicKey, signature)
    ensures var n := |SignedBytes(hash, location)|;
      n <= |msg| && Parse(msg) == Ok(Announcement(hash, location, publicKey, signature, msg[..n]))
  {
    var s := SignedBytes(hash, location);
    SignedLayout(hash, location);
    var t := msg[..|s|];
    HeadAgrees(t, msg, s);
    assert msg == t + (publicKey + signature);
    ParseLayout(msg, t, hash, location, publicKey, signature);
  }

  /** The layout's fields lie between the first byte and the terminator. */
  lemma HeadAgrees(t: Bytes, msg: Bytes, s: Bytes)
    requires 41 <= |s| <= |msg| && t == msg[..|s|] && msg[1..|s| - 1] == s[1..|s| - 1]
    ensures t[1..34] == s[1..34] && t[34] == s[34] && t[35..39] == s[35..39] && t[39] == s[39]
    ensures t[40..|s| - 1] == s[40..|s| - 1]
  {
    assert forall i :: 1 <= i < |s| - 1 ==> t[i] == msg[1..|s| - 1][i - 1] == s[1..|s| - 1][i - 1] == s[i];
  }

  lemma ReadsBack(msg: Bytes, a: Announcement, s: Bytes)
    requires Parse(msg) == Ok(a) && s == SignedBytes(a.hash, a.location) && |s| == |a.signed|
    requires msg == a.signed + a.publicKey + a.signature
    ensures Reads(msg, a.hash, a.location, a.publicKey, a.signature)
  {
    ParsedLayout(msg);
    ParsedRange(msg);
    PrintedLayout(a.hash, a.location);
    SameInner(a.signed, s, a.hash, a.location.kind, Endian.Encode(a.location.expiry % WORD, 4),
              |a.location.parts|, PartsBytes(a.location.parts));
    Around(msg, a.signed, a.publicKey, a.signature);
  }

  lemma ParsedLayout(msg: Bytes)
    requires Parse(msg).Ok?
    ensures var a := Parse(msg).value;
      Layout(a.signed, a.hash, a.location.kind, Endian.Encode(a.location.expiry % WORD, 4),
             |a.location.parts|, PartsBytes(a.location.parts))
  {
    ParsedFields(msg);
  }

  lemma PrintedLayout(hash: Bytes, location: Location)
    requires |hash| == 33 && 0 <= location.kind < 256 && |location.parts| < 256
    ensures Layout(SignedBytes(hash, location), hash, location.kind, Endian.Encode(location.expiry % WORD, 4),
                   |location.parts|, PartsBytes(location.parts))
  {
    SignedLayout(hash, location);
  }

  lemma Around(msg: Bytes, t: Bytes, publicKey: Bytes, signature: Bytes)
    requires msg == t + publicKey + signature && |t| > 1
    ensures msg[1..|t| - 1] == t[1..|t| - 1]
    ensures msg[|t|..] == publicKey + signature
  {
  }

  lemma SameInner(s: Bytes, t: Bytes, hash: Bytes, kind: int, expiry: Bytes, count: int, parts: Bytes)
    requires Layout(s, hash, kind, expiry, count, parts) && Layout(t, hash, kind, expiry, count, parts)
    requires |hash| == 33 && |expiry| == 4
    ensures s[1..|s| - 1] == t[1..|t| - 1] == hash + [s[34]] + expiry + [s[39]] + parts
  {
    Inner(s);
    Inner(t);
  }

  lemma Inner(s: Bytes)
    requires |s| > 40
    ensures s[1..|s| - 1] == s[1..34] + [s[34]] + s[35..39] + [s[39]] + s[40..|s| - 1]
  {
  }

  /** A message that reads like one in range but for the type of its key is refused for that type. */
  lemma RefusedKey(msg: Bytes, hash: Bytes, location: Location, publicKey: Bytes, signature: Bytes)
    requires |hash| == 33 && |location.parts| < 256 && ShortParts(location.parts)
    requires |publicKey| == 33 && publicKey[0] != ED25519
    requires Reads(msg, hash, location, publicKey, signature)
    ensures Parse(msg) == Err(UnsupportedKey(publicKey[0]))
  {
    var s := SignedBytes(hash, location);
    SignedLayout(hash, location);
    var t := msg[..|s|];
    HeadAgrees(t, msg, s);
    assert msg == t + (publicKey + signature);
    RefusedLayout(msg, t, location.parts, publicKey, signature);
  }

  lemma RefusedLayout(msg: Bytes, t: Bytes, parts: seq<Bytes>, publicKey: Bytes, signature: Bytes)
    requires msg == t + (publicKey + signature) && |t| == 41 + |PartsBytes(parts)|
    requires ShortParts(parts) && t[39] == |parts| && t[40..|t| - 1] == PartsBytes(parts)
    requires |publicKey| == 33 && publicKey[0] != ED25519
    ensures Parse(msg) == Err(UnsupportedKey(publicKey[0]))
  {
    HeadFields(msg, t, publicKey + signature, |t| - 1);
    TailFields(msg, t, publicKey, signature);
    ParsePrintedParts(msg, 40, parts);
  }

  /** An announcement is read back unchanged exactly when it is in range. */
  lemma RoundTripIff(hash: Bytes, location: Location, publicKey: Bytes, signature: Bytes)
    ensures Parse(Printed(hash, location, publicKey, signature))
         == Ok(Announcement(hash, location, publicKey, signature, SignedBytes(hash, location)))
       <==> InRange(hash, location, publicKey)
  {
    var msg := Printed(hash, location, publicKey, signature);
    if Parse(msg).Ok? {
      ParsedInRange(msg);
    }
    if InRange(hash, location, publicKey) {
      ParsePrinted(hash, location, publicKey, signature);
    }
  }

  /** An accepted message is the printing of what was read, but for two bytes the parser skips:
      the record type in front and the terminator after the parts. */
  lemma ReprintIff(msg: Bytes)
    requires Parse(msg).Ok?
    ensures Parse(msg).value.signed != []
    ensures var a := Parse(msg).value;
      Printed(a.hash, a.location, a.publicKey, a.signature) == msg
      <==> (msg[0] == RECORD_TYPE && a.signed[|a.signed| - 1] == 0)
  {
    var a := Parse(msg).value;
    ParsedInRange(msg);
    var s := SignedBytes(a.hash, a.location);
    SameFields(msg, s);
    SameFront(s, a.signed, a.publicKey, a.signature);
  }

  lemma SameFront(s: Bytes, t: Bytes, k: Bytes, g: Bytes)
    requires |s| == |t|
    ensures s + k + g == t + k + g <==> s == t
  {
    assert (s + k + g)[..|s|] == s && (t + k + g)[..|s|] == t;
  }

  lemma ParsedFields(msg: Bytes)
    requires Parse(msg).Ok?
    ensures var a := Parse(msg).value; var t := a.signed;
      && |t| == 41 + |PartsBytes(a.location.parts)| && t == msg[..|t|]
      && t[1..34] == a.hash && t[34] == a.location.kind
      && t[35..39] == Endian.Encode(a.location.expiry % WORD, 4) && t[39] == |a.location.parts|
      && t[40..|t| - 1] == PartsBytes(a.location.parts)
  {
    var t := Parse(msg).value.signed;
    PartsShape(msg, 40, msg[39]);
    Endian.FieldRead(msg[35..39]);
    assert t[1..34] == msg[1..34] && t[35..39] == msg[35..39] && t[40..|t| - 1] == msg[40..|t| - 1];
  }

  lemma SameFields(msg: Bytes, s: Bytes)
    requires Parse(msg).Ok?
    requires s == SignedBytes(Parse(msg).value.hash, Parse(msg).value.location)
    ensures var t := Parse(msg).value.signed;
      |s| == |t| > 40 && t[0] == msg[0] && (s == t <==> t[0] == RECORD_TYPE && t[|t| - 1] == 0)
  {
    var a := Parse(msg).value;
    ParsedLayout(msg);
    ParsedRange(msg);
    PrintedLayout(a.hash, a.location);
    PrintedEnds(a.hash, a.location);
    SameLayout(s, a.signed, a.hash, a.location.kind, Endian.Encode(a.location.expiry % WORD, 4),
               |a.location.parts|, PartsBytes(a.location.parts));
  }

  lemma PrintedEnds(hash: Bytes, location: Location)
    requires |hash| == 33
    ensures var s := SignedBytes(hash, location);
      |s| > 40 && s[0] == RECORD_TYPE && s[|s| - 1] == 0
  {
    SignedLayout(hash, location);
  }

  /** s has the fields of the layout between its first and last byte. */
  predicate Layout(s: Bytes, hash: Bytes, kind: int, expiry: Bytes, count: int, parts: Bytes) {
    && |s| == 41 + |parts| && s[1..34] == hash && s[34] == kind && s[35..39] == expiry && s[39] == count
    && s[40..|s| - 1] == parts
  }

  lemma SameLayout(s: Bytes, t: Bytes, hash: Bytes, kind: int, expiry: Bytes, count: int, parts: Bytes)
    requires Layout(s, hash, kind, expiry, count, parts) && Layout(t, hash, kind, expiry, count, parts)
    ensures |s| == |t| > 40 && (s == t <==> s[0] == t[0] && s[|s| - 1] == t[|t| - 1])
  {
    SameMiddle(s, t);
  }

  /** Two strings that agree on the layout's inner fields differ at most at the ends. */
  lemma SameMiddle(s: Bytes, t: Bytes)
    requires |s| == |t| > 40
    requires s[1..34] == t[1..34] && s[34] == t[34] && s[35..39] == t[35..39] && s[39] == t[39]
    requires s[40..|s| - 1] == t[40..|s| - 1]
    ensures s == t <==> s[0] == t[0] && s[|s| - 1] == t[|s| - 1]
  {
    var e := |s| - 1;
    assert s == [s[0]] + s[1..34] + [s[34]] + s[35..39] + [s[39]] + s[40..e] + [s[e]];
    assert t == [t[0]] + t[1..34] + [t[34]] + t[35..39] + [t[39]] + t[40..e] + [t[e]];
  }

  /** Distinct announcements in range never share signed bytes: a signature vouches for one location. */
  lemma SignedBytesInjective(h1: Bytes, l1: Location, h2: Bytes, l2: Location, publicKey: Bytes)
    requires InRange(h1, l1, publicKey) && InRange(h2, l2, publicKey)
    requires SignedBytes(h1, l1) == SignedBytes(h2, l2)
    ensures h1 == h2 && l1 == l2
  {
    ParsePrinted(h1, l1, publicKey, []);
    ParsePrinted(h2, l2, publicKey, []);
  }
}
