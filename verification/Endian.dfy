/** Little-endian integers with Go's wrapping uint64 arithmetic (utils/endian.go). */
module Endian {
  import opened Base

  function Pow256(n: nat): (p: nat)
    ensures p > 0
  {
    if n == 0 then 1 else 256 * Pow256(n - 1)
  }

  /** The number a byte string stands for, least significant byte first. */
  function Value(b: Bytes): nat {
    if b == [] then 0 else b[0] + 256 * Value(b[1..])
  }

  /** The n low-order bytes of v, least significant first. */
  function Encode(v: nat, n: nat): (r: Bytes)
    ensures |r| == n
  {
    if n == 0 then [] else [v % 256] + Encode(v / 256, n - 1)
  }

  /** Dropping all zero bytes at the most significant end. */
  function Trim(b: Bytes): (r: Bytes)
    ensures r <= b
    ensures r == [] || r[|r| - 1] != 0
    ensures forall i :: |r| <= i < |b| ==> b[i] == 0
  {
    if b == [] || b[|b| - 1] != 0 then b else Trim(b[..|b| - 1])
  }

  lemma SmallPowers()
    ensures Pow256(1) == 256 && Pow256(2) == 0x1_0000 && Pow256(4) == 0x1_0000_0000 && Pow256(8) == WORD
  {
    assert Pow256(3) == 256 * Pow256(2);
    assert Pow256(5) == 256 * Pow256(4);
    assert Pow256(6) == 256 * Pow256(5);
    assert Pow256(7) == 256 * Pow256(6);
  }

  lemma {:induction false} ValueBound(b: Bytes)
    ensures Value(b) < Pow256(|b|)
  {
    if b != [] {
      ValueBound(b[1..]);
    }
  }

  lemma {:induction false} ValueSnoc(b: Bytes, x: Byte)
    ensures Value(b + [x]) == Value(b) + x * Pow256(|b|)
  {
    if b == [] {
      assert (b + [x])[1..] == [];
    } else {
      ValueSnoc(b[1..], x);
      assert (b + [x])[1..] == b[1..] + [x];
      var p := Pow256(|b| - 1);
      assert 256 * (x * p) == x * (256 * p);
    }
  }

  lemma {:induction false} PowMonotone(m: nat, n: nat)
    requires m <= n
    ensures Pow256(m) <= Pow256(n)
  {
    if m < n {
      PowMonotone(m, n - 1);
    }
  }

  /** Splitting a remainder modulo 256 * p into its low byte and the rest. */
  lemma ModSplit(v: nat, p: nat)
    requires p > 0
    ensures 256 * p > 0 && v % 256 + 256 * (v / 256 % p) == v % (256 * p)
  {
    var q, r := v / 256 / p, v / 256 % p;
    assert v / 256 == q * p + r;
    assert v == 256 * (q * p + r) + v % 256;
    assert 256 * (q * p) == q * (256 * p);
    Remainder(v, 256 * p, q, 256 * r + v % 256);
  }

  lemma Remainder(v: int, m: int, q: int, r: int)
    requires v == q * m + r && 0 <= r < m
    ensures v % m == r
  {
    var d := v / m - q;
    assert v == (v / m) * m + v % m;
    assert d * m == r - v % m by {
      assert (v / m) * m - q * m == (v / m - q) * m;
    }
    MultipleBound(d, m);
  }

  lemma MultipleBound(d: int, m: int)
    requires m > 0
    ensures d >= 1 ==> d * m >= m
    ensures d <= -1 ==> d * m <= -m
  {
    assert (d - 1) * m == d * m - m && (d + 1) * m == d * m + m;
  }

  /** Encoding keeps exactly the value modulo 256^n. */
  lemma {:induction false} ValueOfEncode(v: nat, n: nat)
    ensures Value(Encode(v, n)) == v % Pow256(n)
  {
    if n > 0 {
      ValueOfEncode(v / 256, n - 1);
      assert Encode(v, n)[1..] == Encode(v / 256, n - 1);
      ModSplit(v, Pow256(n - 1));
    }
  }

  /** Encoding the value of a byte string at its own length gives it back. */
  lemma {:induction false} EncodeOfValue(b: Bytes)
    ensures Encode(Value(b), |b|) == b
  {
    if b != [] {
      EncodeOfValue(b[1..]);
      assert (b[0] + 256 * Value(b[1..])) / 256 == Value(b[1..]);
    }
  }

  /** A value that fits survives the trip through n bytes; one that does not, does not. */
  lemma RoundTrip(v: nat, n: nat)
    ensures Value(Encode(v, n)) == v <==> v < Pow256(n)
  {
    ValueOfEncode(v, n);
    if v < Pow256(n) {
      Remainder(v, Pow256(n), 0, v);
    }
  }

  /** A field of at most eight bytes is read exactly, and written back unchanged. */
  lemma FieldRead(b: Bytes)
    requires |b| <= 8
    ensures Value(b) < Pow256(|b|) && Value(b) < WORD && Value(b) % WORD == Value(b)
    ensures Encode(Value(b) % WORD, |b|) == b
  {
    ValueBound(b);
    PowMonotone(|b|, 8);
    SmallPowers();
    Remainder(Value(b), WORD, 0, Value(b));
    EncodeOfValue(b);
  }

  /** A number that fits a field of at most eight bytes is written and read exactly. */
  lemma FieldWritten(v: nat, n: nat)
    requires n <= 8 && v < Pow256(n)
    ensures v < WORD && v % WORD == v && Value(Encode(v % WORD, n)) % WORD == v
  {
    PowMonotone(n, 8);
    SmallPowers();
    Remainder(v, WORD, 0, v);
    RoundTrip(v, n);
  }

  lemma {:induction false} ValueZeros(b: Bytes, z: Bytes)
    requires forall i :: 0 <= i < |z| ==> z[i] == 0
    ensures Value(b + z) == Value(b)
  {
    if z == [] {
      assert b + z == b;
    } else {
      var y := z[..|z| - 1];
      ValueZeros(b, y);
      ValueSnoc(b + y, 0);
      assert b + z == b + y + [0];
    }
  }

  lemma TrimKeepsValue(b: Bytes)
    ensures Value(Trim(b)) == Value(b)
  {
    var t := Trim(b);
    ValueZeros(t, b[|t|..]);
    assert t + b[|t|..] == b;
  }

  /** Byte strings without leading (most significant) zeros are determined by their value. */
  lemma {:induction false} TrimmedUnique(a: Bytes, b: Bytes)
    requires a == [] || a[|a| - 1] != 0
    requires b == [] || b[|b| - 1] != 0
    requires Value(a) == Value(b)
    ensures a == b
  {
    if a == [] {
      NonZeroValue(b);
    } else if b == [] {
      NonZeroValue(a);
    } else {
      assert a[0] == Value(a) % 256 == b[0];
      TrimmedUnique(a[1..], b[1..]);
      assert a == [a[0]] + a[1..] && b == [b[0]] + b[1..];
    }
  }

  lemma NonZeroValue(b: Bytes)
    requires b == [] || b[|b| - 1] != 0
    ensures b != [] ==> Value(b) > 0
  {
    if b != [] {
      ValueSnoc(b[..|b| - 1], b[|b| - 1]);
      assert b == b[..|b| - 1] + [b[|b| - 1]];
    }
  }

  /** Wrapping multiply-and-add agrees with exact arithmetic modulo WORD. */
  lemma WrappedStep(total: nat, x: nat, m: nat)
    ensures (total % WORD + (x * (m % WORD)) % WORD) % WORD == (total + x * m) % WORD
    ensures ((m % WORD) * 256) % WORD == (256 * m) % WORD
  {
    var a, r := total / WORD, total % WORD;
    var k, s := m / WORD, m % WORD;
    var c, t := (x * s) / WORD, (x * s) % WORD;
    assert x * m == x * (k * WORD + s) == (x * k) * WORD + x * s;
    var e := (r + t) / WORD;
    var whole := a + x * k + c + e;
    assert total + x * m == whole * WORD + (r + t) % WORD;
    Remainder(total + x * m, WORD, whole, (r + t) % WORD);
    Remainder(256 * m, WORD, 256 * k + (256 * s) / WORD, (256 * s) % WORD);
  }

  method EncodeEndian(value: U64, length: nat) returns (out: Bytes)
    ensures out == Encode(value, length)
    ensures Value(out) == value % Pow256(length)
  {
    var res := new Byte[length];
    var v: U64 := value;
    for i := 0 to length
      invariant res[..i] + Encode(v, length - i) == Encode(value, length)
    {
      res[i] := v % 256;
      v := v / 256;
      assert res[..i + 1] == res[..i] + [res[i]];
    }
    out := res[..];
    assert out == res[..length] + Encode(v, 0);
    ValueOfEncode(value, length);
  }

  method DecodeEndian(bytes: Bytes) returns (total: U64)
    ensures total == Value(bytes) % WORD
  {
    total := 0;
    var multiplier: U64 := 1;
    for i := 0 to |bytes|
      invariant total == Value(bytes[..i]) % WORD
      invariant multiplier == Pow256(i) % WORD
    {
      var b := bytes[i];
      ghost var before := bytes[..i];
      WrappedStep(Value(before), b, Pow256(i));
      ValueSnoc(before, b);
      assert bytes[..i + 1] == before + [b];
      total := (total + (b * multiplier) % WORD) % WORD;
      multiplier := (multiplier * 256) % WORD;
    }
    assert bytes[..|bytes|] == bytes;
  }
}
