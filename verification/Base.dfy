/** Vocabulary shared by every component: bytes, Go's 64-bit words, and result types. */
module Base {
  type Byte = b: int | 0 <= b < 256
  type Bytes = seq<Byte>

  /** Two to the power 64: Go's uint64 arithmetic is arithmetic modulo WORD. */
  const WORD := 0x1_0000_0000_0000_0000

  type U64 = n: int | 0 <= n < WORD

  /** A node is named by its public key bytes. */
  type NodeId = Bytes

  datatype Option<+T> = None | Some(value: T)

  datatype Result<+T, +E> = Ok(value: T) | Err(error: E)

  /** The leading byte of an Ed25519 public key or node id (types/hash.go). */
  const ED25519: Byte := 0xed
}
