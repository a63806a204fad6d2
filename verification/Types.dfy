/** Values shared by every component: identifiers, keys, signatures and errors. */
module Types {
  newtype byte = x: int | 0 <= x < 256
  type Bytes = seq<byte>

  /** A 32-byte hash: event ids and block hashes. */
  type H256 = b: Bytes | |b| == 32 witness seq(32, _ => 0)
  type EventId = H256
  type BlockHash = H256

  /** sr25519 values, as accepted by `Public::from_slice` and `Signature::from_slice`. */
  type Public = b: Bytes | |b| == 32 witness seq(32, _ => 0)
  type Signature = b: Bytes | |b| == 64 witness seq(64, _ => 0)

  /** Signature verification is taken as an arbitrary relation between keys, events and signatures. */
  type Verifier = (Public, EventId, Signature) -> bool

  /** The four-byte cryptosystem tag of a key and its raw bytes, whose length fits in a u64. */
  type CryptoTypeId = b: Bytes | |b| == 4 witness [0, 0, 0, 0]
  type RawKey = b: Bytes | |b| < 0x1_0000_0000_0000_0000
  datatype PublicPair = PublicPair(typeId: CryptoTypeId, raw: RawKey)

  datatype WitnessedEvent = WitnessedEvent(signature: Bytes, pubKey: PublicPair, eventId: EventId)

  datatype Option<+T> = None | Some(value: T)

  datatype Result<+T> = Ok(value: T) | Err(error: Error)

  datatype Error =
    | BadWitnessedEventSignature
    | SerializationFailure
    | SigningFailure
    | NotAValidator
    | Other

  /** The `as u16` cast. */
  function AsU16(n: nat): nat {
    n % 0x1_0000
  }

  lemma SmallU16(n: nat)
    requires n <= 0xFFFF
    ensures AsU16(n) == n
  {}

  /** A map lookup that reports absence, as storage reads do. */
  function Lookup<K, V>(m: map<K, V>, k: K): Option<V> {
    if k in m then Some(m[k]) else None
  }
}
