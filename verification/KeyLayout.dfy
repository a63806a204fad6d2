/**
  The storage keys shared by the persistent stores: an event's index lives under the bare event
  id, a signature under the event id followed by the bincode form of its public key (tag, 8-byte
  little-endian length, raw bytes).
 */
module KeyLayout {
  import opened Types

  function EncodeLength(n: nat, width: nat): (b: Bytes)
    ensures |b| == width
    decreases width
  {
    if width == 0 then [] else [(n % 256) as byte] + EncodeLength(n / 256, width - 1)
  }

  function DecodeLength(b: Bytes): nat {
    if b == [] then 0 else b[0] as nat + 256 * DecodeLength(b[1..])
  }

  function EncodeKey(k: PublicPair): Bytes {
    k.typeId + EncodeLength(|k.raw|, 8) + k.raw
  }

  /** Deserialization ignores trailing bytes and fails when the input is too short. */
  function DecodeKey(b: Bytes): Option<PublicPair> {
    if |b| < 12 then None
    else
      var n := DecodeLength(b[4..12]);
      if |b| - 12 < n || n >= 0x1_0000_0000_0000_0000 then None
      else Some(PublicPair(b[..4], b[12..12 + n]))
  }

  function IndexKey(e: EventId): Bytes {
    e
  }

  function SigKey(e: EventId, k: PublicPair): Bytes {
    e + EncodeKey(k)
  }

  function Power256(width: nat): nat {
    if width == 0 then 1 else 256 * Power256(width - 1)
  }

  lemma {:induction false} LengthRoundTrip(n: nat, width: nat)
    requires n < Power256(width)
    ensures DecodeLength(EncodeLength(n, width)) == n
    decreases width
  {
    if width > 0 {
      LengthRoundTrip(n / 256, width - 1);
    }
  }

  lemma EightBytes()
    ensures Power256(8) == 0x1_0000_0000_0000_0000
  {}

  /** A key is recovered from the bytes that follow the event id, whatever trails them. */
  lemma KeyRoundTrip(k: PublicPair, rest: Bytes)
    ensures DecodeKey(EncodeKey(k) + rest) == Some(k)
  {
    EightBytes();
    LengthRoundTrip(|k.raw|, 8);
    KeySlices(k.typeId, EncodeLength(|k.raw|, 8), k.raw, rest);
  }

  /** Where the parts of an encoded key lie. */
  lemma KeySlices(typeId: Bytes, length: Bytes, raw: Bytes, rest: Bytes)
    requires |typeId| == 4 && |length| == 8
    ensures var b := typeId + length + raw + rest;
            b[..4] == typeId && b[4..12] == length && b[12..12 + |raw|] == raw
  {}

  /** The base-256 digit of weight 256^i. */
  function ByteOf(n: nat, i: nat): (b: nat)
    ensures b < 256
    decreases i
  {
    if i == 0 then n % 256 else ByteOf(n / 256, i - 1)
  }

  lemma {:induction false} LengthBytes(n: nat, width: nat, i: nat)
    requires i < width
    ensures EncodeLength(n, width)[i] as nat == ByteOf(n, i)
    decreases width
  {
    if i > 0 {
      LengthBytes(n / 256, width - 1, i - 1);
    }
  }

  /**
    The layout, byte by byte: an event's index is under the 32 bytes of its id; a signature is under
    the id, the tag, the key's length in eight bytes with the least significant first, and the key.
   */
  lemma LayoutExact(e: EventId, k: PublicPair, i: nat)
    requires i < 8
    ensures IndexKey(e) == e
    ensures var b := SigKey(e, k);
            && |b| == 44 + |k.raw|
            && b[..32] == e && b[32..36] == k.typeId && b[44..] == k.raw
            && b[36 + i] as nat == ByteOf(|k.raw|, i)
  {
    LengthBytes(|k.raw|, 8, i);
  }

  lemma {:induction false} LengthInverse(b: Bytes)
    ensures EncodeLength(DecodeLength(b), |b|) == b
  {
    if b != [] {
      LengthInverse(b[1..]);
      var n := DecodeLength(b[1..]);
      assert (b[0] as nat + 256 * n) % 256 == b[0] as nat && (b[0] as nat + 256 * n) / 256 == n;
    }
  }

  lemma SlicesJoin(b: Bytes, n: nat)
    requires 12 + n <= |b|
    ensures b[..4] + b[4..12] + b[12..12 + n] == b[..12 + n] <= b
  {}

  lemma DecodedEncodes(b: Bytes)
    requires DecodeKey(b).Some?
    ensures EncodeKey(DecodeKey(b).value) <= b
  {
    var n := DecodeLength(b[4..12]);
    LengthInverse(b[4..12]);
    SlicesJoin(b, n);
    var k := DecodeKey(b).value;
    assert k.typeId == b[..4] && k.raw == b[12..12 + n] && |k.raw| == n;
  }

  /** Bytes decode to a key exactly when they start with its encoding. */
  lemma DecodeExact(b: Bytes, k: PublicPair)
    ensures DecodeKey(b) == Some(k) <==> EncodeKey(k) <= b
  {
    var code := EncodeKey(k);
    if code <= b {
      KeyRoundTrip(k, b[|code|..]);
      assert b == code + b[|code|..];
    } else if DecodeKey(b).Some? {
      DecodedEncodes(b);
    }
  }

  lemma SigKeyDecodes(e: EventId, k: PublicPair)
    ensures DecodeKey(SigKey(e, k)[32..]) == Some(k)
  {
    KeyRoundTrip(k, []);
    assert SigKey(e, k)[32..] == EncodeKey(k) + [];
  }

  /** Signature keys determine their event and signer, and are never index keys. */
  lemma SigKeyInjective(e1: EventId, k1: PublicPair, e2: EventId, k2: PublicPair)
    ensures SigKey(e1, k1) == SigKey(e2, k2) <==> e1 == e2 && k1 == k2
    ensures SigKey(e1, k1) != IndexKey(e2)
  {
    SigKeyDecodes(e2, k2);
  }
}
