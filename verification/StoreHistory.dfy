/** Sequential histories of adds and purges: the off-chain store against the in-memory store. */
module StoreHistory {
  import opened Types
  import opened Sequences
  import opened ProofStore
  import opened OffchainProofs
  import opened InMemoryProofs

  datatype Call = Add(w: WitnessedEvent) | Purge(event: EventId, validators: seq<PublicPair>)

  function MemoryAfter(h: seq<Call>): ProofMap {
    if h == [] then map[]
    else
      var before := MemoryAfter(h[..|h| - 1]);
      match h[|h| - 1]
      case Add(w) => MemAdd(before, w)
      case Purge(e, vs) => MemPurge(before, e, vs)
  }

  function OffchainAfter(codec: ListCodec, h: seq<Call>): Data {
    if h == [] then map[]
    else
      var before := OffchainAfter(codec, h[..|h| - 1]);
      match h[|h| - 1]
      case Add(w) => AddData(codec, before, w).0
      case Purge(e, vs) => PurgeData(codec, before, e, vs).0
  }

  function StoreAfter(h: seq<Call>): Store {
    if h == [] then EMPTY
    else
      var before := StoreAfter(h[..|h| - 1]);
      match h[|h| - 1]
      case Add(w) => AddProof(before, w)
      case Purge(e, vs) => PurgeStale(before, e, vs)
  }

  /**
    Reference: the signatures added for a signer, oldest first, since the event was last purged
    with a validator list that omits the signer.
   */
  function Added(h: seq<Call>, e: EventId, k: PublicPair): seq<Bytes> {
    if h == [] then []
    else
      var before := Added(h[..|h| - 1], e, k);
      match h[|h| - 1]
      case Add(w) => if w.eventId == e && w.pubKey == k then before + [w.signature] else before
      case Purge(e', vs) => if e' == e && k !in vs then [] else before
  }

  function First<T>(s: seq<T>): Option<T> {
    if s == [] then None else Some(s[0])
  }

  function Last<T>(s: seq<T>): Option<T> {
    if s == [] then None else Some(s[|s| - 1])
  }

  lemma {:induction false} OffchainRepresents(codec: ListCodec, h: seq<Call>)
    requires Lossless(codec)
    ensures Represents(codec, OffchainAfter(codec, h), StoreAfter(h))
    ensures Indexed(StoreAfter(h))
  {
    if h != [] {
      var before := h[..|h| - 1];
      OffchainRepresents(codec, before);
      match h[|h| - 1] {
        case Add(w) =>
          AddRefines(codec, OffchainAfter(codec, before), StoreAfter(before), w);
          AddKeepsIndexed(StoreAfter(before), w);
        case Purge(e, vs) =>
          PurgeRefines(codec, OffchainAfter(codec, before), StoreAfter(before), e, vs);
      }
    }
  }

  /** The off-chain store holds the newest surviving signature of every signer. */
  lemma {:induction false} OffchainKeepsNewest(codec: ListCodec, h: seq<Call>, e: EventId, k: PublicPair)
    requires Lossless(codec)
    ensures Lookup(StoreAfter(h).sigs, (e, k)) == Last(Added(h, e, k))
  {
    if h != [] {
      var before := h[..|h| - 1];
      OffchainKeepsNewest(codec, before, e, k);
      match h[|h| - 1] {
        case Add(w) =>
        case Purge(e', vs) =>
          OffchainRepresents(codec, before);
      }
    }
  }

  /** The in-memory store holds the oldest surviving signature of every signer. */
  lemma {:induction false} MemoryKeepsOldest(h: seq<Call>, e: EventId, k: PublicPair)
    ensures Lookup(EventProofs(MemoryAfter(h), e), k) == First(Added(h, e, k))
  {
    if h != [] {
      MemoryKeepsOldest(h[..|h| - 1], e, k);
    }
  }

  lemma SignerAgrees(codec: ListCodec, h: seq<Call>, e: EventId, validators: seq<PublicPair>, k: PublicPair)
    requires Lossless(codec) && k in validators
    ensures Lookup(ReadProofs(OffchainAfter(codec, h), e, validators), k) == Last(Added(h, e, k))
    ensures Lookup(MemProofs(MemoryAfter(h), e, validators), k) == First(Added(h, e, k))
  {
    OffchainRepresents(codec, h);
    OffchainKeepsNewest(codec, h, e, k);
    MemoryKeepsOldest(h, e, k);
  }

  /**
    After every history both stores report the same signers for every event and validator list;
    in memory with the oldest surviving signature, off-chain with the newest.
   */
  lemma StoresAgree(codec: ListCodec, h: seq<Call>, e: EventId, validators: seq<PublicPair>)
    requires Lossless(codec)
    ensures ReadProofs(OffchainAfter(codec, h), e, validators).Keys ==
            MemProofs(MemoryAfter(h), e, validators).Keys
    ensures forall k | k in validators ::
              && Lookup(ReadProofs(OffchainAfter(codec, h), e, validators), k) == Last(Added(h, e, k))
              && Lookup(MemProofs(MemoryAfter(h), e, validators), k) == First(Added(h, e, k))
  {
    var off, mem := ReadProofs(OffchainAfter(codec, h), e, validators), MemProofs(MemoryAfter(h), e, validators);
    forall k | k in validators
      ensures Lookup(off, k) == Last(Added(h, e, k))
      ensures Lookup(mem, k) == First(Added(h, e, k))
      ensures k in off <==> k in mem
    {
      SignerAgrees(codec, h, e, validators, k);
    }
  }

  /** Over every duplicate-free list, both stores also count alike, wrapping included. */
  lemma CountsAgree(codec: ListCodec, h: seq<Call>, e: EventId, validators: seq<PublicPair>)
    requires Lossless(codec) && Distinct(validators)
    ensures ReadCount(OffchainAfter(codec, h), e, validators) == MemCount(MemoryAfter(h), e, validators)
  {
    StoresAgree(codec, h, e, validators);
    OffchainRepresents(codec, h);
    var data, st := OffchainAfter(codec, h), StoreAfter(h);
    ReadsRefine(codec, data, st, e, validators);
    CountInDistinct(validators, StoredSigners(st, e));
    ProofKeys(st, e, validators);
    var mem := MemProofs(MemoryAfter(h), e, validators);
    assert |mem| == |mem.Keys|;
  }
}
