/** The simple store: a nested map, locked for the whole of every call. */
module InMemoryProofs {
  import opened Types

  type ProofMap = map<EventId, map<PublicPair, Bytes>>

  function EventProofs(proofs: ProofMap, e: EventId): map<PublicPair, Bytes> {
    if e in proofs then proofs[e] else map[]
  }

  function Retain(m: map<PublicPair, Bytes>, validators: seq<PublicPair>): map<PublicPair, Bytes> {
    map k | k in m && k in validators :: m[k]
  }

  /** A signer's first signature wins. */
  function MemAdd(proofs: ProofMap, w: WitnessedEvent): ProofMap {
    var m := EventProofs(proofs, w.eventId);
    proofs[w.eventId := if w.pubKey in m then m else m[w.pubKey := w.signature]]
  }

  function MemPurge(proofs: ProofMap, e: EventId, validators: seq<PublicPair>): ProofMap {
    if e in proofs then proofs[e := Retain(proofs[e], validators)] else proofs
  }

  function MemProofs(proofs: ProofMap, e: EventId, validators: seq<PublicPair>): map<PublicPair, Bytes> {
    Retain(EventProofs(proofs, e), validators)
  }

  /** The trait's default count. */
  function MemCount(proofs: ProofMap, e: EventId, validators: seq<PublicPair>): nat {
    AsU16(|MemProofs(proofs, e, validators)|)
  }

  /** The signature a signer has stored for an event, if any. */
  function Signed(proofs: ProofMap, e: EventId, k: PublicPair): Option<Bytes> {
    Lookup(EventProofs(proofs, e), k)
  }

  class InMemoryEventProofs {
    var proofs: ProofMap

    constructor ()
      ensures proofs == map[]
    {
      proofs := map[];
    }

    method AddEventProof(event: WitnessedEvent)
      modifies this
      ensures proofs == MemAdd(old(proofs), event)
      ensures forall e, k ::
                Signed(proofs, e, k) ==
                if (e, k) == (event.eventId, event.pubKey) && Signed(old(proofs), e, k) == None
                then Some(event.signature) else Signed(old(proofs), e, k)
    {
      if event.eventId !in proofs {
        proofs := proofs[event.eventId := map[]];
      }
      var witnesses := proofs[event.eventId];
      if event.pubKey !in witnesses {
        witnesses := witnesses[event.pubKey := event.signature];
        proofs := proofs[event.eventId := witnesses];
      }
    }

    method PurgeEventStaleSignatures(e: EventId, validators: seq<PublicPair>)
      modifies this
      ensures proofs == MemPurge(old(proofs), e, validators)
      ensures forall e', k ::
                Signed(proofs, e', k) ==
                if e' == e && k !in validators then None else Signed(old(proofs), e', k)
    {
      if e in proofs {
        proofs := proofs[e := Retain(proofs[e], validators)];
      }
    }
  }
}
