/**
  What a proof store holds, free of byte encodings: one signature per (event, signer), and for
  every event the list of keys that the off-chain store uses to find the signatures again.
 */
module ProofStore {
  import opened Types
  import opened Sequences

  datatype Store = Store(
    sigs: map<(EventId, PublicPair), Bytes>,
    index: map<EventId, seq<PublicPair>>
  )

  const EMPTY := Store(map[], map[])

  /** The signer list of an event; an absent list reads as empty. */
  function SignerList(st: Store, e: EventId): seq<PublicPair> {
    if e in st.index then st.index[e] else []
  }

  /** The keys with a stored signature for the event. */
  function StoredSigners(st: Store, e: EventId): set<PublicPair> {
    set p | p in st.sigs && p.0 == e :: p.1
  }

  function AddProof(st: Store, w: WitnessedEvent): Store {
    Store(st.sigs[(w.eventId, w.pubKey) := w.signature],
          st.index[w.eventId := SignerList(st, w.eventId) + [w.pubKey]])
  }

  /** The signatures deleted by a purge: the listed signers outside the validator list. */
  function Stale(listed: seq<PublicPair>, e: EventId, validators: seq<PublicPair>): set<(EventId, PublicPair)> {
    set k | k in listed && k !in validators :: (e, k)
  }

  function PurgeStale(st: Store, e: EventId, validators: seq<PublicPair>): Store {
    Store(st.sigs - Stale(SignerList(st, e), e, validators),
          st.index[e := Filter(SignerList(st, e), validators)])
  }

  function Proofs(st: Store, e: EventId, validators: seq<PublicPair>): map<PublicPair, Bytes> {
    map k | k in validators && (e, k) in st.sigs :: st.sigs[(e, k)]
  }

  /** Counts validator positions, as the stores do, through a u16. */
  function ProofCount(st: Store, e: EventId, validators: seq<PublicPair>): nat {
    AsU16(CountIn(validators, StoredSigners(st, e)))
  }

  /** Every stored signature can be found through its event's signer list. */
  ghost predicate Indexed(st: Store) {
    forall p :: p in st.sigs ==> p.1 in SignerList(st, p.0)
  }

  lemma AddKeepsIndexed(st: Store, w: WitnessedEvent)
    requires Indexed(st)
    ensures Indexed(AddProof(st, w))
  {}

  /** A purge deletes exactly the event's signatures by keys outside the validator list. */
  lemma PurgeExact(st: Store, e: EventId, validators: seq<PublicPair>)
    requires Indexed(st)
    ensures Indexed(PurgeStale(st, e, validators))
    ensures PurgeStale(st, e, validators).sigs ==
            map p | p in st.sigs && (p.0 != e || p.1 in validators) :: st.sigs[p]
  {}

  lemma StoredSignersContain(st: Store, e: EventId, k: PublicPair)
    ensures k in StoredSigners(st, e) <==> (e, k) in st.sigs
  {}

  lemma AddedSigners(st: Store, w: WitnessedEvent, e: EventId)
    ensures StoredSigners(AddProof(st, w), e) == StoredSigners(st, e) + if w.eventId == e then {w.pubKey} else {}
  {
    forall k ensures k in StoredSigners(AddProof(st, w), e) <==>
                     k in StoredSigners(st, e) || (w.eventId == e && w.pubKey == k)
    {
      StoredSignersContain(AddProof(st, w), e, k);
      StoredSignersContain(st, e, k);
    }
  }

  lemma PurgedSigners(st: Store, purged: EventId, validators: seq<PublicPair>, e: EventId)
    requires Indexed(st)
    ensures StoredSigners(PurgeStale(st, purged, validators), e) ==
            if purged == e then StoredSigners(st, e) * SetOf(validators) else StoredSigners(st, e)
  {
    PurgeExact(st, purged, validators);
    forall k ensures k in StoredSigners(PurgeStale(st, purged, validators), e) <==>
                     k in StoredSigners(st, e) && (purged != e || k in validators)
    {
      StoredSignersContain(PurgeStale(st, purged, validators), e, k);
      StoredSignersContain(st, e, k);
    }
  }

  lemma ProofKeys(st: Store, e: EventId, validators: seq<PublicPair>)
    ensures Proofs(st, e, validators).Keys == SetOf(validators) * StoredSigners(st, e)
  {}

  /**
    The documented equivalence of the count with the number of returned proofs, for lists the u16
    can count: it holds exactly when no stored signer appears twice in the validator list.
   */
  lemma CountMatchesProofs(st: Store, e: EventId, validators: seq<PublicPair>)
    requires |validators| <= 0xFFFF
    ensures ProofCount(st, e, validators) == |Proofs(st, e, validators)| <==>
            !Repeats(validators, StoredSigners(st, e))
  {
    var stored := StoredSigners(st, e);
    var proofs := Proofs(st, e, validators);
    assert |proofs| == |SetOf(validators) * stored| by {
      ProofKeys(st, e, validators);
    }
    CountInExact(validators, stored);
    SmallU16(CountIn(validators, stored));
  }
}
