/**
  Sequential histories of the RocksDB store, against the off-chain store. A purge deletes what its
  iterator visits; past the event's own keys the iterator may visit those of other events.
 */
module RocksHistory {
  import opened Types
  import opened KeyLayout
  import opened ProofStore
  import opened OffchainProofs
  import opened RocksDbProofs
  import opened StoreHistory

  /** The keys a purge of the event visits in a database. */
  type Iterator = (Data, EventId) -> seq<Bytes>

  ghost predicate Reaches(visit: Iterator) {
    forall db, e | WellLaidOut(db) :: Visits(db, e, visit(db, e))
  }

  ghost function RocksAfter(visit: Iterator, h: seq<Call>): (db: Data)
    requires Reaches(visit)
    ensures WellLaidOut(db)
  {
    if h == [] then map[]
    else
      var before := RocksAfter(visit, h[..|h| - 1]);
      match h[|h| - 1]
      case Add(w) =>
        assert IsSigKey(SigKey(w.eventId, w.pubKey));
        before[SigKey(w.eventId, w.pubKey) := w.signature]
      case Purge(e, vs) =>
        VisitedDecode(before, e, visit(before, e));
        before - StaleKeys(visit(before, e), vs)
  }

  /** Every key the purge visits outside its event is a validator's. */
  ghost predicate NoStrays(e: EventId, vs: seq<PublicPair>, visited: seq<Bytes>) {
    forall e', k | SigKey(e', k) in visited && e' != e :: k in vs
  }

  /** Of every purge in the history. */
  ghost predicate NoStraysThroughout(visit: Iterator, h: seq<Call>)
    requires Reaches(visit)
  {
    h != [] ==>
      && NoStraysThroughout(visit, h[..|h| - 1])
      && var before, last := RocksAfter(visit, h[..|h| - 1]), h[|h| - 1];
         last.Purge? ==> NoStrays(last.event, last.validators, visit(before, last.event))
  }

  /** Both hold the same signature for every event and signer. */
  ghost predicate SameSignatures(db: Data, st: Store) {
    forall e: EventId, k: PublicPair :: Lookup(db, SigKey(e, k)) == Lookup(st.sigs, (e, k))
  }

  /** After the history and each of its prefixes. */
  ghost predicate AgreeThroughout(visit: Iterator, h: seq<Call>)
    requires Reaches(visit)
  {
    && SameSignatures(RocksAfter(visit, h), StoreAfter(h))
    && (h != [] ==> AgreeThroughout(visit, h[..|h| - 1]))
  }

  lemma AddsAgree(db: Data, st: Store, w: WitnessedEvent)
    requires SameSignatures(db, st)
    ensures SameSignatures(db[SigKey(w.eventId, w.pubKey) := w.signature], AddProof(st, w))
  {
    forall e: EventId, k: PublicPair
      ensures Lookup(db[SigKey(w.eventId, w.pubKey) := w.signature], SigKey(e, k)) ==
              Lookup(AddProof(st, w).sigs, (e, k))
    {
      SigKeyInjective(w.eventId, w.pubKey, e, k);
      assert Lookup(db, SigKey(e, k)) == Lookup(st.sigs, (e, k));
    }
  }

  lemma PurgesAgreeOn(db: Data, st: Store, e: EventId, vs: seq<PublicPair>, visited: seq<Bytes>,
                      e': EventId, k: PublicPair)
    requires WellLaidOut(db) && Visits(db, e, visited) && Indexed(st)
    requires Lookup(db, SigKey(e', k)) == Lookup(st.sigs, (e', k))
    requires forall b | b in visited :: |b| >= 32
    ensures Lookup(db - StaleKeys(visited, vs), SigKey(e', k)) == Lookup(PurgeStale(st, e, vs).sigs, (e', k)) <==>
            (SigKey(e', k) in visited && e' != e ==> k in vs)
  {
    RocksPurgeExact(db, e, visited, vs, e', k);
    PurgeExact(st, e, vs);
  }

  /** Where the stores agree, a purge keeps them in agreement exactly when it has no strays. */
  lemma PurgesAgreeIff(db: Data, st: Store, e: EventId, vs: seq<PublicPair>, visited: seq<Bytes>)
    requires WellLaidOut(db) && Visits(db, e, visited) && Indexed(st) && SameSignatures(db, st)
    requires forall b | b in visited :: |b| >= 32
    ensures SameSignatures(db - StaleKeys(visited, vs), PurgeStale(st, e, vs)) <==> NoStrays(e, vs, visited)
  {
    forall e': EventId, k: PublicPair
      ensures Lookup(db - StaleKeys(visited, vs), SigKey(e', k)) == Lookup(PurgeStale(st, e, vs).sigs, (e', k)) <==>
              (SigKey(e', k) in visited && e' != e ==> k in vs)
    {
      PurgesAgreeOn(db, st, e, vs, visited, e', k);
    }
  }

  lemma NextCallAgreesIff(visit: Iterator, h: seq<Call>)
    requires Reaches(visit) && h != []
    requires var init := h[..|h| - 1]; Indexed(StoreAfter(init)) && SameSignatures(RocksAfter(visit, init), StoreAfter(init))
    ensures var db, last := RocksAfter(visit, h[..|h| - 1]), h[|h| - 1];
            SameSignatures(RocksAfter(visit, h), StoreAfter(h)) <==>
            (last.Purge? ==> NoStrays(last.event, last.validators, visit(db, last.event)))
  {
    var db, st := RocksAfter(visit, h[..|h| - 1]), StoreAfter(h[..|h| - 1]);
    match h[|h| - 1] {
      case Add(w) => AddsAgree(db, st, w);
      case Purge(e, vs) =>
        VisitedDecode(db, e, visit(db, e));
        PurgesAgreeIff(db, st, e, vs, visit(db, e));
    }
  }

  /**
    The RocksDB store holds the off-chain store's signatures throughout a history if and only if no
    purge in it visits a non-validator's key of another event.
   */
  lemma {:induction false} RocksAgreesIff(visit: Iterator, codec: ListCodec, h: seq<Call>)
    requires Reaches(visit) && Lossless(codec)
    ensures AgreeThroughout(visit, h) <==> NoStraysThroughout(visit, h)
  {
    if h != [] {
      var init := h[..|h| - 1];
      RocksAgreesIff(visit, codec, init);
      if AgreeThroughout(visit, init) {
        OffchainRepresents(codec, init);
        NextCallAgreesIff(visit, h);
      }
    }
  }

  /** The iterator stops at the end of the event's keys. */
  ghost predicate StopsAtPrefix(visit: Iterator) {
    forall db, e, b | WellLaidOut(db) :: b in visit(db, e) <==> b in db && HasPrefix(b, e)
  }

  /** In particular, with an iterator that stops there, all histories end with the off-chain store's signatures. */
  lemma {:induction false} PrefixIteratorAgrees(visit: Iterator, codec: ListCodec, h: seq<Call>, e: EventId, k: PublicPair)
    requires Reaches(visit) && StopsAtPrefix(visit) && Lossless(codec)
    ensures NoStraysThroughout(visit, h)
    ensures Lookup(RocksAfter(visit, h), SigKey(e, k)) == Lookup(OffchainAfter(codec, h), SigKey(e, k))
  {
    PrefixIteratorHasNoStrays(visit, h);
    RocksAgreesIff(visit, codec, h);
    OffchainRepresents(codec, h);
  }

  lemma {:induction false} PrefixIteratorHasNoStrays(visit: Iterator, h: seq<Call>)
    requires Reaches(visit) && StopsAtPrefix(visit)
    ensures NoStraysThroughout(visit, h)
  {
    if h != [] {
      PrefixIteratorHasNoStrays(visit, h[..|h| - 1]);
    }
  }
}
