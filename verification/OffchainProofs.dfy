/** The store over off-chain storage: byte keys and values, and compare-and-set loops. */
module OffchainProofs {
  import opened Types
  import opened Sequences
  import opened KeyLayout
  import opened ProofStore

  /** Serialization of signer lists; deserialization may fail on foreign bytes. */
  datatype ListCodec = ListCodec(
    encode: seq<PublicPair> -> Bytes,
    decode: Bytes -> Option<seq<PublicPair>>
  )

  ghost predicate Lossless(codec: ListCodec) {
    forall l :: codec.decode(codec.encode(l)) == Some(l)
  }

  type Data = map<Bytes, Bytes>

  function ReadSigners(codec: ListCodec, data: Data, e: EventId): Option<seq<PublicPair>> {
    if IndexKey(e) in data then codec.decode(data[IndexKey(e)]) else Some([])
  }

  /** The bytes hold exactly the contents of the typed store. */
  ghost predicate Represents(codec: ListCodec, data: Data, st: Store) {
    && (forall e: EventId, k: PublicPair :: Lookup(data, SigKey(e, k)) == Lookup(st.sigs, (e, k)))
    && (forall e: EventId :: IndexKey(e) in data <==> e in st.index)
    && (forall e: EventId | e in st.index :: data[IndexKey(e)] == codec.encode(st.index[e]))
  }

  class OffchainStorage {
    var data: Data

    constructor ()
      ensures data == map[]
    {
      data := map[];
    }

    method Set(key: Bytes, value: Bytes)
      modifies this
      ensures data == old(data)[key := value]
    {
      data := data[key := value];
    }

    method Get(key: Bytes) returns (value: Option<Bytes>)
      ensures value == Lookup(data, key)
    {
      value := Lookup(data, key);
    }

    method Remove(key: Bytes)
      modifies this
      ensures data == old(data) - {key}
    {
      data := data - {key};
    }

    method CompareAndSet(key: Bytes, expected: Option<Bytes>, value: Bytes) returns (swapped: bool)
      modifies this
      ensures swapped <==> Lookup(old(data), key) == expected
      ensures data == if swapped then old(data)[key := value] else old(data)
    {
      swapped := Lookup(data, key) == expected;
      if swapped {
        data := data[key := value];
      }
    }
  }

  /** Effect of an add on the bytes; a corrupt index fails the call after the signature is stored. */
  function AddData(codec: ListCodec, data: Data, w: WitnessedEvent): (Data, Result<()>) {
    var stored := data[SigKey(w.eventId, w.pubKey) := w.signature];
    match ReadSigners(codec, stored, w.eventId)
    case None => (stored, Err(SerializationFailure))
    case Some(l) => (stored[IndexKey(w.eventId) := codec.encode(l + [w.pubKey])], Ok(()))
  }

  function WithoutStale(data: Data, e: EventId, listed: seq<PublicPair>, validators: seq<PublicPair>): Data {
    data - set k | k in listed && k !in validators :: SigKey(e, k)
  }

  /** Effect of a purge on the bytes; a corrupt index fails the call before anything changes. */
  function PurgeData(codec: ListCodec, data: Data, e: EventId, validators: seq<PublicPair>): (Data, Result<()>) {
    match ReadSigners(codec, data, e)
    case None => (data, Err(SerializationFailure))
    case Some(l) =>
      (WithoutStale(data, e, l, validators)[IndexKey(e) := codec.encode(Filter(l, validators))], Ok(()))
  }

  function ReadProofs(data: Data, e: EventId, validators: seq<PublicPair>): map<PublicPair, Bytes> {
    map k | k in validators && SigKey(e, k) in data :: data[SigKey(e, k)]
  }

  /** The listed validators with a stored signature. */
  function Present(data: Data, e: EventId, validators: seq<PublicPair>): set<PublicPair> {
    set k | k in validators && SigKey(e, k) in data
  }

  function ReadCount(data: Data, e: EventId, validators: seq<PublicPair>): nat {
    AsU16(CountIn(validators, Present(data, e, validators)))
  }

  lemma WithoutStaleKeepsIndex(data: Data, e: EventId, listed: seq<PublicPair>, validators: seq<PublicPair>, e': EventId)
    ensures Lookup(WithoutStale(data, e, listed, validators), IndexKey(e')) == Lookup(data, IndexKey(e'))
  {}

  lemma WithoutStaleAppend(data: Data, e: EventId, listed: seq<PublicPair>, k: PublicPair, validators: seq<PublicPair>)
    ensures WithoutStale(data, e, listed + [k], validators) ==
            if k in validators then WithoutStale(data, e, listed, validators)
            else WithoutStale(data, e, listed, validators) - {SigKey(e, k)}
  {}

  /** The signer list in the stored bytes; absent bytes read as an empty list. */
  function Listed(codec: ListCodec, existing: Option<Bytes>): (l: Option<seq<PublicPair>>)
    ensures existing == None ==> l == Some([])
    ensures existing.Some? ==> l == codec.decode(existing.value)
  {
    if existing.Some? then codec.decode(existing.value) else Some([])
  }

  /**
    A purge of a corrupt list fails and changes nothing. Otherwise it keeps the listed validators,
    as often and in the order they occur, deletes exactly the signatures of the other listed keys,
    and leaves all other bytes alone.
   */
  ghost predicate Purged(codec: ListCodec, before: Data, after: Data, e: EventId, validators: seq<PublicPair>,
                         r: Result<()>) {
    match Listed(codec, Lookup(before, IndexKey(e)))
    case None => r == Err(SerializationFailure) && after == before
    case Some(l) =>
      && r == Ok(())
      && (exists kept :: Picks(l, KeepMarks(l, validators), kept)
                         && Lookup(after, IndexKey(e)) == Some(codec.encode(kept)))
      && (forall k: PublicPair :: Lookup(after, SigKey(e, k)) ==
                                  if k in l && k !in validators then None else Lookup(before, SigKey(e, k)))
      && (forall b: Bytes | b != IndexKey(e) && (forall k: PublicPair :: b != SigKey(e, k)) ::
            Lookup(after, b) == Lookup(before, b))
  }

  lemma PurgeDataMeans(codec: ListCodec, data: Data, e: EventId, validators: seq<PublicPair>)
    ensures var (after, r) := PurgeData(codec, data, e, validators); Purged(codec, data, after, e, validators, r)
  {
    match ReadSigners(codec, data, e) {
      case None =>
      case Some(l) =>
        FilterInOrder(l, validators);
        var after := PurgeData(codec, data, e, validators).0;
        forall k: PublicPair
          ensures Lookup(after, SigKey(e, k)) ==
                  if k in l && k !in validators then None else Lookup(data, SigKey(e, k))
        {
          WithoutStaleSigs(data, e, l, validators, e, k);
          SigKeyInjective(e, k, e, k);
        }
    }
  }

  class OffchainStorageEventProofs {
    const storage: OffchainStorage
    const codec: ListCodec

    constructor (storage: OffchainStorage, codec: ListCodec)
      ensures this.storage == storage && this.codec == codec
    {
      this.storage, this.codec := storage, codec;
    }

    method AddEventProof(event: WitnessedEvent) returns (r: Result<()>)
      modifies storage
      ensures (storage.data, r) == AddData(codec, old(storage.data), event)
      ensures Lookup(storage.data, SigKey(event.eventId, event.pubKey)) == Some(event.signature)
      ensures forall b: Bytes | b != SigKey(event.eventId, event.pubKey) && b != IndexKey(event.eventId) ::
                Lookup(storage.data, b) == Lookup(old(storage.data), b)
      ensures var listed := Listed(codec, Lookup(old(storage.data), IndexKey(event.eventId)));
              && r == (if listed.Some? then Ok(()) else Err(SerializationFailure))
              && Lookup(storage.data, IndexKey(event.eventId)) ==
                 if listed.Some? then Some(codec.encode(listed.value + [event.pubKey]))
                 else Lookup(old(storage.data), IndexKey(event.eventId))
    {
      SigKeyInjective(event.eventId, event.pubKey, event.eventId, event.pubKey);
      storage.Set(SigKey(event.eventId, event.pubKey), event.signature);
      ghost var stored := storage.data;
      var swapped := false;
      while !swapped
        invariant storage.data == if swapped then AddData(codec, old(storage.data), event).0 else stored
        invariant swapped ==> AddData(codec, old(storage.data), event).1 == Ok(())
        decreases !swapped
      {
        var existing := storage.Get(IndexKey(event.eventId));
        var signers := match existing case None => Some([]) case Some(b) => codec.decode(b);
        if signers == None {
          return Err(SerializationFailure);
        }
        swapped := storage.CompareAndSet(IndexKey(event.eventId), existing,
                                         codec.encode(signers.value + [event.pubKey]));
      }
      r := Ok(());
    }

    function GetEventProofs(e: EventId, validators: seq<PublicPair>): map<PublicPair, Bytes>
      reads storage
    {
      ReadProofs(storage.data, e, validators)
    }

    function GetEventProofCount(e: EventId, validators: seq<PublicPair>): nat
      reads storage
    {
      ReadCount(storage.data, e, validators)
    }

    method PurgeEventStaleSignatures(e: EventId, validators: seq<PublicPair>) returns (r: Result<()>)
      modifies storage
      ensures (storage.data, r) == PurgeData(codec, old(storage.data), e, validators)
      ensures Purged(codec, old(storage.data), storage.data, e, validators, r)
    {
      var swapped := false;
      while !swapped
        invariant storage.data == if swapped then PurgeData(codec, old(storage.data), e, validators).0
                                  else old(storage.data)
        invariant swapped ==> PurgeData(codec, old(storage.data), e, validators).1 == Ok(())
        decreases !swapped
      {
        var existing := storage.Get(IndexKey(e));
        var signers := match existing case None => Some([]) case Some(b) => codec.decode(b);
        if signers == None {
          return Err(SerializationFailure);
        }
        var kept := RetainValidators(e, signers.value, validators);
        WithoutStaleKeepsIndex(old(storage.data), e, signers.value, validators, e);
        swapped := storage.CompareAndSet(IndexKey(e), existing, codec.encode(kept));
      }
      PurgeDataMeans(codec, old(storage.data), e, validators);
      r := Ok(());
    }

    /** The retain pass of a purge: keeps validators, deletes the signatures of all other listed keys. */
    method RetainValidators(e: EventId, listed: seq<PublicPair>, validators: seq<PublicPair>)
      returns (kept: seq<PublicPair>)
      modifies storage
      ensures kept == Filter(listed, validators)
      ensures storage.data == WithoutStale(old(storage.data), e, listed, validators)
    {
      kept := [];
      for i := 0 to |listed|
        invariant kept == Filter(listed[..i], validators)
        invariant storage.data == WithoutStale(old(storage.data), e, listed[..i], validators)
      {
        assert listed[..i + 1] == listed[..i] + [listed[i]];
        FilterAppend(listed[..i], listed[i], validators);
        WithoutStaleAppend(old(storage.data), e, listed[..i], listed[i], validators);
        if listed[i] !in validators {
          storage.Remove(SigKey(e, listed[i]));
        } else {
          kept := kept + [listed[i]];
        }
      }
      assert listed[..|listed|] == listed;
    }
  }

  /** Byte-level and typed adds agree. */
  lemma AddRefines(codec: ListCodec, data: Data, st: Store, w: WitnessedEvent)
    requires Lossless(codec) && Represents(codec, data, st)
    ensures AddData(codec, data, w).1 == Ok(())
    ensures Represents(codec, AddData(codec, data, w).0, AddProof(st, w))
  {
    var data', st' := AddData(codec, data, w).0, AddProof(st, w);
    forall e: EventId, k: PublicPair
      ensures Lookup(data', SigKey(e, k)) == Lookup(st'.sigs, (e, k))
    {
      SigKeyInjective(e, k, w.eventId, w.pubKey);
    }
  }

  lemma WithoutStaleSigs(data: Data, e: EventId, listed: seq<PublicPair>, validators: seq<PublicPair>,
                         e': EventId, k': PublicPair)
    ensures Lookup(WithoutStale(data, e, listed, validators), SigKey(e', k')) ==
            if (e', k') in Stale(listed, e, validators) then None else Lookup(data, SigKey(e', k'))
  {
    forall k ensures SigKey(e, k) == SigKey(e', k') <==> (e, k) == (e', k') {
      SigKeyInjective(e, k, e', k');
    }
  }

  /** Byte-level and typed purges agree. */
  lemma PurgeRefines(codec: ListCodec, data: Data, st: Store, e: EventId, validators: seq<PublicPair>)
    requires Lossless(codec) && Represents(codec, data, st)
    ensures PurgeData(codec, data, e, validators).1 == Ok(())
    ensures Represents(codec, PurgeData(codec, data, e, validators).0, PurgeStale(st, e, validators))
  {
    var data', st' := PurgeData(codec, data, e, validators).0, PurgeStale(st, e, validators);
    var l := SignerList(st, e);
    forall e': EventId, k': PublicPair
      ensures Lookup(data', SigKey(e', k')) == Lookup(st'.sigs, (e', k'))
    {
      WithoutStaleSigs(data, e, l, validators, e', k');
    }
  }

  /** Byte-level and typed reads agree. */
  lemma ReadsRefine(codec: ListCodec, data: Data, st: Store, e: EventId, validators: seq<PublicPair>)
    requires Represents(codec, data, st)
    ensures ReadProofs(data, e, validators) == Proofs(st, e, validators)
    ensures ReadCount(data, e, validators) == ProofCount(st, e, validators)
  {
    var present, stored := Present(data, e, validators), StoredSigners(st, e);
    assert CountIn(validators, present) == CountIn(validators, stored) by {
      forall k | k in validators ensures k in present <==> k in stored {
        assert Lookup(data, SigKey(e, k)) == Lookup(st.sigs, (e, k));
        StoredSignersContain(st, e, k);
      }
      CountInAgree(validators, present, stored);
    }
    assert ReadProofs(data, e, validators) == Proofs(st, e, validators) by {
      forall k | k in validators ensures Lookup(data, SigKey(e, k)) == Lookup(st.sigs, (e, k)) {}
    }
  }

  lemma {:induction false} CountInAgree<T>(s: seq<T>, a: set<T>, b: set<T>)
    requires forall x :: x in s ==> (x in a <==> x in b)
    ensures CountIn(s, a) == CountIn(s, b)
  {
    if s != [] {
      CountInAgree(s[..|s| - 1], a, b);
    }
  }

  /**
    A byte-level compare-and-set on an index succeeds exactly when the typed one does, and leaves
    corresponding stores.
   */
  lemma CompareAndSetRefines(codec: ListCodec, data: Data, st: Store, e: EventId,
                             expected: Option<seq<PublicPair>>, l: seq<PublicPair>)
    requires Lossless(codec) && Represents(codec, data, st)
    ensures Lookup(data, IndexKey(e)) == (if expected.Some? then Some(codec.encode(expected.value)) else None)
            <==> Lookup(st.index, e) == expected
    ensures Represents(codec, data[IndexKey(e) := codec.encode(l)], st.(index := st.index[e := l]))
  {}
}
