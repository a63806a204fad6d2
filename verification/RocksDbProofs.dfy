/** The RocksDB store: signature keys only, purged by iterating over the database. */
module RocksDbProofs {
  import opened Types
  import opened KeyLayout
  import opened OffchainProofs

  /** Every database key is a signature key. */
  ghost predicate WellLaidOut(db: Data) {
    forall b :: b in db ==> IsSigKey(b)
  }

  ghost predicate IsSigKey(b: Bytes) {
    exists e: EventId, k: PublicPair :: b == SigKey(e, k)
  }

  predicate HasPrefix(b: Bytes, e: EventId) {
    e <= b
  }

  /** The iterator yields database keys, among them every key with the event's prefix. */
  ghost predicate Visits(db: Data, e: EventId, visited: seq<Bytes>) {
    && (forall b :: b in visited ==> b in db)
    && (forall b :: b in db && HasPrefix(b, e) ==> b in visited)
  }

  /** The signer decoded from the bytes after the event id is not a validator. */
  predicate Unlisted(b: Bytes, validators: seq<PublicPair>)
    requires |b| >= 32
  {
    var k := DecodeKey(b[32..]);
    k.Some? && k.value !in validators
  }

  function StaleKeys(visited: seq<Bytes>, validators: seq<PublicPair>): set<Bytes>
    requires forall b :: b in visited ==> |b| >= 32
  {
    set b | b in visited && Unlisted(b, validators)
  }

  /** What visiting one more key deletes. */
  lemma VisitNext(db: Data, visited: seq<Bytes>, i: nat, validators: seq<PublicPair>)
    requires i < |visited| && forall v :: v in visited ==> |v| >= 32
    ensures db - StaleKeys(visited[..i + 1], validators) ==
            if Unlisted(visited[i], validators) then (db - StaleKeys(visited[..i], validators)) - {visited[i]}
            else db - StaleKeys(visited[..i], validators)
  {
    assert visited[..i + 1] == visited[..i] + [visited[i]];
  }

  /** The i-th visited key is the first that does not decode, and only stale keys before it are gone. */
  ghost predicate StoppedAt(visited: seq<Bytes>, validators: seq<PublicPair>, i: int, before: Data, after: Data)
    requires forall b :: b in visited ==> |b| >= 32
  {
    && 0 <= i < |visited|
    && DecodeKey(visited[i][32..]).None?
    && (forall j | 0 <= j < i :: DecodeKey(visited[j][32..]).Some?)
    && after == before - StaleKeys(visited[..i], validators)
  }

  class RocksDbEventProofs {
    var db: Data

    constructor ()
      ensures db == map[]
    {
      db := map[];
    }

    method AddEventProof(event: WitnessedEvent)
      modifies this
      ensures db == old(db)[SigKey(event.eventId, event.pubKey) := event.signature]
      ensures WellLaidOut(old(db)) ==> WellLaidOut(db)
    {
      assert IsSigKey(SigKey(event.eventId, event.pubKey));
      db := db[SigKey(event.eventId, event.pubKey) := event.signature];
    }

    /**
      Deletes the visited keys whose signer is not a validator, stopping with an error at the
      first key that does not decode.
     */
    method PurgeEventStaleSignatures(visited: seq<Bytes>, validators: seq<PublicPair>) returns (r: Result<()>)
      requires forall b :: b in visited ==> |b| >= 32
      modifies this
      ensures r == Ok(()) ==>
                && (forall b | b in visited :: DecodeKey(b[32..]).Some?)
                && db == old(db) - StaleKeys(visited, validators)
      ensures r != Ok(()) ==>
                r == Err(SerializationFailure) && exists i :: StoppedAt(visited, validators, i, old(db), db)
    {
      for i := 0 to |visited|
        invariant forall j | 0 <= j < i :: DecodeKey(visited[j][32..]).Some?
        invariant db == old(db) - StaleKeys(visited[..i], validators)
      {
        VisitNext(old(db), visited, i, validators);
        var k := DecodeKey(visited[i][32..]);
        if k == None {
          assert StoppedAt(visited, validators, i, old(db), db);
          return Err(SerializationFailure);
        }
        if k.value !in validators {
          db := db - {visited[i]};
        }
      }
      assert visited[..|visited|] == visited;
      r := Ok(());
    }
  }

  lemma VisitedDecode(db: Data, e: EventId, visited: seq<Bytes>)
    requires WellLaidOut(db) && Visits(db, e, visited)
    ensures forall b | b in visited :: |b| >= 32 && DecodeKey(b[32..]).Some?
  {
    forall b | b in visited ensures |b| >= 32 && DecodeKey(b[32..]).Some? {
      var e': EventId, k :| b == SigKey(e', k);
      SigKeyDecodes(e', k);
    }
  }

  /**
    On a database of signature keys no visited key fails to decode, a signature of any event is
    deleted exactly when it was visited and its signer is not a validator, and the purged event
    keeps exactly its validators' signatures.
   */
  lemma RocksPurgeExact(db: Data, e: EventId, visited: seq<Bytes>, validators: seq<PublicPair>,
                        e': EventId, k: PublicPair)
    requires WellLaidOut(db) && Visits(db, e, visited)
    ensures forall b | b in visited :: |b| >= 32 && DecodeKey(b[32..]).Some?
    ensures var after := Lookup(db - StaleKeys(visited, validators), SigKey(e', k));
            && after == (if SigKey(e', k) in visited && k !in validators then None else Lookup(db, SigKey(e', k)))
            && (e' == e ==> after == if k in validators then Lookup(db, SigKey(e', k)) else None)
  {
    VisitedDecode(db, e, visited);
    SigKeyDecodes(e', k);
  }
}
