/** The import gate: a block passes only if each of its events has enough stored signatures. */
module BlockImport {
  import opened Types
  import opened Sequences
  import opened Quorum
  import opened OffchainProofs
  import opened PalletTypes

  datatype Block = Block(parent: BlockHash, body: Option<seq<Extrinsic>>)

  /** The ids whose count is below the target, in order. */
  function Unwitnessed(ids: seq<EventId>, counts: map<EventId, nat>, target: nat): (r: seq<EventId>)
    requires forall e :: e in ids ==> e in counts
    ensures forall e :: e in r <==> e in ids && counts[e] < target
    ensures r == [] <==> forall e :: e in ids ==> counts[e] >= target
  {
    if ids == [] then []
    else
      var init, last := ids[..|ids| - 1], ids[|ids| - 1];
      assert ids == init + [last];
      Unwitnessed(init, counts, target) + if counts[last] < target then [last] else []
  }

  /** The stored counts of the given events under an authority list. */
  function Counts(data: Data, ids: seq<EventId>, authorities: seq<PublicPair>): map<EventId, nat> {
    map e | e in ids :: ReadCount(data, e, authorities)
  }

  /** Every id has reached the target in the stored counts. */
  predicate GateOpen(data: Data, ids: seq<EventId>, authorities: seq<PublicPair>) {
    forall e | e in ids :: ReadCount(data, e, authorities) >= Target(|authorities|)
  }

  /** Which ids are below the target in the stored counts. */
  function LowMarks(data: Data, ids: seq<EventId>, authorities: seq<PublicPair>): (marks: seq<bool>)
    ensures |marks| == |ids|
    ensures forall i | 0 <= i < |ids| :: marks[i] <==> ReadCount(data, ids[i], authorities) < Target(|authorities|)
  {
    seq(|ids|, i requires 0 <= i < |ids| => ReadCount(data, ids[i], authorities) < Target(|authorities|))
  }

  lemma {:induction false} UnwitnessedPositions(data: Data, ids: seq<EventId>, authorities: seq<PublicPair>,
                                                counts: map<EventId, nat>) returns (pos: seq<int>)
    requires forall e | e in ids :: e in counts && counts[e] == ReadCount(data, e, authorities)
    ensures Marked(LowMarks(data, ids, authorities), pos)
    ensures ElementsAt(ids, pos, Unwitnessed(ids, counts, Target(|authorities|)))
  {
    if ids == [] {
      pos := [];
    } else {
      var init, last, target := ids[..|ids| - 1], ids[|ids| - 1], Target(|authorities|);
      assert ids == init + [last];
      assert LowMarks(data, ids, authorities) == LowMarks(data, init, authorities) + [counts[last] < target];
      pos := UnwitnessedPositions(data, init, authorities, counts);
      pos := PicksNext(init, LowMarks(data, init, authorities), pos, Unwitnessed(init, counts, target), last,
                       counts[last] < target);
    }
  }

  /** The ids whose stored count is below the target, as often and in the order they were given. */
  method VerifyEventsValidity(authorities: Result<seq<PublicPair>>, proofs: OffchainStorageEventProofs, ids: seq<EventId>)
    returns (r: Result<seq<EventId>>)
    ensures authorities.Err? ==> r == Err(authorities.error)
    ensures authorities.Ok? ==>
              && r.Ok?
              && Picks(ids, LowMarks(proofs.storage.data, ids, authorities.value), r.value)
              && (r.value == [] <==> GateOpen(proofs.storage.data, ids, authorities.value))
  {
    if authorities.Err? {
      return Err(authorities.error);
    }
    var target := Target(|authorities.value|);
    ghost var counts := Counts(proofs.storage.data, ids, authorities.value);
    var unprepared: seq<EventId> := [];
    for i := 0 to |ids|
      invariant unprepared == Unwitnessed(ids[..i], counts, target)
    {
      assert ids[..i + 1][..i] == ids[..i];
      var count := proofs.GetEventProofCount(ids[i], authorities.value);
      if count < target {
        unprepared := unprepared + [ids[i]];
      }
    }
    assert ids[..|ids|] == ids;
    ghost var pos := UnwitnessedPositions(proofs.storage.data, ids, authorities.value, counts);
    r := Ok(unprepared);
  }

  datatype ImportOutcome = Forwarded | Rejected | ImportError(error: Error)

  /**
    Whether a block reaches the wrapped import. `ids` is the runtime's answer for the body, which
    defaults to no ids when the call fails. A block with a body passes a node that is not syncing
    exactly when the authority list is available and every id has reached the target.
   */
  method ImportBlock(syncing: bool, block: Block, ids: Option<seq<EventId>>, authorities: Result<seq<PublicPair>>,
                     proofs: OffchainStorageEventProofs) returns (r: ImportOutcome)
    ensures syncing || block.body.None? ==> r == Forwarded
    ensures !syncing && block.body.Some? && authorities.Err? ==> r == ImportError(authorities.error)
    ensures !syncing && block.body.Some? && authorities.Ok? ==>
              r == if GateOpen(proofs.storage.data, if ids.Some? then ids.value else [], authorities.value)
                   then Forwarded else Rejected
  {
    if syncing {
      return Forwarded;
    }
    if block.body.Some? {
      var extrinsicIds := if ids.Some? then ids.value else [];
      var unwitnessed := VerifyEventsValidity(authorities, proofs, extrinsicIds);
      if unwitnessed.Err? {
        return ImportError(unwitnessed.error);
      }
      if |unwitnessed.value| > 0 {
        return Rejected;
      }
    }
    r := Forwarded;
  }
}
