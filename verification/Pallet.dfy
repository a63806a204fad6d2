/** Types of the pallet shared by both build modes, and the runtime's extrinsic helpers. */
module PalletTypes {
  import opened Types
  import opened Sequences

  const MAX_AUTHORITIES := 32

  type ProofsMap = m: map<Public, Signature> | |m| <= MAX_AUTHORITIES

  datatype Extrinsic =
    | ValidateEvent(eventId: EventId, proofs: Option<ProofsMap>)
    | OtherCall(payload: Bytes)

  datatype PalletError =
    | AlreadyValidated
    | InvalidProof
    | NoProofs
    | NotEnoughProofs
    | UnrecognizedAuthority

  datatype Dispatch<+T> = Done(state: T) | Failed(error: PalletError)

  datatype Source = Local | InBlock | External

  datatype Validity = Valid | InvalidCall | Stale

  /** Unsigned validation, given whether the event is already recorded. */
  function ValidateUnsigned(recorded: bool, source: Source, x: Extrinsic): Validity {
    if source != Local && source != InBlock then InvalidCall
    else if !x.ValidateEvent? then InvalidCall
    else if recorded then Stale
    else Valid
  }

  /** The event ids of the direct `validate_event` calls, in order. */
  function ExtrinsicIds(body: seq<Extrinsic>): seq<EventId> {
    if body == [] then []
    else
      var ids := ExtrinsicIds(body[..|body| - 1]);
      if body[|body| - 1].ValidateEvent? then ids + [body[|body| - 1].eventId] else ids
  }

  /** Which extrinsics are direct calls. */
  function CallMarks(body: seq<Extrinsic>): (marks: seq<bool>)
    ensures |marks| == |body| && forall i | 0 <= i < |body| :: marks[i] <==> body[i].ValidateEvent?
  {
    seq(|body|, i requires 0 <= i < |body| => body[i].ValidateEvent?)
  }

  ghost predicate IdsAt(body: seq<Extrinsic>, pos: seq<int>, ids: seq<EventId>) {
    && |ids| == |pos|
    && forall j {:trigger pos[j]} | 0 <= j < |pos| ::
         0 <= pos[j] < |body| && body[pos[j]].ValidateEvent? && ids[j] == body[pos[j]].eventId
  }

  /** The ids are those of the body's direct calls, as often and in the order they occur. */
  ghost predicate NamesCalls(body: seq<Extrinsic>, ids: seq<EventId>) {
    exists pos: seq<int> :: Marked(CallMarks(body), pos) && IdsAt(body, pos, ids)
  }

  lemma IdsAtNext(body: seq<Extrinsic>, pos: seq<int>, ids: seq<EventId>, x: Extrinsic)
    requires IdsAt(body, pos, ids)
    ensures if x.ValidateEvent? then IdsAt(body + [x], pos + [|body|], ids + [x.eventId])
            else IdsAt(body + [x], pos, ids)
  {}

  lemma {:induction false} CallsInOrder(body: seq<Extrinsic>) returns (pos: seq<int>)
    ensures Marked(CallMarks(body), pos) && IdsAt(body, pos, ExtrinsicIds(body))
  {
    if body == [] {
      pos := [];
    } else {
      var init, last := body[..|body| - 1], body[|body| - 1];
      assert body == init + [last] && CallMarks(body) == CallMarks(init) + [last.ValidateEvent?];
      pos := CallsInOrder(init);
      MarkedNext(CallMarks(init), pos, last.ValidateEvent?);
      IdsAtNext(init, pos, ExtrinsicIds(init), last);
      pos := if last.ValidateEvent? then pos + [|init|] else pos;
    }
  }

  lemma ExtrinsicIdsInOrder(body: seq<Extrinsic>)
    ensures NamesCalls(body, ExtrinsicIds(body))
  {
    var pos := CallsInOrder(body);
  }

  method GetExtrinsicIds(body: seq<Extrinsic>) returns (ids: seq<EventId>)
    ensures ids == ExtrinsicIds(body)
    ensures NamesCalls(body, ids)
  {
    ids := [];
    for i := 0 to |body|
      invariant ids == ExtrinsicIds(body[..i])
    {
      assert body[..i + 1][..i] == body[..i];
      if body[i].ValidateEvent? {
        ids := ids + [body[i].eventId];
      }
    }
    assert body[..|body|] == body;
    ExtrinsicIdsInOrder(body);
  }

  lemma {:induction false} ExtrinsicIdsExact(body: seq<Extrinsic>, e: EventId)
    ensures e in ExtrinsicIds(body) <==>
            exists i :: 0 <= i < |body| && body[i].ValidateEvent? && body[i].eventId == e
  {
    if body != [] {
      var init := body[..|body| - 1];
      ExtrinsicIdsExact(init, e);
    }
  }

  /** Builds the unsigned extrinsic; a proof map over the bound is silently dropped. */
  function CreateUnsignedExtrinsic(e: EventId, proofs: Option<map<Public, Signature>>): Extrinsic {
    ValidateEvent(e, if proofs.Some? && |proofs.value| <= MAX_AUTHORITIES then Some(proofs.value) else None)
  }
}

/** The pallet built with off-chain proofs: event -> block number. */
module OffChainPallet {
  import opened Types
  import opened Sequences
  import opened PalletTypes

  type Streams = map<EventId, nat>

  class Pallet {
    var streams: Streams
    var deposited: seq<EventId>

    constructor ()
      ensures streams == map[] && deposited == []
    {
      streams, deposited := map[], [];
    }

    method ValidateEvent(block: nat, e: EventId) returns (r: Dispatch<()>)
      modifies this
      ensures r.Failed? <==> e in old(streams)
      ensures r.Failed? ==> r.error == AlreadyValidated && streams == old(streams) && deposited == old(deposited)
      ensures r.Done? ==> streams == old(streams)[e := block] && deposited == old(deposited) + [e]
      ensures (streams, deposited) == Record(old(streams), old(deposited), block, e)
    {
      if e in streams {
        return Failed(AlreadyValidated);
      }
      streams := streams[e := block];
      deposited := deposited + [e];
      r := Done(());
    }
  }

  /** A dispatch that fails leaves everything as it was. */
  function Record(streams: Streams, deposited: seq<EventId>, block: nat, e: EventId): (Streams, seq<EventId>) {
    if e in streams then (streams, deposited) else (streams[e := block], deposited + [e])
  }

  /** The calls of one block, as event ids in order. */
  datatype Block = Block(number: nat, calls: seq<EventId>)

  function ExecuteCalls(streams: Streams, number: nat, calls: seq<EventId>): (Streams, seq<EventId>) {
    if calls == [] then (streams, [])
    else
      var (s, d) := ExecuteCalls(streams, number, calls[..|calls| - 1]);
      Record(s, d, number, calls[|calls| - 1])
  }

  function StreamsAfter(blocks: seq<Block>): Streams {
    if blocks == [] then map[]
    else
      var last := blocks[|blocks| - 1];
      ExecuteCalls(StreamsAfter(blocks[..|blocks| - 1]), last.number, last.calls).0
  }

  /** The ids deposited while executing the i-th block. */
  function Deposited(blocks: seq<Block>, i: nat): seq<EventId>
    requires i < |blocks|
  {
    ExecuteCalls(StreamsAfter(blocks[..i]), blocks[i].number, blocks[i].calls).1
  }

  function AllEvents(streams: Streams): set<EventId> {
    streams.Keys
  }

  function BlockEvents(streams: Streams, number: nat): set<EventId> {
    set e | e in streams && streams[e] == number
  }

  ghost predicate Increasing(blocks: seq<Block>) {
    forall i, j :: 0 <= i < j < |blocks| ==> blocks[i].number < blocks[j].number
  }

  /** A block adds exactly the new ids it names, at its own number, and deposits each of them once. */
  lemma {:induction false} ExecuteExact(streams: Streams, number: nat, calls: seq<EventId>, e: EventId)
    ensures var (s, d) := ExecuteCalls(streams, number, calls);
            && Lookup(s, e) == (if e in streams then Some(streams[e]) else if e in calls then Some(number) else None)
            && multiset(d)[e] == if e in calls && e !in streams then 1 else 0
  {
    if calls != [] {
      ExecuteExact(streams, number, calls[..|calls| - 1], e);
    }
  }

  /** Which calls name an event for the first time. */
  function FirstMarks(streams: Streams, calls: seq<EventId>): (marks: seq<bool>)
    ensures |marks| == |calls|
  {
    if calls == [] then []
    else
      var init, e := calls[..|calls| - 1], calls[|calls| - 1];
      FirstMarks(streams, init) + [e !in streams && e !in init]
  }

  lemma {:induction false} FirstMarksExact(streams: Streams, calls: seq<EventId>, i: nat)
    requires i < |calls|
    ensures FirstMarks(streams, calls)[i] <==> calls[i] !in streams && calls[i] !in calls[..i]
  {
    var init := calls[..|calls| - 1];
    if i < |init| {
      FirstMarksExact(streams, init, i);
      assert init[..i] == calls[..i];
    }
  }

  lemma {:induction false} DepositPositions(streams: Streams, number: nat, calls: seq<EventId>) returns (pos: seq<int>)
    ensures Marked(FirstMarks(streams, calls), pos)
    ensures ElementsAt(calls, pos, ExecuteCalls(streams, number, calls).1)
  {
    if calls == [] {
      pos := [];
    } else {
      var init, e := calls[..|calls| - 1], calls[|calls| - 1];
      pos := DepositPositions(streams, number, init);
      ExecuteExact(streams, number, init, e);
      pos := PicksNext(init, FirstMarks(streams, init), pos, ExecuteCalls(streams, number, init).1, e,
                       e !in streams && e !in init);
      assert calls == init + [e];
    }
  }

  /** A block deposits the events it is the first to name, in the order it names them. */
  lemma DepositsInOrder(blocks: seq<Block>, i: nat)
    requires i < |blocks|
    ensures var before, calls := StreamsAfter(blocks[..i]), blocks[i].calls;
            && Picks(calls, FirstMarks(before, calls), Deposited(blocks, i))
            && forall j | 0 <= j < |calls| :: FirstMarks(before, calls)[j] <==> calls[j] !in before && calls[j] !in calls[..j]
  {
    var before, calls := StreamsAfter(blocks[..i]), blocks[i].calls;
    var pos := DepositPositions(before, blocks[i].number, calls);
    forall j | 0 <= j < |calls|
      ensures FirstMarks(before, calls)[j] <==> calls[j] !in before && calls[j] !in calls[..j]
    {
      FirstMarksExact(before, calls, j);
    }
  }

  lemma StreamsExact(blocks: seq<Block>, e: EventId)
    requires blocks != []
    ensures var before, last := StreamsAfter(blocks[..|blocks| - 1]), blocks[|blocks| - 1];
            Lookup(StreamsAfter(blocks), e) ==
            if e in before then Some(before[e]) else if e in last.calls then Some(last.number) else None
  {
    var last := blocks[|blocks| - 1];
    ExecuteExact(StreamsAfter(blocks[..|blocks| - 1]), last.number, last.calls, e);
  }

  /** Some executed block names the event. */
  ghost predicate Named(blocks: seq<Block>, e: EventId) {
    exists i :: 0 <= i < |blocks| && e in blocks[i].calls
  }

  lemma {:induction false} RecordedIffNamed(blocks: seq<Block>, e: EventId)
    ensures e in StreamsAfter(blocks) <==> Named(blocks, e)
  {
    if blocks != [] {
      var init := blocks[..|blocks| - 1];
      RecordedIffNamed(init, e);
      StreamsExact(blocks, e);
    }
  }

  /** The i-th block is the one recorded for the event. */
  ghost predicate RecordedAt(blocks: seq<Block>, i: int, e: EventId) {
    && 0 <= i < |blocks|
    && Lookup(StreamsAfter(blocks), e) == Some(blocks[i].number)
    && e in blocks[i].calls
    && e !in StreamsAfter(blocks[..i])
  }

  /** Every recorded number is that of an executed block naming the event for the first time. */
  lemma {:induction false} NumbersExecuted(blocks: seq<Block>, e: EventId)
    requires e in StreamsAfter(blocks)
    ensures exists i :: RecordedAt(blocks, i, e)
  {
    var n := |blocks| - 1;
    StreamsExact(blocks, e);
    if e in StreamsAfter(blocks[..n]) {
      NumbersExecuted(blocks[..n], e);
      var i :| RecordedAt(blocks[..n], i, e);
      assert blocks[..n][..i] == blocks[..i];
      assert RecordedAt(blocks, i, e);
    } else {
      assert RecordedAt(blocks, n, e);
    }
  }

  /** Executing later blocks never changes what a past block recorded. */
  lemma {:induction false} PastFixed(blocks: seq<Block>, i: nat, e: EventId)
    requires Increasing(blocks) && i < |blocks|
    ensures Lookup(StreamsAfter(blocks), e) == Some(blocks[i].number) <==>
            Lookup(StreamsAfter(blocks[..i + 1]), e) == Some(blocks[i].number)
    decreases |blocks|
  {
    if i + 1 < |blocks| {
      var init := blocks[..|blocks| - 1];
      PastFixed(init, i, e);
      assert init[..i + 1] == blocks[..i + 1];
      StreamsExact(blocks, e);
    } else {
      assert blocks[..i + 1] == blocks;
    }
  }

  lemma DepositExact(blocks: seq<Block>, i: nat, e: EventId)
    requires Increasing(blocks) && i < |blocks|
    ensures multiset(Deposited(blocks, i))[e] ==
            if Lookup(StreamsAfter(blocks), e) == Some(blocks[i].number) then 1 else 0
  {
    PastFixed(blocks, i, e);
    ExecuteExact(StreamsAfter(blocks[..i]), blocks[i].number, blocks[i].calls, e);
    assert blocks[..i + 1][..i] == blocks[..i];
    StreamsExact(blocks[..i + 1], e);
    EarlierNumbers(blocks, i, e);
  }

  /** What is recorded before a block has a smaller number. */
  lemma EarlierNumbers(blocks: seq<Block>, i: nat, e: EventId)
    requires Increasing(blocks) && i < |blocks|
    ensures e in StreamsAfter(blocks[..i]) ==> StreamsAfter(blocks[..i])[e] < blocks[i].number
  {
    if e in StreamsAfter(blocks[..i]) {
      NumbersExecuted(blocks[..i], e);
      var j :| RecordedAt(blocks[..i], j, e);
      assert blocks[j].number < blocks[i].number;
    }
  }

  /** The events of a block are, whatever is executed later, exactly the ids it deposited, each once. */
  lemma BlockEventsAreDeposits(blocks: seq<Block>, i: nat)
    requires Increasing(blocks) && i < |blocks|
    ensures BlockEvents(StreamsAfter(blocks), blocks[i].number) == set e | e in Deposited(blocks, i)
    ensures forall e | e in Deposited(blocks, i) :: multiset(Deposited(blocks, i))[e] == 1
    ensures BlockEvents(StreamsAfter(blocks[..i + 1]), blocks[i].number) ==
            BlockEvents(StreamsAfter(blocks), blocks[i].number)
  {
    forall e
      ensures e in Deposited(blocks, i) <==> Lookup(StreamsAfter(blocks), e) == Some(blocks[i].number)
      ensures e in Deposited(blocks, i) ==> multiset(Deposited(blocks, i))[e] == 1
      ensures Lookup(StreamsAfter(blocks), e) == Some(blocks[i].number) <==>
              Lookup(StreamsAfter(blocks[..i + 1]), e) == Some(blocks[i].number)
    {
      DepositExact(blocks, i, e);
      PastFixed(blocks, i, e);
    }
  }

  /**
    Over every run with increasing block numbers, the per-block event sets partition the set of
    all events: they cover it, and those of different blocks are disjoint.
   */
  lemma BlocksPartitionEvents(blocks: seq<Block>)
    requires Increasing(blocks)
    ensures forall e :: e in AllEvents(StreamsAfter(blocks)) <==>
              exists i :: 0 <= i < |blocks| && e in BlockEvents(StreamsAfter(blocks), blocks[i].number)
    ensures forall i, j :: 0 <= i < j < |blocks| ==>
              BlockEvents(StreamsAfter(blocks), blocks[i].number) !! BlockEvents(StreamsAfter(blocks), blocks[j].number)
  {
    var s := StreamsAfter(blocks);
    forall e | e in s
      ensures exists i :: 0 <= i < |blocks| && e in BlockEvents(s, blocks[i].number)
    {
      NumbersExecuted(blocks, e);
    }
  }

  /**
    After every run, validation refuses external submissions and other calls outright; any other
    call is stale exactly when an executed block named its event, which is exactly when dispatch
    would fail.
   */
  lemma StaleIffDispatchFails(blocks: seq<Block>, deposited: seq<EventId>, number: nat, source: Source, x: Extrinsic)
    ensures var streams := StreamsAfter(blocks);
            var validity := ValidateUnsigned(x.ValidateEvent? && x.eventId in streams, source, x);
            && (validity == InvalidCall <==> source == External || !x.ValidateEvent?)
            && (validity != InvalidCall ==>
                  && (validity == Stale <==> Named(blocks, x.eventId))
                  && (validity == Stale <==> Record(streams, deposited, number, x.eventId) == (streams, deposited)))
  {
    if x.ValidateEvent? {
      RecordedIffNamed(blocks, x.eventId);
    }
  }
}

/** The pallet built with on-chain proofs: event -> proof map, checked again by quorum. */
module OnChainPallet {
  import opened Types
  import opened Quorum
  import opened PalletTypes

  type OnStreams = map<EventId, ProofsMap>

  /** What dispatch checks, apart from the order of the checks. */
  ghost predicate Acceptable(verify: Verifier, authorities: seq<Public>, streams: OnStreams, e: EventId,
                             proofs: Option<ProofsMap>) {
    && proofs.Some?
    && e !in streams
    && (forall k | k in proofs.value :: k in authorities && verify(k, e, proofs.value[k]))
    && |proofs.value| >= Target(|authorities|)
  }

  /** Which error a failing dispatch reports. */
  ghost predicate Reports(verify: Verifier, authorities: seq<Public>, streams: OnStreams, e: EventId,
                          proofs: Option<ProofsMap>, error: PalletError) {
    match error
    case NoProofs => proofs.None?
    case AlreadyValidated => proofs.Some? && e in streams
    case UnrecognizedAuthority =>
      proofs.Some? && e !in streams && exists k :: k in proofs.value && k !in authorities
    case InvalidProof =>
      && proofs.Some? && e !in streams
      && (forall k :: k in proofs.value ==> k in authorities)
      && exists k :: k in proofs.value && !verify(k, e, proofs.value[k])
    case NotEnoughProofs =>
      && proofs.Some? && e !in streams
      && (forall k | k in proofs.value :: k in authorities && verify(k, e, proofs.value[k]))
      && |proofs.value| < Target(|authorities|)
  }

  class Pallet {
    const verify: Verifier
    var streams: OnStreams
    var deposited: seq<EventId>

    constructor (verify: Verifier)
      ensures this.verify == verify && streams == map[] && deposited == []
    {
      this.verify := verify;
      streams, deposited := map[], [];
    }

    method ValidateEvent(authorities: seq<Public>, e: EventId, proofs: Option<ProofsMap>) returns (r: Dispatch<()>)
      modifies this
      ensures r.Done? <==> Acceptable(verify, authorities, old(streams), e, proofs)
      ensures Answers(verify, authorities, old(streams), e, proofs, r)
      ensures r.Done? ==> streams == old(streams)[e := proofs.value] && deposited == old(deposited) + [e]
      ensures r.Failed? ==> streams == old(streams) && deposited == old(deposited)
    {
      if proofs == None {
        return Failed(NoProofs);
      }
      if e in streams {
        return Failed(AlreadyValidated);
      }
      var checked := CheckAuthorities(authorities, proofs.value);
      if !checked {
        return Failed(UnrecognizedAuthority);
      }
      var target := Target(|authorities|);
      var count := CountVerified(e, proofs.value);
      if count == None {
        return Failed(InvalidProof);
      }
      if count.value < target {
        return Failed(NotEnoughProofs);
      }
      streams := streams[e := proofs.value];
      deposited := deposited + [e];
      r := Done(());
    }

    method CheckAuthorities(authorities: seq<Public>, proofs: ProofsMap) returns (ok: bool)
      ensures ok <==> forall k :: k in proofs ==> k in authorities
    {
      var rest := proofs.Keys;
      while rest != {}
        invariant rest <= proofs.Keys
        invariant forall k :: k in proofs && k !in rest ==> k in authorities
        decreases rest
      {
        var k :| k in rest;
        if k !in authorities {
          return false;
        }
        rest := rest - {k};
      }
      ok := true;
    }

    /** Verifies and counts the proofs one by one; none counts once one of them is bad. */
    method CountVerified(e: EventId, proofs: ProofsMap) returns (count: Option<nat>)
      ensures count.Some? <==> forall k | k in proofs :: verify(k, e, proofs[k])
      ensures count.Some? ==> count.value == |proofs|
    {
      var rest, n := proofs.Keys, 0;
      while rest != {}
        invariant rest <= proofs.Keys && n + |rest| == |proofs|
        invariant forall k | k in proofs && k !in rest :: verify(k, e, proofs[k])
        decreases rest
      {
        var k :| k in rest;
        if !verify(k, e, proofs[k]) {
          return None;
        }
        n := n + 1;
        rest := rest - {k};
      }
      count := Some(n);
    }
  }

  /** What dispatch answers. */
  ghost predicate Answers(verify: Verifier, authorities: seq<Public>, streams: OnStreams, e: EventId,
                          proofs: Option<ProofsMap>, r: Dispatch<()>) {
    if r.Done? then Acceptable(verify, authorities, streams, e, proofs)
    else Reports(verify, authorities, streams, e, proofs, r.error)
  }

  /** Every call has exactly one answer: the error conditions are disjoint and cover every refusal. */
  lemma OneAnswer(verify: Verifier, authorities: seq<Public>, streams: OnStreams, e: EventId, proofs: Option<ProofsMap>)
    ensures exists r :: Answers(verify, authorities, streams, e, proofs, r)
    ensures forall r1, r2 | Answers(verify, authorities, streams, e, proofs, r1)
                            && Answers(verify, authorities, streams, e, proofs, r2) :: r1 == r2
  {
    var r: Dispatch<()> :=
      if proofs.None? then Failed(NoProofs)
      else if e in streams then Failed(AlreadyValidated)
      else if exists k :: k in proofs.value && k !in authorities then Failed(UnrecognizedAuthority)
      else if exists k :: k in proofs.value && !verify(k, e, proofs.value[k]) then Failed(InvalidProof)
      else if |proofs.value| < Target(|authorities|) then Failed(NotEnoughProofs)
      else Done(());
    assert Answers(verify, authorities, streams, e, proofs, r);
    forall r' | Answers(verify, authorities, streams, e, proofs, r') ensures r' == r {
      match r' {
        case Done(()) =>
        case Failed(_) =>
      }
    }
  }

  datatype Call = Call(authorities: seq<Public>, eventId: EventId, proofs: Option<ProofsMap>)

  ghost function StreamsAfter(verify: Verifier, calls: seq<Call>): OnStreams {
    if calls == [] then map[]
    else
      var before, c := StreamsAfter(verify, calls[..|calls| - 1]), calls[|calls| - 1];
      if Acceptable(verify, c.authorities, before, c.eventId, c.proofs) then before[c.eventId := c.proofs.value]
      else before
  }

  ghost function DepositedAfter(verify: Verifier, calls: seq<Call>): seq<EventId> {
    if calls == [] then []
    else
      var init, c := calls[..|calls| - 1], calls[|calls| - 1];
      var before := DepositedAfter(verify, init);
      if Acceptable(verify, c.authorities, StreamsAfter(verify, init), c.eventId, c.proofs) then before + [c.eventId]
      else before
  }

  /** The i-th call of the run inserted the event. */
  ghost predicate InsertedBy(verify: Verifier, calls: seq<Call>, i: int, e: EventId) {
    && 0 <= i < |calls| && calls[i].eventId == e
    && Acceptable(verify, calls[i].authorities, StreamsAfter(verify, calls[..i]), e, calls[i].proofs)
  }

  /** Stored proof maps never change and are never removed. */
  lemma {:induction false} StreamsOnlyGrow(verify: Verifier, calls: seq<Call>, i: nat, e: EventId)
    requires i <= |calls| && e in StreamsAfter(verify, calls[..i])
    ensures e in StreamsAfter(verify, calls)
    ensures StreamsAfter(verify, calls)[e] == StreamsAfter(verify, calls[..i])[e]
    decreases |calls|
  {
    if i == |calls| {
      assert calls[..i] == calls;
    } else {
      var init := calls[..|calls| - 1];
      assert init[..i] == calls[..i];
      StreamsOnlyGrow(verify, init, i, e);
    }
  }

  /** An inserting call determines what is stored from then on. */
  lemma InsertionLasts(verify: Verifier, calls: seq<Call>, i: nat, e: EventId)
    requires InsertedBy(verify, calls, i, e)
    ensures Lookup(StreamsAfter(verify, calls), e) == calls[i].proofs
  {
    assert calls[..i + 1][..i] == calls[..i];
    StreamsOnlyGrow(verify, calls, i + 1, e);
  }

  lemma {:induction false} StoredWasInserted(verify: Verifier, calls: seq<Call>, e: EventId) returns (i: nat)
    requires e in StreamsAfter(verify, calls)
    ensures InsertedBy(verify, calls, i, e)
  {
    var n := |calls| - 1;
    if e in StreamsAfter(verify, calls[..n]) {
      i := StoredWasInserted(verify, calls[..n], e);
      assert calls[..n][..i] == calls[..i];
    } else {
      i := n;
    }
  }

  lemma {:induction false} DepositedOnce(verify: Verifier, calls: seq<Call>, e: EventId)
    ensures multiset(DepositedAfter(verify, calls))[e] == if e in StreamsAfter(verify, calls) then 1 else 0
  {
    if calls != [] {
      DepositedOnce(verify, calls[..|calls| - 1], e);
    }
  }

  /**
    Over every run of calls under changing authority lists, an event is stored exactly when some
    call inserted it. The inserting call is unique, its proof map is the stored one, and the event
    was deposited exactly once.
   */
  lemma StoredOnce(verify: Verifier, calls: seq<Call>, e: EventId)
    ensures e in StreamsAfter(verify, calls) <==> exists i :: InsertedBy(verify, calls, i, e)
    ensures forall i | InsertedBy(verify, calls, i, e) :: Lookup(StreamsAfter(verify, calls), e) == calls[i].proofs
    ensures forall i, j :: InsertedBy(verify, calls, i, e) && InsertedBy(verify, calls, j, e) ==> i == j
    ensures multiset(DepositedAfter(verify, calls))[e] == if e in StreamsAfter(verify, calls) then 1 else 0
  {
    DepositedOnce(verify, calls, e);
    if e in StreamsAfter(verify, calls) {
      var i := StoredWasInserted(verify, calls, e);
    }
    forall i | InsertedBy(verify, calls, i, e) ensures Lookup(StreamsAfter(verify, calls), e) == calls[i].proofs {
      InsertionLasts(verify, calls, i, e);
    }
    forall i, j | InsertedBy(verify, calls, i, e) && InsertedBy(verify, calls, j, e) ensures i >= j {
      if i < j {
        assert calls[..j][..i] == calls[..i];
        InsertionLasts(verify, calls[..j], i, e);
      }
    }
  }

  /**
    After every run, a local or in-block call is stale exactly when some call inserted its event;
    external ones are refused. Unlike off-chain, dispatch also fails calls that are not stale:
    staleness and failure agree exactly on recorded events and acceptable calls.
   */
  lemma StaleVersusDispatch(verify: Verifier, calls: seq<Call>, source: Source, x: Extrinsic,
                            authorities: seq<Public>, r: Dispatch<()>)
    requires x.ValidateEvent?
    requires Answers(verify, authorities, StreamsAfter(verify, calls), x.eventId, x.proofs, r)
    ensures var streams := StreamsAfter(verify, calls);
            var validity := ValidateUnsigned(x.eventId in streams, source, x);
            var stale := x.eventId in streams;
            && (validity == if source == External then InvalidCall else if stale then Stale else Valid)
            && (stale <==> exists i :: InsertedBy(verify, calls, i, x.eventId))
            && (stale ==> r == Failed(if x.proofs.None? then NoProofs else AlreadyValidated))
            && (!stale ==> r != Failed(AlreadyValidated))
            && ((stale <==> r.Failed?) <==> stale || Acceptable(verify, authorities, streams, x.eventId, x.proofs))
  {
    StoredOnce(verify, calls, x.eventId);
  }

  /**
    Every stored proof map carries a quorum: at least floor(2n/3)+1 distinct keys, all among the
    n authorities at insertion and all verifying the event.
   */
  lemma StoredProofsAreQuorums(verify: Verifier, calls: seq<Call>, e: EventId)
    requires e in StreamsAfter(verify, calls)
    requires forall c | c in calls :: |c.authorities| <= CAST_LIMIT
    ensures exists i ::
              && InsertedBy(verify, calls, i, e)
              && var m, auths := StreamsAfter(verify, calls)[e], calls[i].authorities;
                 && |m.Keys| >= Threshold(|auths|)
                 && forall k | k in m :: k in auths && verify(k, e, m[k])
  {
    StoredOnce(verify, calls, e);
    var i :| InsertedBy(verify, calls, i, e);
    TargetCastExact(|calls[i].authorities|);
  }
}
