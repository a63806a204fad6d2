/** Handling witnessed events one at a time: verify, add, purge, count, and maybe submit. */
module GossipHandler {
  import opened Types
  import opened Sequences
  import opened Quorum
  import opened Authorities
  import opened ProofStore
  import opened OffchainProofs
  import opened PalletTypes

  datatype Decision = Ignored(error: Error) | Kept | Submit(proofs: map<PublicPair, Bytes>)

  /** The effect of one message on the store, and whether the event is to be submitted. */
  function Handle(verify: Verifier, st: Store, authorities: seq<PublicPair>, w: WitnessedEvent): (Store, Decision) {
    match VerifyOrigin(verify, authorities, w)
    case Err(error) => (st, Ignored(error))
    case Ok(w) =>
      var st' := PurgeStale(AddProof(st, w), w.eventId, authorities);
      (st',
       if ProofCount(st', w.eventId, authorities) >= Target(|authorities|)
       then Submit(Proofs(st', w.eventId, authorities)) else Kept)
  }

  /** Every stored signature verifies for its event and signer. */
  ghost predicate AllVerified(verify: Verifier, st: Store) {
    forall p :: p in st.sigs ==> Verifies(verify, WitnessedEvent(st.sigs[p], p.1, p.0))
  }

  lemma HandleKeeps(verify: Verifier, st: Store, authorities: seq<PublicPair>, w: WitnessedEvent)
    requires Indexed(st) && AllVerified(verify, st)
    ensures Indexed(Handle(verify, st, authorities, w).0)
    ensures AllVerified(verify, Handle(verify, st, authorities, w).0)
  {}

  /**
    A valid message adds its signer and then drops every signer of its event outside the list;
    other events keep their signers, and an invalid message changes nothing.
   */
  lemma HandleExact(verify: Verifier, st: Store, authorities: seq<PublicPair>, w: WitnessedEvent, e: EventId)
    requires Indexed(st)
    ensures StoredSigners(Handle(verify, st, authorities, w).0, e) ==
            if w.eventId == e && VerifyOrigin(verify, authorities, w).Ok?
            then (StoredSigners(st, e) + {w.pubKey}) * SetOf(authorities)
            else StoredSigners(st, e)
  {
    if VerifyOrigin(verify, authorities, w).Ok? {
      AddKeepsIndexed(st, w);
      AddedSigners(st, w, e);
      PurgedSigners(AddProof(st, w), w.eventId, authorities, e);
    }
  }

  /** The conversions to sr25519 types succeed. */
  ghost predicate Convertible(proofs: map<PublicPair, Bytes>) {
    forall k :: k in proofs ==> |k.raw| == 32 && |proofs[k]| == 64
  }

  /** Every converted entry comes from a proof with the same raw key, and every proof's raw key is there. */
  ghost predicate Converted(proofs: map<PublicPair, Bytes>, r: map<Public, Signature>) {
    && (forall k :: k in proofs ==> k.raw in r.Keys)
    && (forall p :: p in r ==> exists k :: k in proofs && k.raw == p && proofs[k] == r[p])
  }

  lemma ProofsConvertible(verify: Verifier, st: Store, e: EventId, authorities: seq<PublicPair>)
    requires AllVerified(verify, st)
    ensures Convertible(Proofs(st, e, authorities))
  {}

  datatype PoolAnswer = Accepted | AlreadyImported | StaleTransaction | Refused

  class EventGossipHandler {
    const proofs: OffchainStorageEventProofs
    const verify: Verifier
    const onChain: bool
    /** Extrinsics handed to the transaction pool, oldest first. */
    var submitted: seq<Extrinsic>
    ghost var store: Store

    ghost predicate Valid()
      reads this, proofs.storage
    {
      && Lossless(proofs.codec)
      && Represents(proofs.codec, proofs.storage.data, store)
      && Indexed(store) && AllVerified(verify, store)
    }

    constructor (proofs: OffchainStorageEventProofs, verify: Verifier, onChain: bool)
      requires proofs.storage.data == map[] && Lossless(proofs.codec)
      ensures Valid() && store == EMPTY && submitted == []
      ensures this.proofs == proofs && this.verify == verify && this.onChain == onChain
    {
      this.proofs, this.verify, this.onChain := proofs, verify, onChain;
      submitted, store := [], EMPTY;
    }

    /**
      One message. `authorities` is the finalized list, `created` whether the runtime built the
      extrinsic, `answer` what the pool replied.
     */
    method HandleWitnessedEvent(authorities: Result<seq<PublicPair>>, w: WitnessedEvent, created: bool,
                                answer: PoolAnswer) returns (r: Result<bool>)
      requires Valid()
      modifies this, proofs.storage
      ensures Valid()
      ensures authorities.Err? ==>
                r == Err(authorities.error) && store == old(store) && submitted == old(submitted)
      ensures authorities.Ok? ==>
                var (st, decision) := Handle(verify, old(store), authorities.value, w);
                && store == st
                && match decision
                   case Ignored(error) => r == Err(error) && submitted == old(submitted)
                   case Kept => r == Ok(true) && submitted == old(submitted)
                   case Submit(ps) =>
                     && r == (if created && answer != Refused then Ok(true) else Err(Other))
                     && Submitted(old(submitted), submitted, w.eventId, ps, created)
    {
      if authorities.Err? {
        return Err(authorities.error);
      }
      var auths := authorities.value;
      var verified := VerifyOrigin(verify, auths, w);
      if verified.Err? {
        return Err(verified.error);
      }
      StoreEvent(w, auths);
      r := SubmitIfWitnessed(w.eventId, auths, created, answer);
    }

    /** Counts the event's proofs, and submits it if they reach the target. */
    method SubmitIfWitnessed(e: EventId, auths: seq<PublicPair>, created: bool, answer: PoolAnswer)
      returns (r: Result<bool>)
      requires Valid()
      modifies this`submitted
      ensures Valid()
      ensures if ProofCount(store, e, auths) >= Target(|auths|) then
                && r == (if created && answer != Refused then Ok(true) else Err(Other))
                && Submitted(old(submitted), submitted, e, Proofs(store, e, auths), created)
              else r == Ok(true) && submitted == old(submitted)
    {
      ReadsRefine(proofs.codec, proofs.storage.data, store, e, auths);
      if proofs.GetEventProofCount(e, auths) >= Target(|auths|) {
        ProofsConvertible(verify, store, e, auths);
        var eventProofs := proofs.GetEventProofs(e, auths);
        var ok := SubmitEventExtrinsic(e, eventProofs, created, answer);
        r := if ok then Ok(true) else Err(Other);
      } else {
        r := Ok(true);
      }
    }

    /** Adds the proof, then purges the event's stale ones; neither call can fail on a valid store. */
    method StoreEvent(w: WitnessedEvent, auths: seq<PublicPair>)
      requires Valid() && VerifyOrigin(verify, auths, w).Ok?
      modifies this`store, proofs.storage
      ensures Valid()
      ensures store == PurgeStale(AddProof(old(store), w), w.eventId, auths)
    {
      HandleKeeps(verify, store, auths, w);
      AddRefines(proofs.codec, proofs.storage.data, store, w);
      var added := proofs.AddEventProof(w);
      store := AddProof(store, w);
      PurgeRefines(proofs.codec, proofs.storage.data, store, w.eventId, auths);
      var purged := proofs.PurgeEventStaleSignatures(w.eventId, auths);
      store := PurgeStale(store, w.eventId, auths);
      assert added == Ok(()) && purged == Ok(());
    }

    /** The submitted extrinsic carries the converted proofs if they fit the bound, or none off-chain. */
    ghost predicate SubmittedFor(e: EventId, ps: map<PublicPair, Bytes>, x: Extrinsic)
    {
      if onChain then
        exists r: map<Public, Signature> ::
          Converted(ps, r) && x == if |r| <= 32 then ValidateEvent(e, Some(r)) else ValidateEvent(e, None)
      else x == ValidateEvent(e, None)
    }

    /** One extrinsic for the event has been handed to the pool if the runtime created it. */
    ghost predicate Submitted(before: seq<Extrinsic>, after: seq<Extrinsic>, e: EventId, ps: map<PublicPair, Bytes>,
                              created: bool)
    {
      if created then |after| == |before| + 1 && before <= after && SubmittedFor(e, ps, after[|before|])
      else after == before
    }

    method SubmitEventExtrinsic(e: EventId, ps: map<PublicPair, Bytes>, created: bool, answer: PoolAnswer)
      returns (ok: bool)
      requires Convertible(ps)
      modifies this`submitted
      ensures ok <==> created && answer != Refused
      ensures Submitted(old(submitted), submitted, e, ps, created)
    {
      var x := CreateUnsignedExtrinsic(e, None);
      if onChain {
        var converted := ConvertProofs(ps);
        x := CreateUnsignedExtrinsic(e, Some(converted));
      }
      if !created {
        return false;
      }
      submitted := submitted + [x];
      ok := answer != Refused;
    }

    /** Converts entry by entry in an arbitrary order; proofs with equal raw keys overwrite one another. */
    method ConvertProofs(ps: map<PublicPair, Bytes>) returns (r: map<Public, Signature>)
      requires Convertible(ps)
      ensures Converted(ps, r)
    {
      r := map[];
      var rest := ps.Keys;
      while rest != {}
        invariant rest <= ps.Keys
        invariant forall k :: k in ps && k !in rest ==> k.raw in r.Keys
        invariant forall p :: p in r ==> exists k :: k in ps && k.raw == p && ps[k] == r[p]
        decreases rest
      {
        var k :| k in rest;
        r := r[k.raw := ps[k]];
        rest := rest - {k};
      }
    }
  }

  /** A message together with the finalized authority list it is handled under. */
  datatype Input = Input(authorities: seq<PublicPair>, w: WitnessedEvent)

  /** The store after a run, and the events a submission was tried for. */
  function RunHandler(verify: Verifier, inputs: seq<Input>): (Store, set<EventId>) {
    if inputs == [] then (EMPTY, {})
    else
      var (st, tried) := RunHandler(verify, inputs[..|inputs| - 1]);
      var last := inputs[|inputs| - 1];
      var (st', decision) := Handle(verify, st, last.authorities, last.w);
      (st', if decision.Submit? then tried + {last.w.eventId} else tried)
  }

  lemma {:induction false} RunKeeps(verify: Verifier, inputs: seq<Input>)
    ensures Indexed(RunHandler(verify, inputs).0)
    ensures AllVerified(verify, RunHandler(verify, inputs).0)
  {
    if inputs != [] {
      RunKeeps(verify, inputs[..|inputs| - 1]);
      var last := inputs[|inputs| - 1];
      HandleKeeps(verify, RunHandler(verify, inputs[..|inputs| - 1]).0, last.authorities, last.w);
    }
  }
}

/** With a fixed authority list, the outcome depends only on which valid messages arrive. */
module OrderIndependence {
  import opened Types
  import opened Sequences
  import opened Quorum
  import opened Authorities
  import opened ProofStore
  import opened GossipHandler

  ghost predicate FixedList(inputs: seq<Input>, authorities: seq<PublicPair>) {
    forall i :: i in inputs ==> i.authorities == authorities
  }

  /** Reference: the distinct authorities with a valid message for the event. */
  function ValidSigners(verify: Verifier, inputs: seq<Input>, e: EventId): set<PublicPair> {
    set i | i in inputs && i.w.eventId == e && VerifyOrigin(verify, i.authorities, i.w).Ok? :: i.w.pubKey
  }

  lemma ValidSignersLast(verify: Verifier, inputs: seq<Input>, e: EventId)
    requires inputs != []
    ensures var init, last := inputs[..|inputs| - 1], inputs[|inputs| - 1];
            ValidSigners(verify, inputs, e) ==
            ValidSigners(verify, init, e) +
            if last.w.eventId == e && VerifyOrigin(verify, last.authorities, last.w).Ok? then {last.w.pubKey} else {}
  {}

  lemma CountIsCardinality(st: Store, e: EventId, authorities: seq<PublicPair>)
    requires Distinct(authorities) && |authorities| <= 0xFFFF
    requires StoredSigners(st, e) <= SetOf(authorities)
    ensures ProofCount(st, e, authorities) == |StoredSigners(st, e)|
  {
    CountInDistinct(authorities, StoredSigners(st, e));
    assert SetOf(authorities) * StoredSigners(st, e) == StoredSigners(st, e);
    SmallU16(CountIn(authorities, StoredSigners(st, e)));
  }

  /** A message makes the handler submit exactly when it is valid and the stored signers reach the threshold. */
  lemma SubmitIffQuorum(verify: Verifier, st: Store, authorities: seq<PublicPair>, w: WitnessedEvent)
    requires Distinct(authorities) && |authorities| <= 0xFFFF
    requires StoredSigners(Handle(verify, st, authorities, w).0, w.eventId) <= SetOf(authorities)
    ensures var (st', decision) := Handle(verify, st, authorities, w);
            decision.Submit? <==>
            VerifyOrigin(verify, authorities, w).Ok? && |StoredSigners(st', w.eventId)| >= Threshold(|authorities|)
  {
    CountIsCardinality(Handle(verify, st, authorities, w).0, w.eventId, authorities);
    TargetCastExact(|authorities|);
  }

  /** For any fixed list, the stored signers of an event are exactly the authorities with a valid message. */
  lemma {:induction false} SignersAreValid(verify: Verifier, inputs: seq<Input>, authorities: seq<PublicPair>, e: EventId)
    requires FixedList(inputs, authorities)
    ensures StoredSigners(RunHandler(verify, inputs).0, e) == ValidSigners(verify, inputs, e) <= SetOf(authorities)
  {
    if inputs != [] {
      var init, last := inputs[..|inputs| - 1], inputs[|inputs| - 1];
      SignersAreValid(verify, init, authorities, e);
      RunKeeps(verify, init);
      ValidSignersLast(verify, inputs, e);
      HandleExact(verify, RunHandler(verify, init).0, authorities, last.w, e);
    }
  }

  predicate ValidFor(verify: Verifier, i: Input, e: EventId) {
    i.w.eventId == e && VerifyOrigin(verify, i.authorities, i.w).Ok?
  }

  /** The i-th input is a valid message of the signer, and every later valid one for the event lists the signer. */
  ghost predicate Survives(verify: Verifier, inputs: seq<Input>, e: EventId, k: PublicPair, i: int) {
    && 0 <= i < |inputs| && ValidFor(verify, inputs[i], e) && inputs[i].w.pubKey == k
    && forall j | i < j < |inputs| && ValidFor(verify, inputs[j], e) :: k in inputs[j].authorities
  }

  /** Reference: the signers whose message outlives all later purges, whatever lists they use. */
  ghost function Surviving(verify: Verifier, inputs: seq<Input>, e: EventId): set<PublicPair> {
    set i | 0 <= i < |inputs| && Survives(verify, inputs, e, inputs[i].w.pubKey, i) :: inputs[i].w.pubKey
  }

  lemma SurvivesNext(verify: Verifier, inputs: seq<Input>, e: EventId, k: PublicPair)
    requires inputs != []
    ensures var init, last := inputs[..|inputs| - 1], inputs[|inputs| - 1];
            (exists i :: Survives(verify, inputs, e, k, i)) <==>
            if ValidFor(verify, last, e)
            then k == last.w.pubKey || ((exists i :: Survives(verify, init, e, k, i)) && k in last.authorities)
            else exists i :: Survives(verify, init, e, k, i)
  {
    var n := |inputs| - 1;
    var init, last := inputs[..n], inputs[n];
    forall i | 0 <= i < n
      ensures Survives(verify, inputs, e, k, i) <==>
              Survives(verify, init, e, k, i) && (ValidFor(verify, last, e) ==> k in last.authorities)
    {
      assert forall j | i < j < n :: inputs[j] == init[j];
    }
    assert Survives(verify, inputs, e, k, n) <==> ValidFor(verify, last, e) && k == last.w.pubKey;
  }

  lemma {:induction false} StoredIffSurvives(verify: Verifier, inputs: seq<Input>, e: EventId, k: PublicPair)
    ensures k in StoredSigners(RunHandler(verify, inputs).0, e) <==> exists i :: Survives(verify, inputs, e, k, i)
  {
    if inputs != [] {
      var init, last := inputs[..|inputs| - 1], inputs[|inputs| - 1];
      StoredIffSurvives(verify, init, e, k);
      SurvivesNext(verify, inputs, e, k);
      RunKeeps(verify, init);
      HandleExact(verify, RunHandler(verify, init).0, last.authorities, last.w, e);
    }
  }

  /**
    Under authority lists that change from message to message, the stored signers of an event are
    exactly those with a valid message since which every valid message for the event was handled
    under a list with the signer.
   */
  lemma SignersAreSurviving(verify: Verifier, inputs: seq<Input>, e: EventId)
    ensures StoredSigners(RunHandler(verify, inputs).0, e) == Surviving(verify, inputs, e)
  {
    forall k ensures k in StoredSigners(RunHandler(verify, inputs).0, e) <==> k in Surviving(verify, inputs, e) {
      StoredIffSurvives(verify, inputs, e, k);
    }
  }

  /**
    The import gate over any duplicate-free list, once the inputs are handled under whatever lists:
    it opens for an event exactly when a threshold of its authorities survives.
   */
  lemma GateAfterHandling(verify: Verifier, inputs: seq<Input>, gate: seq<PublicPair>, e: EventId)
    requires Distinct(gate) && |gate| <= 0xFFFF
    ensures ProofCount(RunHandler(verify, inputs).0, e, gate) >= Target(|gate|) <==>
            |SetOf(gate) * Surviving(verify, inputs, e)| >= Threshold(|gate|)
  {
    SignersAreSurviving(verify, inputs, e);
    var stored := StoredSigners(RunHandler(verify, inputs).0, e);
    CountInDistinct(gate, stored);
    SmallU16(CountIn(gate, stored));
    TargetCastExact(|gate|);
  }

  /** Under one list, these are the members of both lists with a valid message. */
  lemma GateUnderOneList(verify: Verifier, inputs: seq<Input>, handled: seq<PublicPair>, gate: seq<PublicPair>, e: EventId)
    requires FixedList(inputs, handled) && Distinct(gate) && |gate| <= 0xFFFF
    ensures ProofCount(RunHandler(verify, inputs).0, e, gate) >= Target(|gate|) <==>
            |SetOf(gate) * ValidSigners(verify, inputs, e)| >= Threshold(|gate|)
    ensures SetOf(gate) * ValidSigners(verify, inputs, e) <= SetOf(gate) * SetOf(handled)
  {
    SignersAreValid(verify, inputs, handled, e);
    SignersAreSurviving(verify, inputs, e);
    GateAfterHandling(verify, inputs, gate, e);
  }

  /**
    Having a threshold of the gate's authorities sign is not enough: if every list the handler used
    is disjoint from the gate's list, the gate's count is 0 for every event, whatever was signed.
   */
  lemma DisjointListsShutTheGate(verify: Verifier, inputs: seq<Input>, gate: seq<PublicPair>, e: EventId)
    requires forall i, k | i in inputs && k in gate :: k !in i.authorities
    requires |gate| <= 0xFFFF
    ensures ProofCount(RunHandler(verify, inputs).0, e, gate) == 0 < Target(|gate|)
  {
    SignersAreSurviving(verify, inputs, e);
    CountInNone(gate, Surviving(verify, inputs, e));
    TargetCastExact(|gate|);
  }

  /**
    For a fixed duplicate-free authority list, the stored signers of an event are exactly the
    authorities with a valid message, and a submission has been tried exactly when they reach the
    threshold.
   */
  lemma {:induction false} OutcomeIsSetOfValidMessages(verify: Verifier, inputs: seq<Input>,
                                                       authorities: seq<PublicPair>, e: EventId)
    requires FixedList(inputs, authorities)
    requires Distinct(authorities) && |authorities| <= 0xFFFF
    ensures var (st, tried) := RunHandler(verify, inputs);
            && StoredSigners(st, e) == ValidSigners(verify, inputs, e) <= SetOf(authorities)
            && (e in tried <==> |ValidSigners(verify, inputs, e)| >= Threshold(|authorities|))
  {
    SignersAreValid(verify, inputs, authorities, e);
    if inputs != [] {
      var init, last := inputs[..|inputs| - 1], inputs[|inputs| - 1];
      OutcomeIsSetOfValidMessages(verify, init, authorities, e);
      ValidSignersLast(verify, inputs, e);
      SubsetCardinality(ValidSigners(verify, init, e), ValidSigners(verify, inputs, e));
      if last.w.eventId == e {
        SubmitIffQuorum(verify, RunHandler(verify, init).0, authorities, last.w);
      }
    }
  }

  /** Inputs that carry a valid message. */
  function ValidInputs(verify: Verifier, inputs: seq<Input>): set<Input> {
    set i | i in inputs && VerifyOrigin(verify, i.authorities, i.w).Ok?
  }

  /** Reordering, repeating or interleaving bad messages changes neither signers nor submissions. */
  lemma OrderDoesNotMatter(verify: Verifier, a: seq<Input>, b: seq<Input>, authorities: seq<PublicPair>, e: EventId)
    requires FixedList(a, authorities) && FixedList(b, authorities)
    requires Distinct(authorities) && |authorities| <= 0xFFFF
    requires ValidInputs(verify, a) == ValidInputs(verify, b)
    ensures StoredSigners(RunHandler(verify, a).0, e) == StoredSigners(RunHandler(verify, b).0, e)
    ensures e in RunHandler(verify, a).1 <==> e in RunHandler(verify, b).1
  {
    OutcomeIsSetOfValidMessages(verify, a, authorities, e);
    OutcomeIsSetOfValidMessages(verify, b, authorities, e);
    assert ValidSigners(verify, a, e) == ValidSigners(verify, b, e) by {
      assert ValidSigners(verify, b, e) == set i | i in ValidInputs(verify, b) && i.w.eventId == e :: i.w.pubKey;
    }
  }
}

/** The handler as one particular schedule of the concurrent store. */
module HandlerSchedule {
  import opened Types
  import opened Quorum
  import opened Authorities
  import opened ProofStore
  import opened GossipHandler
  import CS = ConcurrentStore

  /** An add, then a purge, then a count, each run to its end under its own id. */
  function Schedule(st: Store, authorities: seq<PublicPair>, w: WitnessedEvent, id: nat): seq<CS.Action> {
    Adding(w, id) + Purging(AddProof(st, w), authorities, w.eventId, id + 1) + Counting(authorities, w.eventId, id + 2)
  }

  function Adding(w: WitnessedEvent, id: nat): seq<CS.Action> {
    [CS.Spawn(id, CS.AddTask(w))] + CS.Runs(id, 3)
  }

  function Purging(st: Store, authorities: seq<PublicPair>, e: EventId, id: nat): seq<CS.Action> {
    [CS.Spawn(id, CS.PurgeTask(e, authorities))] + CS.Runs(id, |SignerList(st, e)| + 2) + [CS.Run(id)]
  }

  function Counting(authorities: seq<PublicPair>, e: EventId, id: nat): seq<CS.Action> {
    [CS.Spawn(id, CS.CountTask(e, authorities))] + CS.Runs(id, |authorities| + 1)
  }

  lemma SchedulePhases(s: CS.State, authorities: seq<PublicPair>, w: WitnessedEvent, id: nat)
    ensures CS.Resume(s, Schedule(s.store, authorities, w, id)) ==
            CS.Resume(CS.Resume(CS.Resume(s, Adding(w, id)),
                                Purging(AddProof(s.store, w), authorities, w.eventId, id + 1)),
                      Counting(authorities, w.eventId, id + 2))
  {
    CS.ResumeThree(s, Adding(w, id), Purging(AddProof(s.store, w), authorities, w.eventId, id + 1),
                   Counting(authorities, w.eventId, id + 2));
  }

  lemma StoringEnds(s: CS.State, authorities: seq<PublicPair>, w: WitnessedEvent, id: nat)
    requires id !in s.ops && id + 1 !in s.ops
    ensures CS.Resume(CS.Resume(s, Adding(w, id)), Purging(AddProof(s.store, w), authorities, w.eventId, id + 1)) ==
            CS.State(PurgeStale(AddProof(s.store, w), w.eventId, authorities),
                     s.ops[id := CS.Op(CS.AddTask(w), CS.Finished)]
                          [id + 1 := CS.Op(CS.PurgeTask(w.eventId, authorities), CS.Finished)])
  {
    CS.LoneAdd(s, id, w);
    CS.LonePurge(CS.Resume(s, Adding(w, id)), id + 1, CS.PurgeTask(w.eventId, authorities));
  }

  /**
    Handling a valid message is a schedule of the concurrent store: it ends in the store the
    handler specifies, and its count makes the handler's decision.
   */
  lemma HandlingIsASchedule(verify: Verifier, s: CS.State, authorities: seq<PublicPair>, w: WitnessedEvent, id: nat)
    requires VerifyOrigin(verify, authorities, w).Ok?
    requires id !in s.ops && id + 1 !in s.ops && id + 2 !in s.ops
    ensures var end := CS.Resume(s, Schedule(s.store, authorities, w, id));
            var (st, decision) := Handle(verify, s.store, authorities, w);
            && end.store == st
            && end.ops.Keys == s.ops.Keys + {id, id + 1, id + 2}
            && end.ops[id + 2].pc.Counted?
            && (decision.Submit? <==> AsU16(|end.ops[id + 2].pc.found|) >= Target(|authorities|))
  {
    SchedulePhases(s, authorities, w, id);
    StoringEnds(s, authorities, w, id);
    var s' := CS.Resume(CS.Resume(s, Adding(w, id)), Purging(AddProof(s.store, w), authorities, w.eventId, id + 1));
    var found := CS.LoneCount(s', id + 2, CS.CountTask(w.eventId, authorities));
  }
}

/** From the handler's decision to the pallet, in on-chain mode. */
module OnChainSubmission {
  import opened Types
  import opened Sequences
  import opened Quorum
  import opened ProofStore
  import opened PalletTypes
  import opened GossipHandler
  import OnChainPallet

  /** The node's list is the pallet's list under a single key type. */
  ghost predicate SameAuthorities(authorities: seq<PublicPair>, onChain: seq<Public>, typeId: CryptoTypeId) {
    && |authorities| == |onChain|
    && forall i | 0 <= i < |onChain| :: authorities[i] == PublicPair(typeId, onChain[i])
  }

  ghost predicate RawInjective(proofs: map<PublicPair, Bytes>) {
    forall k1, k2 :: k1 in proofs && k2 in proofs && k1.raw == k2.raw ==> k1 == k2
  }

  function RawKeys(ks: set<PublicPair>): set<RawKey> {
    set k | k in ks :: k.raw
  }

  lemma {:induction false} RawKeysCardinality(ks: set<PublicPair>)
    ensures |RawKeys(ks)| <= |ks|
    ensures |RawKeys(ks)| == |ks| <==> forall k1, k2 :: k1 in ks && k2 in ks && k1.raw == k2.raw ==> k1 == k2
  {
    if ks != {} {
      var k :| k in ks;
      var rest := ks - {k};
      RawKeysCardinality(rest);
      assert RawKeys(ks) == RawKeys(rest) + {k.raw};
    }
  }

  lemma ConvertedKeys(proofs: map<PublicPair, Bytes>, r: map<Public, Signature>)
    requires Converted(proofs, r)
    ensures |r| == |RawKeys(proofs.Keys)|
  {
    EqualCardinality(r.Keys, RawKeys(proofs.Keys));
  }

  lemma {:induction false} EqualCardinality(a: set<Public>, b: set<RawKey>)
    requires forall x: Public :: x in a ==> x in b
    requires forall x: RawKey :: x in b ==> |x| == 32 && x in a
    ensures |a| == |b|
  {
    if a == {} {
    } else {
      var x: Public :| x in a;
      EqualCardinality(a - {x}, b - {x});
    }
  }

  /** The conversion keeps the number of proofs exactly when no two of them share a raw key. */
  lemma ConversionKeepsSize(proofs: map<PublicPair, Bytes>, r: map<Public, Signature>)
    requires Converted(proofs, r)
    ensures |r| == |proofs| <==> RawInjective(proofs)
  {
    ConvertedKeys(proofs, r);
    RawKeysCardinality(proofs.Keys);
  }

  lemma QuorumOfProofs(st: Store, e: EventId, authorities: seq<PublicPair>)
    requires Distinct(authorities) && |authorities| <= 32
    requires ProofCount(st, e, authorities) >= Target(|authorities|)
    ensures Threshold(|authorities|) <= |Proofs(st, e, authorities)| <= |authorities|
  {
    ProofKeys(st, e, authorities);
    CountInDistinct(authorities, StoredSigners(st, e));
    assert |Proofs(st, e, authorities)| == |Proofs(st, e, authorities).Keys|;
    AcceptedIsQuorum(CountIn(authorities, StoredSigners(st, e)), |authorities|);
  }

  /** With a duplicate-free list within the bound, a decision to submit means a quorum of proofs. */
  lemma SubmittedProofs(verify: Verifier, st: Store, authorities: seq<PublicPair>, w: WitnessedEvent)
    requires Distinct(authorities) && |authorities| <= 32
    requires Handle(verify, st, authorities, w).1.Submit?
    ensures var (st', decision) := Handle(verify, st, authorities, w);
            && decision.proofs == Proofs(st', w.eventId, authorities)
            && Threshold(|authorities|) <= |decision.proofs| <= |authorities|
  {
    QuorumOfProofs(Handle(verify, st, authorities, w).0, w.eventId, authorities);
  }

  /** Converted proofs of authorities are recognised and verified by the pallet. */
  lemma ConvertedProofsVerify(verify: Verifier, st: Store, e: EventId, authorities: seq<PublicPair>,
                              onChain: seq<Public>, typeId: CryptoTypeId, r: map<Public, Signature>)
    requires AllVerified(verify, st)
    requires SameAuthorities(authorities, onChain, typeId)
    requires Converted(Proofs(st, e, authorities), r)
    ensures forall p | p in r :: p in onChain && verify(p, e, r[p])
  {}

  lemma PalletAccepts(verify: Verifier, st: Store, e: EventId, authorities: seq<PublicPair>,
                      onChain: seq<Public>, typeId: CryptoTypeId, streams: OnChainPallet.OnStreams,
                      r: map<Public, Signature>)
    requires AllVerified(verify, st) && SameAuthorities(authorities, onChain, typeId)
    requires |authorities| <= 32 && e !in streams
    requires Threshold(|authorities|) <= |Proofs(st, e, authorities)| <= |authorities|
    requires Converted(Proofs(st, e, authorities), r)
    ensures |r| == |Proofs(st, e, authorities)| <= 32
    ensures OnChainPallet.Acceptable(verify, onChain, streams, e, Some(r))
  {
    var ps := Proofs(st, e, authorities);
    assert RawInjective(ps) by {
      forall k | k in ps ensures k.typeId == typeId {}
    }
    ConversionKeepsSize(ps, r);
    ConvertedProofsVerify(verify, st, e, authorities, onChain, typeId, r);
    TargetCastExact(|authorities|);
  }

  /**
    The proofs of a submission are dropped exactly when they have more distinct raw keys than the
    bound, and the pallet's answer, in any state, is then that the call has none.
   */
  lemma OversizedProofsRefused(verify: Verifier, onChain: seq<Public>, streams: OnChainPallet.OnStreams, e: EventId,
                               proofs: map<PublicPair, Bytes>, r: map<Public, Signature>, answer: Dispatch<()>)
    requires Converted(proofs, r)
    requires OnChainPallet.Answers(verify, onChain, streams, e, CreateUnsignedExtrinsic(e, Some(r)).proofs, answer)
    ensures CreateUnsignedExtrinsic(e, Some(r)) == ValidateEvent(e, None) <==> |RawKeys(proofs.Keys)| > 32
    ensures answer == Failed(NoProofs) <==> |RawKeys(proofs.Keys)| > 32
  {
    ConvertedKeys(proofs, r);
  }

  /**
    The conversions of a submission cannot fail, and if the pallet's list is the same
    duplicate-free single-type list and the event is new, the proof map keeps its size through
    conversion and bounding and the pallet accepts the call.
   */
  ghost predicate WellSubmitted(verify: Verifier, e: EventId, proofs: map<PublicPair, Bytes>, authorities: seq<PublicPair>,
                                onChain: seq<Public>, typeId: CryptoTypeId, streams: OnChainPallet.OnStreams,
                                r: map<Public, Signature>) {
    && Convertible(proofs)
    && (Converted(proofs, r) && Distinct(authorities) && e !in streams && SameAuthorities(authorities, onChain, typeId) ==>
          && |r| == |proofs| <= 32
          && CreateUnsignedExtrinsic(e, Some(r)) == ValidateEvent(e, Some(r))
          && OnChainPallet.Acceptable(verify, onChain, streams, e, Some(r)))
  }

  lemma QuorumWellSubmitted(verify: Verifier, st: Store, e: EventId, authorities: seq<PublicPair>,
                            onChain: seq<Public>, typeId: CryptoTypeId, streams: OnChainPallet.OnStreams,
                            r: map<Public, Signature>)
    requires AllVerified(verify, st) && |authorities| <= 32
    requires Distinct(authorities) ==> Threshold(|authorities|) <= |Proofs(st, e, authorities)| <= |authorities|
    ensures WellSubmitted(verify, e, Proofs(st, e, authorities), authorities, onChain, typeId, streams, r)
  {
    ProofsConvertible(verify, st, e, authorities);
    if Converted(Proofs(st, e, authorities), r) && Distinct(authorities) && e !in streams
       && SameAuthorities(authorities, onChain, typeId) {
      PalletAccepts(verify, st, e, authorities, onChain, typeId, streams, r);
    }
  }

  lemma SubmissionFrom(verify: Verifier, st: Store, authorities: seq<PublicPair>, w: WitnessedEvent,
                       onChain: seq<Public>, typeId: CryptoTypeId, streams: OnChainPallet.OnStreams,
                       r: map<Public, Signature>)
    requires Indexed(st) && AllVerified(verify, st) && |authorities| <= 32
    requires Handle(verify, st, authorities, w).1.Submit?
    ensures WellSubmitted(verify, w.eventId, Handle(verify, st, authorities, w).1.proofs,
                          authorities, onChain, typeId, streams, r)
  {
    if Distinct(authorities) {
      SubmittedProofs(verify, st, authorities, w);
    }
    QuorumWellSubmitted(verify, Handle(verify, st, authorities, w).0, w.eventId, authorities, onChain, typeId, streams, r);
  }

  /** After every run of the handler from an empty store, whatever the next message makes it submit is well submitted. */
  lemma SubmissionAccepted(verify: Verifier, inputs: seq<Input>, authorities: seq<PublicPair>, w: WitnessedEvent,
                           onChain: seq<Public>, typeId: CryptoTypeId, streams: OnChainPallet.OnStreams,
                           r: map<Public, Signature>)
    requires |authorities| <= 32
    requires Handle(verify, RunHandler(verify, inputs).0, authorities, w).1.Submit?
    ensures WellSubmitted(verify, w.eventId, Handle(verify, RunHandler(verify, inputs).0, authorities, w).1.proofs,
                          authorities, onChain, typeId, streams, r)
  {
    RunKeeps(verify, inputs);
    SubmissionFrom(verify, RunHandler(verify, inputs).0, authorities, w, onChain, typeId, streams, r);
  }
}
