/**
  When a block can be imported. Nodes verify, store and purge under the finalized authority list,
  while the gate counts under the list at the block's parent. Once whatever a node has for the
  events of a block is by keys of its present list, it can go on to import the block if and only
  if, for each of them, a threshold of the parent's authorities has signed and is also in the list.
 */
module Importability {
  import opened Types
  import opened Sequences
  import opened Quorum
  import opened Authorities
  import opened ProofStore
  import opened PalletTypes
  import opened BlockImport
  import opened HandlerSchedule
  import opened Protocol
  import opened ProtocolProgress
  import CS = ConcurrentStore
  import SignerIndex

  lemma {:induction false} Listing(ms: set<WitnessedEvent>) returns (l: seq<WitnessedEvent>)
    ensures forall m :: m in l <==> m in ms
  {
    if ms == {} {
      l := [];
    } else {
      var m :| m in ms;
      var rest := Listing(ms - {m});
      l := [m] + rest;
    }
  }

  /** The gate's authorities that are in the handler's list and have a verifying message in the network. */
  ghost function CommonSigners(cfg: Config, network: set<WitnessedEvent>, handled: seq<PublicPair>,
                               gate: seq<PublicPair>, e: EventId): set<PublicPair> {
    set k | k in gate && k in handled && Signed(cfg, network, e, k)
  }

  /** For each event of the block, the common signers reach the threshold of the parent's list. */
  ghost predicate Quorate(cfg: Config, network: set<WitnessedEvent>, handled: seq<PublicPair>, block: Block)
    requires block.body.Some?
  {
    var gate := cfg.authoritiesOf(block.parent);
    forall e | e in ExtrinsicIds(block.body.value) ::
      |CommonSigners(cfg, network, handled, gate, e)| >= Threshold(|gate|)
  }

  /** A store holding every message valid under the handler's list holds all the common signers. */
  lemma HandledEnough(cfg: Config, network: set<WitnessedEvent>, st: Store, handled: seq<PublicPair>,
                      gate: seq<PublicPair>, e: EventId)
    requires Distinct(gate) && |gate| <= 0xFFFF
    requires forall m | Deliverable(cfg, network, handled, m) :: (m.eventId, m.pubKey) in st.sigs
    requires |CommonSigners(cfg, network, handled, gate, e)| >= Threshold(|gate|)
    ensures ProofCount(st, e, gate) >= Target(|gate|)
  {
    var common, stored := CommonSigners(cfg, network, handled, gate, e), StoredSigners(st, e);
    SubsetCardinality(common, SetOf(gate) * stored);
    CountInDistinct(gate, stored);
    TargetCastExact(|gate|);
  }

  /** The node can handle all the network's messages, so that every valid one is stored. */
  lemma HandleNetwork(cfg: Config, w: World, n: nat, handled: seq<PublicPair>) returns (later: seq<Action>)
    ensures Working(later, n, handled)
    ensures var w' := Continue(cfg, w, later);
            && OnlyNode(w, w')
            && forall m | Deliverable(cfg, w.network, handled, m) ::
                 (m.eventId, m.pubKey) in NodeOf(w', n).state.store.sigs
  {
    var ms := Listing(set m | m in w.network && Deliverable(cfg, w.network, handled, m));
    var id := NextId(NodeOf(w, n).state.ops.Keys);
    later := HandleAll(cfg, w, n, handled, ms, id);
    forall m | Deliverable(cfg, w.network, handled, m)
      ensures (m.eventId, m.pubKey) in NodeOf(Continue(cfg, w, later), n).state.store.sigs
    {
      HandledKeepsSigners(cfg.verify, NodeOf(w, n).state.store, handled, ms, m);
    }
  }

  /** With enough signatures stored, counting and importing succeeds. */
  lemma ImportStored(cfg: Config, w: World, n: nat, block: Block) returns (later: seq<Action>)
    requires block.body.Some?
    requires var st, gate := NodeOf(w, n).state.store, cfg.authoritiesOf(block.parent);
             forall e | e in ExtrinsicIds(block.body.value) :: ProofCount(st, e, gate) >= Target(|gate|)
    ensures forall a | a in later :: a.BeginCount? || a.Access? || a.ImportGated?
    ensures JustImported(w, Continue(cfg, w, later), n, block)
  {
    var id := NextId(NodeOf(w, n).state.ops.Keys);
    var counting, counters := CountAll(cfg, w, n, cfg.authoritiesOf(block.parent), ExtrinsicIds(block.body.value), id);
    later := counting + [ImportGated(n, block, counters)];
    assert later[..|counting|] == counting;
  }

  /**
    Progress: from whatever state a run has reached, if the common signers of each event of a block
    are a threshold of the parent's duplicate-free list, the node can import it by handling the
    network's messages under its list, with no further message sent.
   */
  lemma QuorateBlockCanBeImported(cfg: Config, actions: seq<Action>, n: nat, handled: seq<PublicPair>, block: Block)
    returns (later: seq<Action>)
    requires block.body.Some? && Quorate(cfg, After(cfg, actions).network, handled, block)
    requires var gate := cfg.authoritiesOf(block.parent); Distinct(gate) && |gate| <= 0xFFFF
    ensures Working(later, n, handled)
    ensures JustImported(After(cfg, actions), After(cfg, actions + later), n, block)
  {
    var w, ids, gate := After(cfg, actions), ExtrinsicIds(block.body.value), cfg.authoritiesOf(block.parent);
    var handling := HandleNetwork(cfg, w, n, handled);
    var w1 := Continue(cfg, w, handling);
    forall e | e in ids ensures ProofCount(NodeOf(w1, n).state.store, e, gate) >= Target(|gate|) {
      HandledEnough(cfg, w.network, NodeOf(w1, n).state.store, handled, gate, e);
    }
    var importing := ImportStored(cfg, w1, n, block);
    ContinueConcat(cfg, w, handling, importing);
    later := handling + importing;
    AfterIsContinue(cfg, actions, later);
  }

  /** If the parent's authorities are all in the handler's list, a signed block can be imported. */
  lemma SignedBlockCanBeImported(cfg: Config, actions: seq<Action>, n: nat, handled: seq<PublicPair>, block: Block)
    returns (later: seq<Action>)
    requires block.body.Some?
    requires var gate := cfg.authoritiesOf(block.parent);
             && Distinct(gate) && |gate| <= 0xFFFF && SetOf(gate) <= SetOf(handled)
             && forall e | e in ExtrinsicIds(block.body.value) ::
                  |set k | k in gate && Signed(cfg, After(cfg, actions).network, e, k)| >= Threshold(|gate|)
    ensures Working(later, n, handled)
    ensures JustImported(After(cfg, actions), After(cfg, actions + later), n, block)
  {
    var network, gate := After(cfg, actions).network, cfg.authoritiesOf(block.parent);
    forall e | e in ExtrinsicIds(block.body.value)
      ensures |CommonSigners(cfg, network, handled, gate, e)| >= Threshold(|gate|)
    {
      assert forall k | k in gate :: k in SetOf(gate);
      assert CommonSigners(cfg, network, handled, gate, e) == set k | k in gate && Signed(cfg, network, e, k);
    }
    later := QuorateBlockCanBeImported(cfg, actions, n, handled, block);
  }

  // ----- What the node has for an event -----

  /** The node receives messages only under lists within the given one. */
  ghost predicate ReceivedWithin(actions: seq<Action>, n: nat, handled: seq<PublicPair>) {
    forall a | a in actions && a.Receive? && a.node == n :: SetOf(a.authorities) <= SetOf(handled)
  }

  /** A pending add for the event, or a count of it over the gate's list, is about keys of the list only. */
  predicate OpSettled(op: CS.Op, e: EventId, gate: seq<PublicPair>, handled: seq<PublicPair>) {
    && (op.task.AddTask? && op.task.w.eventId == e && op.pc.SetSignature? ==> op.task.w.pubKey in handled)
    && (op.task == CS.CountTask(e, gate) ==> forall k | k in FoundBy(op.pc) :: k in handled)
  }

  ghost predicate OpsSettled(s: CS.State, e: EventId, gate: seq<PublicPair>, handled: seq<PublicPair>) {
    forall id :: id in s.ops ==> OpSettled(s.ops[id], e, gate, handled)
  }

  /** Whatever is stored for the event, about to be, or counted over the gate's list, is by keys of the list. */
  ghost predicate Settled(s: CS.State, e: EventId, gate: seq<PublicPair>, handled: seq<PublicPair>) {
    && (forall k | (e, k) in s.store.sigs :: k in handled)
    && OpsSettled(s, e, gate, handled)
  }

  lemma SettledStep(s: CS.State, a: CS.Action, e: EventId, gate: seq<PublicPair>, handled: seq<PublicPair>)
    requires Settled(s, e, gate, handled)
    requires a.Spawn? && a.task.AddTask? && a.task.w.eventId == e ==> a.task.w.pubKey in handled
    ensures Settled(CS.Apply(s, a), e, gate, handled)
  {}

  lemma SettledApply(cfg: Config, w: World, a: Action, n: nat, e: EventId, gate: seq<PublicPair>, handled: seq<PublicPair>)
    requires Settled(NodeOf(w, n).state, e, gate, handled) && ReceivedWithin([a], n, handled)
    ensures Settled(NodeOf(Apply(cfg, w, a), n).state, e, gate, handled)
  {
    assert a in [a];
    match a {
      case Receive(x, id, vs, m) =>
        if x == n && m.pubKey in vs {
          assert m.pubKey in SetOf(vs);
          SettledStep(NodeOf(w, n).state, CS.Spawn(id, CS.AddTask(m)), e, gate, handled);
        }
      case BeginPurge(x, id, vs, p) =>
        SettledStep(NodeOf(w, n).state, CS.Spawn(id, CS.PurgeTask(p, vs)), e, gate, handled);
      case BeginCount(x, id, vs, c) =>
        SettledStep(NodeOf(w, n).state, CS.Spawn(id, CS.CountTask(c, vs)), e, gate, handled);
      case Access(x, id) => SettledStep(NodeOf(w, n).state, CS.Run(id), e, gate, handled);
      case _ =>
    }
  }

  /** An import by the node under the gate's list found only keys of the list for the event. */
  ghost predicate FoundWithin(cfg: Config, i: Import, n: nat, e: EventId, gate: seq<PublicPair>, handled: seq<PublicPair>) {
    i.node == n && cfg.authoritiesOf(i.block.parent) == gate && Contains(i, e) ==>
      e in i.found && forall k | k in i.found[e] :: k in handled
  }

  /** Receiving under the list keeps the event settled, and the imports made meanwhile find only its keys. */
  lemma {:induction false} StaysSettled(cfg: Config, w: World, later: seq<Action>, n: nat, e: EventId,
                                        gate: seq<PublicPair>, handled: seq<PublicPair>)
    requires Settled(NodeOf(w, n).state, e, gate, handled) && ReceivedWithin(later, n, handled)
    ensures var w' := Continue(cfg, w, later);
            && Settled(NodeOf(w', n).state, e, gate, handled)
            && w.imports <= w'.imports
            && forall j | |w.imports| <= j < |w'.imports| :: FoundWithin(cfg, w'.imports[j], n, e, gate, handled)
  {
    if later != [] {
      var init, a := later[..|later| - 1], later[|later| - 1];
      StaysSettled(cfg, w, init, n, e, gate, handled);
      assert a in later;
      SettledApply(cfg, Continue(cfg, w, init), a, n, e, gate, handled);
    }
  }

  /** A node that has only ever received under lists within one has every event settled for it. */
  lemma ReceivedWithinSettles(cfg: Config, actions: seq<Action>, n: nat, e: EventId, gate: seq<PublicPair>,
                              handled: seq<PublicPair>)
    requires ReceivedWithin(actions, n, handled)
    ensures Settled(NodeOf(After(cfg, actions), n).state, e, gate, handled)
  {
    AfterIsContinue(cfg, [], actions);
    assert [] + actions == actions;
    StaysSettled(cfg, GENESIS, actions, n, e, gate, handled);
  }

  /** All stored signatures of the event are in its signer list. */
  ghost predicate Listed(st: Store, e: EventId) {
    forall k | (e, k) in st.sigs :: k in SignerList(st, e)
  }

  lemma {:induction false} SettledResume(s: CS.State, acts: seq<CS.Action>, e: EventId, gate: seq<PublicPair>,
                                         handled: seq<PublicPair>)
    requires Settled(s, e, gate, handled)
    requires forall a | a in acts && a.Spawn? :: !a.task.AddTask?
    ensures Settled(CS.Resume(s, acts), e, gate, handled)
  {
    if acts != [] {
      var init := acts[..|acts| - 1];
      SettledResume(s, init, e, gate, handled);
      SettledStep(CS.Resume(s, init), acts[|acts| - 1], e, gate, handled);
    }
  }

  /** The add and purge of one message leave only keys of the list for its event. */
  lemma StoringSettles(s: CS.State, handled: seq<PublicPair>, m: WitnessedEvent, id: nat, gate: seq<PublicPair>)
    requires id !in s.ops && id + 1 !in s.ops && m.pubKey in handled
    requires Listed(s.store, m.eventId) && OpsSettled(s, m.eventId, gate, handled)
    ensures var stored := CS.Resume(CS.Resume(s, Adding(m, id)),
                                    Purging(AddProof(s.store, m), handled, m.eventId, id + 1));
            Settled(stored, m.eventId, gate, handled)
  {
    StoringEnds(s, handled, m, id);
  }

  lemma CountingSettles(s: CS.State, handled: seq<PublicPair>, id: nat, e: EventId, gate: seq<PublicPair>)
    requires Settled(s, e, gate, handled)
    ensures Settled(CS.Resume(s, Counting(handled, e, id)), e, gate, handled)
  {
    CS.LoneSpawns(id, CS.CountTask(e, handled), |handled| + 1);
    SettledResume(s, Counting(handled, e, id), e, gate, handled);
  }

  lemma ScheduleSettles(s: CS.State, handled: seq<PublicPair>, m: WitnessedEvent, id: nat, gate: seq<PublicPair>)
    requires id !in s.ops && id + 1 !in s.ops && m.pubKey in handled
    requires Listed(s.store, m.eventId) && OpsSettled(s, m.eventId, gate, handled)
    ensures Settled(CS.Resume(s, Schedule(s.store, handled, m, id)), m.eventId, gate, handled)
  {
    SchedulePhases(s, handled, m, id);
    StoringSettles(s, handled, m, id, gate);
    var stored := CS.Resume(CS.Resume(s, Adding(m, id)), Purging(AddProof(s.store, m), handled, m.eventId, id + 1));
    CountingSettles(stored, handled, id + 2, m.eventId, gate);
  }

  /**
    Handling one message of an event under the present list settles the event, whatever lists its
    signatures were handled under before, if they are listed and nothing else is pending on it.
   */
  lemma HandlingSettles(cfg: Config, w: World, n: nat, handled: seq<PublicPair>, m: WitnessedEvent, id: nat,
                        gate: seq<PublicPair>) returns (later: seq<Action>)
    requires Deliverable(cfg, w.network, handled, m) && Fresh(w, n, id)
    requires Listed(NodeOf(w, n).state.store, m.eventId) && OpsSettled(NodeOf(w, n).state, m.eventId, gate, handled)
    ensures Working(later, n, handled)
    ensures OnlyNode(w, Continue(cfg, w, later))
    ensures Settled(NodeOf(Continue(cfg, w, later), n).state, m.eventId, gate, handled)
  {
    var s := NodeOf(w, n).state;
    var acts := Schedule(s.store, handled, m, id);
    later := Lift(n, handled, acts);
    ScheduleWorks(cfg, w.network, s.store, n, handled, m, id);
    LiftRuns(cfg, w, n, handled, acts);
    ScheduleSettles(s, handled, m, id, gate);
  }

  // ----- The exact condition -----

  lemma FoundAreCommon(cfg: Config, network: set<WitnessedEvent>, handled: seq<PublicPair>, i: Import, e: EventId)
    requires ImportSound(cfg, network, i) && QuorumFound(cfg, i, e)
    requires forall k | k in i.found[e] :: k in handled
    requires var gate := cfg.authoritiesOf(i.block.parent); Distinct(gate) && |gate| <= CAST_LIMIT
    ensures var gate := cfg.authoritiesOf(i.block.parent);
            |CommonSigners(cfg, network, handled, gate, e)| >= Threshold(|gate|)
  {
    var gate, found := cfg.authoritiesOf(i.block.parent), i.found[e];
    var common := CommonSigners(cfg, network, handled, gate, e);
    DistinctCardinality(found);
    SubsetCardinality(SetOf(found), common);
    AcceptedIsQuorum(|found|, |gate|);
  }

  /** For a settled event, an import made later shows its common signers to have reached the threshold. */
  lemma LaterImportHasCommonSigners(cfg: Config, actions: seq<Action>, later: seq<Action>, n: nat,
                                    handled: seq<PublicPair>, j: nat, e: EventId)
    requires ReceivedWithin(later, n, handled)
    requires |After(cfg, actions).imports| <= j < |After(cfg, actions + later).imports|
    requires var i := After(cfg, actions + later).imports[j];
             var gate := cfg.authoritiesOf(i.block.parent);
             && i.node == n && Contains(i, e) && Distinct(gate) && |gate| <= CAST_LIMIT
             && Settled(NodeOf(After(cfg, actions), n).state, e, gate, handled)
    ensures var w' := After(cfg, actions + later);
            var gate := cfg.authoritiesOf(w'.imports[j].block.parent);
            |CommonSigners(cfg, w'.network, handled, gate, e)| >= Threshold(|gate|)
  {
    var w' := After(cfg, actions + later);
    var i := w'.imports[j];
    RunsSound(cfg, actions + later);
    AfterIsContinue(cfg, actions, later);
    StaysSettled(cfg, After(cfg, actions), later, n, e, cfg.authoritiesOf(i.block.parent), handled);
    FoundAreCommon(cfg, w'.network, handled, i, e);
  }

  lemma {:induction false} WorkSendsNothing(cfg: Config, w: World, later: seq<Action>, n: nat, handled: seq<PublicPair>)
    requires Working(later, n, handled)
    ensures Continue(cfg, w, later).network == w.network
  {
    if later != [] {
      WorkSendsNothing(cfg, w, later[..|later| - 1], n, handled);
    }
  }

  /** Between the two worlds the node has imported the block. */
  ghost predicate NewlyImported(w: World, w': World, n: nat, block: Block) {
    exists j :: |w.imports| <= j < |w'.imports| && w'.imports[j].node == n && w'.imports[j].block == block
  }

  /** Some continuation without new messages, working under the list, imports the block. */
  ghost predicate Importable(cfg: Config, actions: seq<Action>, n: nat, handled: seq<PublicPair>, block: Block) {
    exists later :: Working(later, n, handled) && NewlyImported(After(cfg, actions), After(cfg, actions + later), n, block)
  }

  ghost predicate BlockSettled(cfg: Config, w: World, n: nat, handled: seq<PublicPair>, block: Block)
    requires block.body.Some?
  {
    forall e | e in ExtrinsicIds(block.body.value) ::
      Settled(NodeOf(w, n).state, e, cfg.authoritiesOf(block.parent), handled)
  }

  lemma ImportableIsQuorate(cfg: Config, actions: seq<Action>, n: nat, handled: seq<PublicPair>, block: Block)
    requires block.body.Some? && BlockSettled(cfg, After(cfg, actions), n, handled, block)
    requires var gate := cfg.authoritiesOf(block.parent); Distinct(gate) && |gate| <= CAST_LIMIT
    requires Importable(cfg, actions, n, handled, block)
    ensures Quorate(cfg, After(cfg, actions).network, handled, block)
  {
    var w := After(cfg, actions);
    var later :| Working(later, n, handled) && NewlyImported(w, After(cfg, actions + later), n, block);
    var w' := After(cfg, actions + later);
    var j :| |w.imports| <= j < |w'.imports| && w'.imports[j].node == n && w'.imports[j].block == block;
    AfterIsContinue(cfg, actions, later);
    WorkSendsNothing(cfg, w, later, n, handled);
    forall e | e in ExtrinsicIds(block.body.value)
      ensures |CommonSigners(cfg, w.network, handled, cfg.authoritiesOf(block.parent), e)| >=
              Threshold(|cfg.authoritiesOf(block.parent)|)
    {
      LaterImportHasCommonSigners(cfg, actions, later, n, handled, j, e);
    }
  }

  /**
    The exact condition. In every run, whatever lists the node handled messages under before, once
    the events of a block are settled for its present list, the messages now in the network suffice
    for it to import the block, by whatever interleaving of its work under that list, if and only if
    for each event the common signers reach the threshold of the parent's list.
   */
  lemma ImportableIffQuorate(cfg: Config, actions: seq<Action>, n: nat, handled: seq<PublicPair>, block: Block)
    requires block.body.Some? && BlockSettled(cfg, After(cfg, actions), n, handled, block)
    requires var gate := cfg.authoritiesOf(block.parent); Distinct(gate) && |gate| <= 0xFFFF
    ensures Importable(cfg, actions, n, handled, block) <==> Quorate(cfg, After(cfg, actions).network, handled, block)
  {
    if Quorate(cfg, After(cfg, actions).network, handled, block) {
      var later := QuorateBlockCanBeImported(cfg, actions, n, handled, block);
      assert NewlyImported(After(cfg, actions), After(cfg, actions + later), n, block);
    }
    if Importable(cfg, actions, n, handled, block) {
      ImportableIsQuorate(cfg, actions, n, handled, block);
    }
  }

  /** In particular for a node that has only ever received under lists within its present one. */
  lemma ImportableUnderOneList(cfg: Config, actions: seq<Action>, n: nat, handled: seq<PublicPair>, block: Block)
    requires block.body.Some? && ReceivedWithin(actions, n, handled)
    requires var gate := cfg.authoritiesOf(block.parent); Distinct(gate) && |gate| <= 0xFFFF
    ensures Importable(cfg, actions, n, handled, block) <==> Quorate(cfg, After(cfg, actions).network, handled, block)
  {
    forall e {
      ReceivedWithinSettles(cfg, actions, n, e, cfg.authoritiesOf(block.parent), handled);
    }
    ImportableIffQuorate(cfg, actions, n, handled, block);
  }

  /** If none of the parent's authorities is in the list, no later import contains a settled event, whoever has signed. */
  lemma DisjointListsNeverImport(cfg: Config, actions: seq<Action>, later: seq<Action>, n: nat,
                                 handled: seq<PublicPair>, j: nat, e: EventId)
    requires ReceivedWithin(later, n, handled)
    requires |After(cfg, actions).imports| <= j < |After(cfg, actions + later).imports|
    requires var i := After(cfg, actions + later).imports[j];
             var gate := cfg.authoritiesOf(i.block.parent);
             && i.node == n && Distinct(gate) && |gate| <= CAST_LIMIT && (forall k | k in gate :: k !in handled)
             && Settled(NodeOf(After(cfg, actions), n).state, e, gate, handled)
    ensures !Contains(After(cfg, actions + later).imports[j], e)
  {
    var w' := After(cfg, actions + later);
    var gate := cfg.authoritiesOf(w'.imports[j].block.parent);
    assert CommonSigners(cfg, w'.network, handled, gate, e) == {};
    if Contains(w'.imports[j], e) {
      LaterImportHasCommonSigners(cfg, actions, later, n, handled, j, e);
    }
  }

  // ----- Counts that start once a quorum is stored -----

  /** The keys have stored signatures for the event, and every purge of it under way keeps them. */
  ghost predicate Keeps(s: CS.State, e: EventId, keys: set<PublicPair>) {
    && (forall k | k in keys :: (e, k) in s.store.sigs)
    && (forall id | id in s.ops && SignerIndex.Purging(s.ops[id]) && s.ops[id].task.purged == e ::
          keys <= SetOf(s.ops[id].task.validators))
  }

  /** Every one of the keys that the count has passed, it has found. */
  predicate Finds(op: CS.Op, keys: set<PublicPair>) {
    op.task.CountTask? ==>
      var gate := op.task.validators;
      match op.pc
      case ReadNext(next, found) => next <= |gate| && forall k | k in gate[..next] && k in keys :: k in found
      case Counted(found) => forall k | k in gate && k in keys :: k in found
      case _ => false
  }

  /** If the operation exists, it is not a count of the event that missed one of the keys. */
  ghost predicate FindsKept(s: CS.State, id: nat, e: EventId, keys: set<PublicPair>) {
    Keeps(s, e, keys) && (id in s.ops && CS.EventOf(s.ops[id].task) == e ==> Finds(s.ops[id], keys))
  }

  lemma FindsNext(s: CS.State, id: nat, e: EventId, keys: set<PublicPair>)
    requires FindsKept(s, id, e, keys) && id in s.ops && s.ops[id].task.CountTask? && s.ops[id].task.counted == e
    ensures Finds(CS.Apply(s, CS.Run(id)).ops[id], keys)
  {
    var gate, pc := s.ops[id].task.validators, s.ops[id].pc;
    if pc.ReadNext? {
      if pc.next < |gate| {
        assert gate[..pc.next + 1] == gate[..pc.next] + [gate[pc.next]];
      } else {
        assert gate[..pc.next] == gate;
      }
    }
  }

  lemma FindsStep(s: CS.State, a: CS.Action, id: nat, e: EventId, keys: set<PublicPair>)
    requires FindsKept(s, id, e, keys)
    requires a.Spawn? && a.task.PurgeTask? && a.task.purged == e ==> keys <= SetOf(a.task.validators)
    ensures FindsKept(CS.Apply(s, a), id, e, keys)
  {
    if a == CS.Run(id) && id in s.ops && s.ops[id].task.CountTask? && s.ops[id].task.counted == e {
      FindsNext(s, id, e, keys);
    }
  }

  /** Every purge of the event the node begins keeps the keys. */
  ghost predicate PurgesKeepKeys(actions: seq<Action>, n: nat, e: EventId, keys: set<PublicPair>) {
    forall a | a in actions && a.BeginPurge? && a.node == n && a.event == e :: keys <= SetOf(a.authorities)
  }

  lemma FindsApply(cfg: Config, w: World, a: Action, n: nat, id: nat, e: EventId, keys: set<PublicPair>)
    requires FindsKept(NodeOf(w, n).state, id, e, keys) && PurgesKeepKeys([a], n, e, keys)
    ensures FindsKept(NodeOf(Apply(cfg, w, a), n).state, id, e, keys)
  {
    assert a in [a];
    var s := NodeOf(w, n).state;
    match a {
      case Receive(_, i, _, m) => FindsStep(s, CS.Spawn(i, CS.AddTask(m)), id, e, keys);
      case BeginPurge(x, i, vs, p) =>
        if x == n {
          FindsStep(s, CS.Spawn(i, CS.PurgeTask(p, vs)), id, e, keys);
        }
      case BeginCount(_, i, vs, c) => FindsStep(s, CS.Spawn(i, CS.CountTask(c, vs)), id, e, keys);
      case Access(_, i) => FindsStep(s, CS.Run(i), id, e, keys);
      case _ =>
    }
  }

  lemma {:induction false} FindsThroughout(cfg: Config, w: World, later: seq<Action>, n: nat, id: nat, e: EventId,
                                           keys: set<PublicPair>)
    requires FindsKept(NodeOf(w, n).state, id, e, keys) && PurgesKeepKeys(later, n, e, keys)
    ensures FindsKept(NodeOf(Continue(cfg, w, later), n).state, id, e, keys)
  {
    if later != [] {
      var init, a := later[..|later| - 1], later[|later| - 1];
      FindsThroughout(cfg, w, init, n, id, e, keys);
      assert a in later;
      FindsApply(cfg, Continue(cfg, w, init), a, n, id, e, keys);
    }
  }

  lemma FoundReachesTarget(found: seq<PublicPair>, gate: seq<PublicPair>, keys: set<PublicPair>)
    requires |SetOf(gate) * keys| >= Threshold(|gate|) && |found| <= |gate| <= 0xFFFF
    requires forall k | k in gate && k in keys :: k in found
    ensures AsU16(|found|) >= Target(|gate|)
  {
    SubsetCardinality(SetOf(gate) * keys, SetOf(found));
    SetOfCardinality(found);
    SmallU16(|found|);
    TargetCastExact(|gate|);
  }

  lemma FinishedCountFits(cfg: Config, actions: seq<Action>, n: nat, e: EventId, gate: seq<PublicPair>, id: nat)
    requires CountFinished(NodeOf(After(cfg, actions), n).state, id, e, gate)
    ensures |NodeOf(After(cfg, actions), n).state.ops[id].pc.found| <= |gate|
  {
    RunsSound(cfg, actions);
    assert CountShape(NodeOf(After(cfg, actions), n).state.ops[id].pc, gate);
  }

  /**
    In every run, whatever else interleaves: once a threshold of the gate's authorities is stored
    for an event, and as long as the node's purges of it keep them, every count over the gate's list
    that starts then and finishes reaches the target.
   */
  lemma LateCountReachesTarget(cfg: Config, actions: seq<Action>, later: seq<Action>, n: nat, e: EventId,
                               gate: seq<PublicPair>, keys: set<PublicPair>, id: nat)
    requires Keeps(NodeOf(After(cfg, actions), n).state, e, keys) && PurgesKeepKeys(later, n, e, keys)
    requires |SetOf(gate) * keys| >= Threshold(|gate|) && |gate| <= 0xFFFF
    requires id !in NodeOf(After(cfg, actions), n).state.ops
    requires CountFinished(NodeOf(After(cfg, actions + later), n).state, id, e, gate)
    ensures AsU16(|NodeOf(After(cfg, actions + later), n).state.ops[id].pc.found|) >= Target(|gate|)
  {
    AfterIsContinue(cfg, actions, later);
    FindsThroughout(cfg, After(cfg, actions), later, n, id, e, keys);
    FinishedCountFits(cfg, actions + later, n, e, gate, id);
    FoundReachesTarget(NodeOf(After(cfg, actions + later), n).state.ops[id].pc.found, gate, keys);
  }

  /** For each event of the block, keys stored and kept, a threshold of them of the gate's list. */
  ghost predicate QuorumsKept(s: CS.State, later: seq<Action>, n: nat, ids: seq<EventId>, gate: seq<PublicPair>,
                              quorums: map<EventId, set<PublicPair>>) {
    forall e | e in ids ::
      && e in quorums && |SetOf(gate) * quorums[e]| >= Threshold(|gate|)
      && Keeps(s, e, quorums[e]) && PurgesKeepKeys(later, n, e, quorums[e])
  }

  /** So the gate lets the block through on whatever such counts it is given. */
  lemma LateCountsImport(cfg: Config, actions: seq<Action>, later: seq<Action>, n: nat, block: Block,
                         counters: map<EventId, nat>, quorums: map<EventId, set<PublicPair>>)
    requires block.body.Some? && |cfg.authoritiesOf(block.parent)| <= 0xFFFF
    requires var ids, gate := ExtrinsicIds(block.body.value), cfg.authoritiesOf(block.parent);
             && QuorumsKept(NodeOf(After(cfg, actions), n).state, later, n, ids, gate, quorums)
             && Prepared(NodeOf(After(cfg, actions + later), n).state, ids, counters, gate)
             && forall e | e in ids :: counters[e] !in NodeOf(After(cfg, actions), n).state.ops
    ensures var w := After(cfg, actions + later); JustImported(w, TryImport(cfg, w, n, block, counters), n, block)
  {
    var ids, gate, w := ExtrinsicIds(block.body.value), cfg.authoritiesOf(block.parent), After(cfg, actions + later);
    forall e | e in ids ensures AsU16(|NodeOf(w, n).state.ops[counters[e]].pc.found|) >= Target(|gate|) {
      LateCountReachesTarget(cfg, actions, later, n, e, gate, quorums[e], counters[e]);
    }
    ReachedGate(cfg, w, n, block, counters);
  }

  // ----- Why the events must be settled -----

  /**
    Signatures stored under an earlier list outlive it: after handling the network's messages under
    the parent's own list, the node can import a block they suffice for while working under any
    other list, until it handles a message of the event under that one.
   */
  lemma StaleSignaturesImport(cfg: Config, actions: seq<Action>, n: nat, block: Block) returns (handling: seq<Action>)
    requires block.body.Some?
    requires var gate := cfg.authoritiesOf(block.parent);
             Distinct(gate) && |gate| <= 0xFFFF && Quorate(cfg, After(cfg, actions).network, gate, block)
    ensures Working(handling, n, cfg.authoritiesOf(block.parent))
    ensures OnlyNode(After(cfg, actions), After(cfg, actions + handling))
    ensures forall other :: Importable(cfg, actions + handling, n, other, block)
  {
    var w, gate := After(cfg, actions), cfg.authoritiesOf(block.parent);
    handling := HandleNetwork(cfg, w, n, gate);
    AfterIsContinue(cfg, actions, handling);
    var w1 := Continue(cfg, w, handling);
    forall e | e in ExtrinsicIds(block.body.value) ensures ProofCount(NodeOf(w1, n).state.store, e, gate) >= Target(|gate|) {
      HandledEnough(cfg, w.network, NodeOf(w1, n).state.store, gate, gate, e);
    }
    var importing := ImportStored(cfg, w1, n, block);
    AfterIsContinue(cfg, actions + handling, importing);
    forall other ensures Importable(cfg, actions + handling, n, other, block) {
      assert Working(importing, n, other) && NewlyImported(w1, Continue(cfg, w1, importing), n, block);
    }
  }

  /**
    So without settling the condition is not necessary: one authority signs and is handled under the
    parent's list, and under any list without it the block can be imported though it has no common
    signer.
   */
  lemma UnsettledImport(cfg: Config, m: WitnessedEvent, n: nat, block: Block, other: seq<PublicPair>)
    returns (actions: seq<Action>)
    requires m.pubKey in cfg.honest && Verifies(cfg.verify, m) && m.pubKey !in other
    requires block.body.Some? && ExtrinsicIds(block.body.value) == [m.eventId]
    requires cfg.authoritiesOf(block.parent) == [m.pubKey]
    ensures Importable(cfg, actions, n, other, block)
    ensures !Quorate(cfg, After(cfg, actions).network, other, block)
  {
    var sent := [Witness(m)];
    var network, gate := After(cfg, sent).network, [m.pubKey];
    assert Attested(cfg, network, m);
    assert CommonSigners(cfg, network, gate, gate, m.eventId) == {m.pubKey};
    var handling := StaleSignaturesImport(cfg, sent, n, block);
    actions := sent + handling;
    assert CommonSigners(cfg, network, other, gate, m.eventId) == {};
    assert m.eventId in ExtrinsicIds(block.body.value);
  }
}
