/**
  Continuing a run: schedules of a node's store as protocol steps, handling messages, counting for
  a block, and the import gate.
 */
module ProtocolProgress {
  import opened Types
  import opened Sequences
  import opened Quorum
  import opened Authorities
  import opened ProofStore
  import opened OffchainProofs
  import opened PalletTypes
  import opened BlockImport
  import opened GossipHandler
  import opened HandlerSchedule
  import opened Protocol
  import CS = ConcurrentStore

  function Continue(cfg: Config, w: World, later: seq<Action>): World {
    if later == [] then w
    else Apply(cfg, Continue(cfg, w, later[..|later| - 1]), later[|later| - 1])
  }

  lemma {:induction false} ContinueConcat(cfg: Config, w: World, a: seq<Action>, b: seq<Action>)
    ensures Continue(cfg, w, a + b) == Continue(cfg, Continue(cfg, w, a), b)
  {
    if b == [] {
      assert a + b == a;
    } else {
      ContinueConcat(cfg, w, a, b[..|b| - 1]);
      assert (a + b)[..|a + b| - 1] == a + b[..|b| - 1];
    }
  }

  lemma {:induction false} AfterIsContinue(cfg: Config, actions: seq<Action>, later: seq<Action>)
    ensures After(cfg, actions + later) == Continue(cfg, After(cfg, actions), later)
  {
    if later == [] {
      assert actions + later == actions;
    } else {
      AfterIsContinue(cfg, actions, later[..|later| - 1]);
      assert (actions + later)[..|actions + later| - 1] == actions + later[..|later| - 1];
    }
  }

  // ----- Store schedules as protocol steps -----

  /** The protocol step by which a node, handling messages under a list, takes an action of its store. */
  function Lifted(n: nat, authorities: seq<PublicPair>, a: CS.Action): Action {
    match a
    case Spawn(id, AddTask(m)) => Receive(n, id, authorities, m)
    case Spawn(id, PurgeTask(e, vs)) => BeginPurge(n, id, vs, e)
    case Spawn(id, CountTask(e, vs)) => BeginCount(n, id, vs, e)
    case Run(id) => Access(n, id)
  }

  function Lift(n: nat, authorities: seq<PublicPair>, acts: seq<CS.Action>): seq<Action> {
    seq(|acts|, i requires 0 <= i < |acts| => Lifted(n, authorities, acts[i]))
  }

  predicate Deliverable(cfg: Config, network: set<WitnessedEvent>, authorities: seq<PublicPair>, m: WitnessedEvent) {
    m in network && VerifyOrigin(cfg.verify, authorities, m).Ok?
  }

  ghost predicate AddsDeliverable(cfg: Config, network: set<WitnessedEvent>, authorities: seq<PublicPair>,
                                  acts: seq<CS.Action>) {
    forall a | a in acts && a.Spawn? && a.task.AddTask? :: Deliverable(cfg, network, authorities, a.task.w)
  }

  /** The continuation only touched the node's store. */
  ghost predicate OnlyNode(w: World, w': World) {
    w'.network == w.network && w'.witnessed == w.witnessed && w'.imports == w.imports
  }

  lemma LiftStep(cfg: Config, w: World, n: nat, authorities: seq<PublicPair>, a: CS.Action)
    requires a.Spawn? && a.task.AddTask? ==> Deliverable(cfg, w.network, authorities, a.task.w)
    ensures var w' := Apply(cfg, w, Lifted(n, authorities, a));
            OnlyNode(w, w') && NodeOf(w', n).state == CS.Apply(NodeOf(w, n).state, a)
  {}

  /** Lifted, a schedule of the store does to the node's store what it does alone. */
  lemma {:induction false} LiftRuns(cfg: Config, w: World, n: nat, authorities: seq<PublicPair>, acts: seq<CS.Action>)
    requires AddsDeliverable(cfg, w.network, authorities, acts)
    ensures var w' := Continue(cfg, w, Lift(n, authorities, acts));
            OnlyNode(w, w') && NodeOf(w', n).state == CS.Resume(NodeOf(w, n).state, acts)
  {
    if acts != [] {
      var init, a := acts[..|acts| - 1], acts[|acts| - 1];
      LiftRuns(cfg, w, n, authorities, init);
      assert Lift(n, authorities, acts)[..|init|] == Lift(n, authorities, init);
      LiftStep(cfg, Continue(cfg, w, Lift(n, authorities, init)), n, authorities, a);
    }
  }

  // ----- Handling messages -----

  /** Every operation started so far has a smaller id. */
  ghost predicate Fresh(w: World, n: nat, id: nat) {
    forall i :: i in NodeOf(w, n).state.ops ==> i < id
  }

  /**
    Steps of nodes at work, with no message sent: the node's own messages are received, and its
    purges done, under the given list.
   */
  predicate Working(later: seq<Action>, n: nat, authorities: seq<PublicPair>) {
    forall a | a in later ::
      && !a.Witness? && !a.Inject?
      && ((a.Receive? || a.BeginPurge?) && a.node == n ==> a.authorities == authorities)
  }

  lemma ScheduleSpawns(st: Store, authorities: seq<PublicPair>, m: WitnessedEvent, id: nat)
    ensures forall a | a in Schedule(st, authorities, m, id) && a.Spawn? ::
              && (a.task.AddTask? ==> a.task.w == m)
              && (a.task.PurgeTask? ==> a.task.validators == authorities)
  {
    CS.RunsOnlyRun(id, 3);
    CS.RunsOnlyRun(id + 1, |SignerList(AddProof(st, m), m.eventId)| + 2);
    CS.RunsOnlyRun(id + 2, |authorities| + 1);
  }

  lemma ScheduleWorks(cfg: Config, network: set<WitnessedEvent>, st: Store, n: nat, authorities: seq<PublicPair>,
                      m: WitnessedEvent, id: nat)
    requires Deliverable(cfg, network, authorities, m)
    ensures AddsDeliverable(cfg, network, authorities, Schedule(st, authorities, m, id))
    ensures Working(Lift(n, authorities, Schedule(st, authorities, m, id)), n, authorities)
  {
    ScheduleSpawns(st, authorities, m, id);
  }

  /** The store after handling messages one after the other under a list. */
  function Handled(verify: Verifier, st: Store, authorities: seq<PublicPair>, ms: seq<WitnessedEvent>): Store {
    if ms == [] then st
    else Handle(verify, Handled(verify, st, authorities, ms[..|ms| - 1]), authorities, ms[|ms| - 1]).0
  }

  lemma ScheduleStores(verify: Verifier, s: CS.State, authorities: seq<PublicPair>, m: WitnessedEvent, id: nat)
    requires VerifyOrigin(verify, authorities, m).Ok? && forall i | i in s.ops :: i < id
    ensures var end := CS.Resume(s, Schedule(s.store, authorities, m, id));
            && end.store == Handle(verify, s.store, authorities, m).0
            && forall i | i in end.ops :: i < id + 3
  {
    HandlingIsASchedule(verify, s, authorities, m, id);
  }

  lemma HandleOne(cfg: Config, w: World, n: nat, authorities: seq<PublicPair>, m: WitnessedEvent, id: nat)
    returns (later: seq<Action>)
    requires Deliverable(cfg, w.network, authorities, m) && Fresh(w, n, id)
    ensures Working(later, n, authorities)
    ensures var w' := Continue(cfg, w, later);
            && OnlyNode(w, w') && Fresh(w', n, id + 3)
            && NodeOf(w', n).state.store == Handle(cfg.verify, NodeOf(w, n).state.store, authorities, m).0
  {
    var s := NodeOf(w, n).state;
    var acts := Schedule(s.store, authorities, m, id);
    later := Lift(n, authorities, acts);
    ScheduleWorks(cfg, w.network, s.store, n, authorities, m, id);
    LiftRuns(cfg, w, n, authorities, acts);
    ScheduleStores(cfg.verify, s, authorities, m, id);
  }

  /** Any messages in the network can be handled one after the other, each by its add, purge and count. */
  lemma {:induction false} HandleAll(cfg: Config, w: World, n: nat, authorities: seq<PublicPair>,
                                     ms: seq<WitnessedEvent>, id: nat) returns (later: seq<Action>)
    requires Fresh(w, n, id) && forall m | m in ms :: Deliverable(cfg, w.network, authorities, m)
    ensures Working(later, n, authorities)
    ensures var w' := Continue(cfg, w, later);
            && OnlyNode(w, w') && Fresh(w', n, id + 3 * |ms|)
            && NodeOf(w', n).state.store == Handled(cfg.verify, NodeOf(w, n).state.store, authorities, ms)
    decreases ms
  {
    if ms == [] {
      later := [];
    } else {
      var init := ms[..|ms| - 1];
      var before := HandleAll(cfg, w, n, authorities, init, id);
      var last := HandleOne(cfg, Continue(cfg, w, before), n, authorities, ms[|ms| - 1], id + 3 * |init|);
      ContinueConcat(cfg, w, before, last);
      later := before + last;
    }
  }

  /** Handled messages under a list stay stored: purges under the same list never drop their signers. */
  lemma {:induction false} HandledKeepsSigners(verify: Verifier, st: Store, authorities: seq<PublicPair>,
                                               ms: seq<WitnessedEvent>, m: WitnessedEvent)
    requires m in ms && forall x | x in ms :: VerifyOrigin(verify, authorities, x).Ok?
    ensures (m.eventId, m.pubKey) in Handled(verify, st, authorities, ms).sigs
  {
    var init, last := ms[..|ms| - 1], ms[|ms| - 1];
    if m in init {
      HandledKeepsSigners(verify, st, authorities, init, m);
    }
  }

  // ----- Counting for a block, and the gate -----

  /** A finished count that found exactly the stored signers, position by position. */
  ghost predicate Tallied(s: CS.State, id: nat, e: EventId, authorities: seq<PublicPair>) {
    CountFinished(s, id, e, authorities) && |s.ops[id].pc.found| == CountIn(authorities, StoredSigners(s.store, e))
  }

  ghost predicate AllTallied(s: CS.State, ids: seq<EventId>, counters: map<EventId, nat>, authorities: seq<PublicPair>) {
    forall e | e in ids :: e in counters && Tallied(s, counters[e], e, authorities)
  }

  predicate OnlyCounting(later: seq<Action>) {
    forall a | a in later :: a.BeginCount? || a.Access?
  }

  lemma CountingWorks(cfg: Config, network: set<WitnessedEvent>, n: nat, authorities: seq<PublicPair>, e: EventId, id: nat)
    ensures AddsDeliverable(cfg, network, authorities, Counting(authorities, e, id))
    ensures OnlyCounting(Lift(n, authorities, Counting(authorities, e, id)))
  {
    CS.RunsOnlyRun(id, |authorities| + 1);
    var acts := Counting(authorities, e, id);
    forall a | a in Lift(n, authorities, acts) ensures a.BeginCount? || a.Access? {
      var i :| 0 <= i < |acts| && a == Lifted(n, authorities, acts[i]);
      assert acts[i] in acts;
    }
  }

  lemma CountOne(cfg: Config, w: World, n: nat, authorities: seq<PublicPair>, e: EventId, id: nat)
    returns (later: seq<Action>, found: seq<PublicPair>)
    requires Fresh(w, n, id)
    ensures OnlyCounting(later)
    ensures |found| == CountIn(authorities, StoredSigners(NodeOf(w, n).state.store, e))
    ensures var s, w' := NodeOf(w, n).state, Continue(cfg, w, later);
            && OnlyNode(w, w')
            && NodeOf(w', n).state ==
               CS.State(s.store, s.ops[id := CS.Op(CS.CountTask(e, authorities), CS.Counted(found))])
  {
    var acts := Counting(authorities, e, id);
    CountingWorks(cfg, w.network, n, authorities, e, id);
    later := Lift(n, authorities, acts);
    LiftRuns(cfg, w, n, authorities, acts);
    found := CS.LoneCount(NodeOf(w, n).state, id, CS.CountTask(e, authorities));
  }

  /** Counting one more event keeps the counts already finished. */
  lemma CountOneMore(cfg: Config, w: World, n: nat, authorities: seq<PublicPair>, ids: seq<EventId>,
                     counters: map<EventId, nat>, e: EventId, id: nat) returns (later: seq<Action>)
    requires Fresh(w, n, id) && AllTallied(NodeOf(w, n).state, ids, counters, authorities)
    ensures OnlyCounting(later)
    ensures var w' := Continue(cfg, w, later);
            && OnlyNode(w, w') && Fresh(w', n, id + 1)
            && NodeOf(w', n).state.store == NodeOf(w, n).state.store
            && AllTallied(NodeOf(w', n).state, ids + [e], counters[e := id], authorities)
  {
    var found;
    later, found := CountOne(cfg, w, n, authorities, e, id);
  }

  lemma {:induction false} CountAll(cfg: Config, w: World, n: nat, authorities: seq<PublicPair>, ids: seq<EventId>, id: nat)
    returns (later: seq<Action>, counters: map<EventId, nat>)
    requires Fresh(w, n, id)
    ensures OnlyCounting(later)
    ensures var w' := Continue(cfg, w, later);
            && OnlyNode(w, w') && Fresh(w', n, id + |ids|)
            && NodeOf(w', n).state.store == NodeOf(w, n).state.store
            && AllTallied(NodeOf(w', n).state, ids, counters, authorities)
    decreases ids
  {
    if ids == [] {
      later, counters := [], map[];
    } else {
      var init, e := ids[..|ids| - 1], ids[|ids| - 1];
      var before, others := CountAll(cfg, w, n, authorities, init, id);
      var count := CountOneMore(cfg, Continue(cfg, w, before), n, authorities, init, others, e, id + |init|);
      later, counters := before + count, others[e := id + |init|];
      ContinueConcat(cfg, w, before, count);
    }
  }

  /** The block was imported by the node, and nothing was sent or witnessed meanwhile. */
  ghost predicate JustImported(w: World, w': World, n: nat, block: Block) {
    && w'.network == w.network && w'.witnessed == w.witnessed
    && |w'.imports| == |w.imports| + 1 && w.imports <= w'.imports
    && w'.imports[|w.imports|].node == n && w'.imports[|w.imports|].block == block
  }

  lemma PassesIffReached(ids: seq<EventId>, found: map<EventId, seq<PublicPair>>, authorities: seq<PublicPair>)
    requires forall e | e in ids :: e in found
    ensures GatePasses(ids, found, authorities) <==>
            forall e | e in ids :: AsU16(|found[e]|) >= Target(|authorities|)
  {}

  /** The gate lets a block through on counts that all reach the target. */
  lemma ReachedGate(cfg: Config, w: World, n: nat, block: Block, counters: map<EventId, nat>)
    requires block.body.Some?
    requires var ids, auths, s := ExtrinsicIds(block.body.value), cfg.authoritiesOf(block.parent), NodeOf(w, n).state;
             && Prepared(s, ids, counters, auths)
             && forall e | e in ids :: AsU16(|s.ops[counters[e]].pc.found|) >= Target(|auths|)
    ensures JustImported(w, TryImport(cfg, w, n, block, counters), n, block)
  {
    var ids, auths := ExtrinsicIds(block.body.value), cfg.authoritiesOf(block.parent);
    PassesIffReached(ids, Found(NodeOf(w, n).state, ids, counters, auths), auths);
  }

  /** With such counts the gate decides by the stored counts. */
  lemma TalliedGate(cfg: Config, w: World, n: nat, block: Block, counters: map<EventId, nat>)
    requires block.body.Some?
    requires AllTallied(NodeOf(w, n).state, ExtrinsicIds(block.body.value), counters, cfg.authoritiesOf(block.parent))
    ensures var st, auths := NodeOf(w, n).state.store, cfg.authoritiesOf(block.parent);
            if forall e | e in ExtrinsicIds(block.body.value) :: ProofCount(st, e, auths) >= Target(|auths|)
            then JustImported(w, TryImport(cfg, w, n, block, counters), n, block)
            else TryImport(cfg, w, n, block, counters) == w
  {
    var ids, auths, s := ExtrinsicIds(block.body.value), cfg.authoritiesOf(block.parent), NodeOf(w, n).state;
    assert Prepared(s, ids, counters, auths);
    PassesIffReached(ids, Found(s, ids, counters, auths), auths);
  }

  lemma {:induction false} NextId(ops: set<nat>) returns (id: nat)
    ensures forall i :: i in ops ==> i < id
  {
    if ops == {} {
      id := 0;
    } else {
      var i :| i in ops;
      var above := NextId(ops - {i});
      id := if i < above then above else i + 1;
      forall j | j in ops ensures j < id {
        assert j == i || j in ops - {i};
      }
    }
  }

  /**
    The protocol's gate is the import queue's: when the counts run undisturbed, the block is
    imported exactly when its check on the same store's bytes lets it through, and otherwise
    nothing changes.
   */
  lemma GateIsImportBlock(cfg: Config, w: World, n: nat, block: Block, codec: ListCodec, data: Data)
    returns (counting: seq<Action>, counters: map<EventId, nat>)
    requires block.body.Some? && Represents(codec, data, NodeOf(w, n).state.store)
    ensures OnlyCounting(counting)
    ensures var w' := Continue(cfg, w, counting);
            && OnlyNode(w, w') && NodeOf(w', n).state.store == NodeOf(w, n).state.store
            && if GateOpen(data, ExtrinsicIds(block.body.value), cfg.authoritiesOf(block.parent))
               then JustImported(w', TryImport(cfg, w', n, block, counters), n, block)
               else TryImport(cfg, w', n, block, counters) == w'
  {
    var ids, auths, st := ExtrinsicIds(block.body.value), cfg.authoritiesOf(block.parent), NodeOf(w, n).state.store;
    var id := NextId(NodeOf(w, n).state.ops.Keys);
    counting, counters := CountAll(cfg, w, n, auths, ids, id);
    TalliedGate(cfg, Continue(cfg, w, counting), n, block, counters);
    forall e | e in ids ensures ReadCount(data, e, auths) == ProofCount(st, e, auths) {
      ReadsRefine(codec, data, st, e, auths);
    }
  }
}
