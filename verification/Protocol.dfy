/**
  The whole protocol in off-chain mode: honest validators witness, anybody may inject messages,
  nodes store what they verify, and blocks are imported through the gate. Every node's storage is
  the concurrent store, so handlers, purges and import checks interleave access by access. Messages
  stay in the network forever, so they may be delivered late, repeatedly or never.
 */
module Protocol {
  import opened Types
  import opened Sequences
  import opened Quorum
  import opened Authorities
  import opened ProofStore
  import opened PalletTypes
  import opened BlockImport
  import CS = ConcurrentStore
  import CC = ConcurrentCount

  /** `honest` are the keys held by honest validators; `authoritiesOf` the lists at parent blocks. */
  datatype Config = Config(
    verify: Verifier,
    honest: set<PublicPair>,
    authoritiesOf: BlockHash -> seq<PublicPair>
  )

  /**
    A gated import: the importing node, the block, the signers counted for each of its events, every
    signature the node's store had held by then, the store itself, and the events whose count was
    covered from its start to the import.
   */
  datatype Import = Import(
    node: nat,
    block: Block,
    found: map<EventId, seq<PublicPair>>,
    held: set<WitnessedEvent>,
    store: Store,
    covered: set<EventId>
  )

  /**
    A node's concurrent store, every signature that store has ever held, and the counts covered
    ever since they started: no purge of the counted event under way meanwhile omitted a counted key.
   */
  datatype Node = Node(state: CS.State, held: set<WitnessedEvent>, covered: set<nat>)

  datatype World = World(
    network: set<WitnessedEvent>,
    witnessed: set<(PublicPair, EventId)>,
    nodes: map<nat, Node>,
    imports: seq<Import>
  )

  const GENESIS := World({}, {}, map[], [])

  datatype Action =
    | Witness(w: WitnessedEvent)
    | Inject(w: WitnessedEvent)
    | Receive(node: nat, id: nat, authorities: seq<PublicPair>, w: WitnessedEvent)
    | BeginPurge(node: nat, id: nat, authorities: seq<PublicPair>, event: EventId)
    | BeginCount(node: nat, id: nat, authorities: seq<PublicPair>, event: EventId)
    | Access(node: nat, id: nat)
    | ImportGated(node: nat, block: Block, counters: map<EventId, nat>)

  function NodeOf(w: World, n: nat): Node {
    if n in w.nodes then w.nodes[n] else Node(CS.State(EMPTY, map[]), {}, {})
  }

  function Contents(st: Store): set<WitnessedEvent> {
    set p | p in st.sigs :: WitnessedEvent(st.sigs[p], p.1, p.0)
  }

  function OnStore(node: Node, a: CS.Action): Node {
    var s := CS.Apply(node.state, a);
    Node(s, node.held + Contents(s.store), StillCovered(node, s))
  }

  function StillCovered(before: Node, s: CS.State): set<nat> {
    set id | id in s.ops && s.ops[id].task.CountTask? && CC.Covered(s, s.ops[id].task)
             && (id in before.state.ops ==> id in before.covered)
  }

  /** Unforgeability: a verifying message under an honest key exists only once its holder witnessed the event. */
  predicate MayInject(cfg: Config, w: World, m: WitnessedEvent) {
    Verifies(cfg.verify, m) && m.pubKey in cfg.honest ==> (m.pubKey, m.eventId) in w.witnessed
  }

  /** The operation is a finished count of the event over the given list. */
  predicate CountFinished(s: CS.State, id: nat, e: EventId, authorities: seq<PublicPair>) {
    id in s.ops && s.ops[id].task == CS.CountTask(e, authorities) && s.ops[id].pc.Counted?
  }

  /** Finished counts exist for all the block's events. */
  predicate Prepared(s: CS.State, ids: seq<EventId>, counters: map<EventId, nat>, authorities: seq<PublicPair>) {
    forall e | e in ids :: e in counters && CountFinished(s, counters[e], e, authorities)
  }

  function Found(s: CS.State, ids: seq<EventId>, counters: map<EventId, nat>, authorities: seq<PublicPair>):
    map<EventId, seq<PublicPair>>
    requires Prepared(s, ids, counters, authorities)
  {
    map e | e in ids :: s.ops[counters[e]].pc.found
  }

  /** The gate lets the block through on these counts. */
  predicate GatePasses(ids: seq<EventId>, found: map<EventId, seq<PublicPair>>, authorities: seq<PublicPair>)
    requires forall e :: e in ids ==> e in found
  {
    Unwitnessed(ids, map e | e in found :: AsU16(|found[e]|), Target(|authorities|)) == []
  }

  function OnNode(w: World, n: nat, a: CS.Action): World {
    w.(nodes := w.nodes[n := OnStore(NodeOf(w, n), a)])
  }

  /** The record of a gated import in the node's present state. */
  function Imported(node: Node, n: nat, block: Block, ids: seq<EventId>, counters: map<EventId, nat>,
                    authorities: seq<PublicPair>): Import
    requires Prepared(node.state, ids, counters, authorities)
  {
    Import(n, block, Found(node.state, ids, counters, authorities), node.held, node.state.store,
           set e | e in ids && counters[e] in node.covered)
  }

  function TryImport(cfg: Config, w: World, n: nat, block: Block, counters: map<EventId, nat>): World {
    if block.body.None? then w
    else
      var ids, auths := ExtrinsicIds(block.body.value), cfg.authoritiesOf(block.parent);
      var node := NodeOf(w, n);
      if Prepared(node.state, ids, counters, auths) && GatePasses(ids, Found(node.state, ids, counters, auths), auths)
      then w.(imports := w.imports + [Imported(node, n, block, ids, counters, auths)])
      else w
  }

  function Apply(cfg: Config, w: World, a: Action): World {
    match a
    case Witness(m) =>
      if m.pubKey in cfg.honest then
        w.(network := w.network + {m}, witnessed := w.witnessed + {(m.pubKey, m.eventId)})
      else w
    case Inject(m) =>
      if MayInject(cfg, w, m) then w.(network := w.network + {m}) else w
    case Receive(n, id, auths, m) =>
      if m in w.network && VerifyOrigin(cfg.verify, auths, m).Ok? then OnNode(w, n, CS.Spawn(id, CS.AddTask(m))) else w
    case BeginPurge(n, id, auths, e) => OnNode(w, n, CS.Spawn(id, CS.PurgeTask(e, auths)))
    case BeginCount(n, id, auths, e) => OnNode(w, n, CS.Spawn(id, CS.CountTask(e, auths)))
    case Access(n, id) => OnNode(w, n, CS.Run(id))
    case ImportGated(n, block, counters) => TryImport(cfg, w, n, block, counters)
  }

  function After(cfg: Config, actions: seq<Action>): World {
    if actions == [] then GENESIS
    else Apply(cfg, After(cfg, actions[..|actions| - 1]), actions[|actions| - 1])
  }

  // ----- Soundness of what nodes store and count -----

  predicate Attested(cfg: Config, network: set<WitnessedEvent>, m: WitnessedEvent) {
    m in network && Verifies(cfg.verify, m)
  }

  /** Among the messages is a verifying one of the signer for the event. */
  ghost predicate Signed(cfg: Config, messages: set<WitnessedEvent>, e: EventId, k: PublicPair) {
    exists m :: Attested(cfg, messages, m) && m.eventId == e && m.pubKey == k
  }

  function FoundBy(pc: CS.Pc): seq<PublicPair> {
    if pc.ReadNext? || pc.Counted? then pc.found else []
  }

  ghost predicate OpSound(cfg: Config, network: set<WitnessedEvent>, held: set<WitnessedEvent>, op: CS.Op) {
    match op.task
    case AddTask(m) => Attested(cfg, network, m)
    case PurgeTask(_, _) => true
    case CountTask(e, vs) =>
      && (forall k :: k in FoundBy(op.pc) ==> Signed(cfg, held, e, k))
      && CountShape(op.pc, vs)
  }

  /** The found keys are validators, and none twice if the list has none twice. */
  ghost predicate CountShape(pc: CS.Pc, vs: seq<PublicPair>) {
    var found, upTo := FoundBy(pc), if pc.ReadNext? && pc.next <= |vs| then pc.next else |vs|;
    && |found| <= upTo
    && (forall k :: k in found ==> k in vs[..upTo])
    && (Distinct(vs) ==> Distinct(found))
  }

  ghost predicate NodeSound(cfg: Config, network: set<WitnessedEvent>, node: Node) {
    && (forall m :: m in node.held ==> Attested(cfg, network, m))
    && Contents(node.state.store) <= node.held
    && (forall id :: id in node.state.ops ==> OpSound(cfg, network, node.held, node.state.ops[id]))
    && (forall id :: id in node.covered ==> CoveredSound(node.state, id))
  }

  /** A covered count: every key it has found, none twice, is still stored. */
  ghost predicate CoveredSound(s: CS.State, id: nat) {
    && id in s.ops && s.ops[id].task.CountTask? && CC.Covered(s, s.ops[id].task)
    && (Distinct(s.ops[id].task.validators) ==> CC.Bracketed(s, id, s.ops[id].task, {}))
  }

  lemma CoveredStep(node: Node, a: CS.Action, id: nat)
    requires id in OnStore(node, a).covered && (id in node.covered ==> CoveredSound(node.state, id))
    ensures CoveredSound(OnStore(node, a).state, id)
  {
    if id in node.state.ops {
      var t := node.state.ops[id].task;
      if Distinct(t.validators) {
        CC.BracketStep(node.state, a, id, t, {});
      }
    }
  }

  lemma CountShapeStep(pc: CS.Pc, vs: seq<PublicPair>, present: bool)
    requires pc.ReadNext? && pc.next < |vs| && CountShape(pc, vs)
    ensures CountShape(CS.ReadNext(pc.next + 1, if present then pc.found + [vs[pc.next]] else pc.found), vs)
  {
    if present && Distinct(vs) {
      assert vs[pc.next] !in pc.found;
    }
  }

  lemma OpStep(cfg: Config, network: set<WitnessedEvent>, node: Node, id: nat)
    requires NodeSound(cfg, network, node) && id in node.state.ops
    ensures OpSound(cfg, network, node.held, CS.Apply(node.state, CS.Run(id)).ops[id])
  {
    var s, op := node.state, node.state.ops[id];
    if op.task.CountTask? && op.pc.ReadNext? {
      var e, vs, next := op.task.counted, op.task.validators, op.pc.next;
      if next < |vs| {
        CountShapeStep(op.pc, vs, (e, vs[next]) in s.store.sigs);
        if (e, vs[next]) in s.store.sigs {
          var m := WitnessedEvent(s.store.sigs[(e, vs[next])], vs[next], e);
          assert Attested(cfg, network, m);
        }
      }
    }
  }

  /** An access writes nothing but the signature of an attested add. */
  lemma WritesAttested(cfg: Config, network: set<WitnessedEvent>, node: Node, a: CS.Action, m: WitnessedEvent)
    requires NodeSound(cfg, network, node)
    requires m in Contents(CS.Apply(node.state, a).store)
    ensures Attested(cfg, network, m)
  {}

  lemma NodeStep(cfg: Config, network: set<WitnessedEvent>, node: Node, a: CS.Action)
    requires NodeSound(cfg, network, node)
    requires a.Spawn? && a.task.AddTask? ==> Attested(cfg, network, a.task.w)
    ensures NodeSound(cfg, network, OnStore(node, a))
  {
    var node' := OnStore(node, a);
    forall m | m in node'.held ensures Attested(cfg, network, m) {
      if m !in node.held {
        WritesAttested(cfg, network, node, a, m);
      }
    }
    forall id | id in node'.state.ops ensures OpSound(cfg, network, node'.held, node'.state.ops[id]) {
      if id in node.state.ops && a == CS.Run(id) {
        OpStep(cfg, network, node, id);
      }
    }
    forall id | id in node'.covered ensures CoveredSound(node'.state, id) {
      CoveredStep(node, a, id);
    }
  }

  /** Every verifying message under an honest key comes from its holder witnessing the event. */
  ghost predicate Unforged(cfg: Config, w: World) {
    forall m | Attested(cfg, w.network, m) && m.pubKey in cfg.honest :: (m.pubKey, m.eventId) in w.witnessed
  }

  ghost predicate NodesSound(cfg: Config, w: World) {
    forall n :: n in w.nodes ==> NodeSound(cfg, w.network, w.nodes[n])
  }

  /** The counted signers of an imported event reach the target, and are signing authorities, none twice. */
  ghost predicate QuorumFound(cfg: Config, i: Import, e: EventId) {
    var auths := cfg.authoritiesOf(i.block.parent);
    && e in i.found
    && AsU16(|i.found[e]|) >= Target(|auths|)
    && |i.found[e]| <= |auths|
    && (Distinct(auths) ==> Distinct(i.found[e]))
    && forall k :: k in i.found[e] ==> k in auths && Signed(cfg, i.held, e, k)
  }

  /** At the import, the store held a threshold of the authorities' signatures for the event. */
  predicate QuorumStored(cfg: Config, i: Import, e: EventId) {
    var auths := cfg.authoritiesOf(i.block.parent);
    |SetOf(auths) * StoredSigners(i.store, e)| >= Threshold(|auths|)
  }

  ghost predicate ImportSound(cfg: Config, network: set<WitnessedEvent>, i: Import) {
    && Contents(i.store) <= i.held
    && (forall m :: m in i.held ==> Attested(cfg, network, m))
    && i.block.body.Some?
    && (forall e | e in ExtrinsicIds(i.block.body.value) :: QuorumFound(cfg, i, e))
    && var auths := cfg.authoritiesOf(i.block.parent);
       Distinct(auths) && |auths| <= CAST_LIMIT ==> forall e | e in i.covered :: QuorumStored(cfg, i, e)
  }

  ghost predicate ImportsSound(cfg: Config, w: World) {
    forall i :: i in w.imports ==> ImportSound(cfg, w.network, i)
  }

  ghost predicate Invariant(cfg: Config, w: World) {
    Unforged(cfg, w) && NodesSound(cfg, w) && ImportsSound(cfg, w)
  }

  lemma NetworkGrows(cfg: Config, w: World, w': World)
    requires NodesSound(cfg, w) && ImportsSound(cfg, w)
    requires w.network <= w'.network && w'.nodes == w.nodes && w'.imports == w.imports
    ensures NodesSound(cfg, w') && ImportsSound(cfg, w')
  {}

  lemma OnNodeSound(cfg: Config, w: World, n: nat, a: CS.Action)
    requires Invariant(cfg, w)
    requires a.Spawn? && a.task.AddTask? ==> Attested(cfg, w.network, a.task.w)
    ensures Invariant(cfg, OnNode(w, n, a))
  {
    NodeStep(cfg, w.network, NodeOf(w, n), a);
  }

  /** The keys a covered count found are all stored when it is used. */
  lemma CoveredCountStored(s: CS.State, id: nat, e: EventId, authorities: seq<PublicPair>)
    requires CoveredSound(s, id) && CountFinished(s, id, e, authorities)
    requires Distinct(authorities) && |authorities| <= CAST_LIMIT
    requires AsU16(|s.ops[id].pc.found|) >= Target(|authorities|)
    ensures |SetOf(authorities) * StoredSigners(s.store, e)| >= Threshold(|authorities|)
  {
    var found := s.ops[id].pc.found;
    DistinctCardinality(found);
    SubsetCardinality(SetOf(found), SetOf(authorities) * StoredSigners(s.store, e));
    AcceptedIsQuorum(|found|, |authorities|);
  }

  /** A block that passes the gate carries a quorum for each of its events. */
  lemma GateIsSound(cfg: Config, network: set<WitnessedEvent>, node: Node, n: nat, block: Block,
                    counters: map<EventId, nat>)
    requires NodeSound(cfg, network, node) && block.body.Some?
    requires var s, ids, auths := node.state, ExtrinsicIds(block.body.value), cfg.authoritiesOf(block.parent);
             Prepared(s, ids, counters, auths) && GatePasses(ids, Found(s, ids, counters, auths), auths)
    ensures var ids, auths := ExtrinsicIds(block.body.value), cfg.authoritiesOf(block.parent);
            ImportSound(cfg, network, Imported(node, n, block, ids, counters, auths))
  {
    var s, ids, auths := node.state, ExtrinsicIds(block.body.value), cfg.authoritiesOf(block.parent);
    var i := Imported(node, n, block, ids, counters, auths);
    forall e | e in ids ensures QuorumFound(cfg, i, e) {}
    if Distinct(auths) && |auths| <= CAST_LIMIT {
      forall e | e in i.covered ensures QuorumStored(cfg, i, e) {
        CoveredCountStored(s, counters[e], e, auths);
      }
    }
  }

  lemma InvariantStep(cfg: Config, w: World, a: Action)
    requires Invariant(cfg, w)
    ensures Invariant(cfg, Apply(cfg, w, a))
  {
    var w' := Apply(cfg, w, a);
    match a {
      case Witness(m) => NetworkGrows(cfg, w, w');
      case Inject(m) => NetworkGrows(cfg, w, w');
      case Receive(n, id, auths, m) =>
        if m in w.network && VerifyOrigin(cfg.verify, auths, m).Ok? {
          OnNodeSound(cfg, w, n, CS.Spawn(id, CS.AddTask(m)));
        }
      case BeginPurge(n, id, auths, e) => OnNodeSound(cfg, w, n, CS.Spawn(id, CS.PurgeTask(e, auths)));
      case BeginCount(n, id, auths, e) => OnNodeSound(cfg, w, n, CS.Spawn(id, CS.CountTask(e, auths)));
      case Access(n, id) => OnNodeSound(cfg, w, n, CS.Run(id));
      case ImportGated(n, block, counters) =>
        if w' != w {
          GateIsSound(cfg, w.network, NodeOf(w, n), n, block, counters);
        }
    }
  }

  /** Over every run, stored signatures verify, none is forged, and every gated import had its quorums. */
  lemma {:induction false} RunsSound(cfg: Config, actions: seq<Action>)
    ensures Invariant(cfg, After(cfg, actions))
  {
    if actions != [] {
      RunsSound(cfg, actions[..|actions| - 1]);
      InvariantStep(cfg, After(cfg, actions[..|actions| - 1]), actions[|actions| - 1]);
    }
  }

  /** Every purge of the event the node begins in the run keeps all these keys. */
  ghost predicate PurgesKeep(actions: seq<Action>, n: nat, e: EventId, authorities: seq<PublicPair>) {
    forall a | a in actions && a.BeginPurge? && a.node == n && a.event == e ::
      SetOf(authorities) <= SetOf(a.authorities)
  }

  /** So every count of the event over these keys is covered, and the purges keep covering it. */
  ghost predicate KeptCovered(node: Node, e: EventId, authorities: seq<PublicPair>) {
    forall id | id in node.state.ops ::
      && (node.state.ops[id].task.PurgeTask? && node.state.ops[id].task.purged == e ==>
            SetOf(authorities) <= SetOf(node.state.ops[id].task.validators))
      && (node.state.ops[id].task == CS.CountTask(e, authorities) ==> id in node.covered)
  }

  lemma KeptCoveredStep(node: Node, a: CS.Action, e: EventId, authorities: seq<PublicPair>)
    requires KeptCovered(node, e, authorities)
    requires a.Spawn? && a.task.PurgeTask? && a.task.purged == e ==> SetOf(authorities) <= SetOf(a.task.validators)
    ensures KeptCovered(OnStore(node, a), e, authorities)
  {}

  lemma KeptCoveredApply(cfg: Config, w: World, a: Action, n: nat, e: EventId, authorities: seq<PublicPair>)
    requires KeptCovered(NodeOf(w, n), e, authorities) && PurgesKeep([a], n, e, authorities)
    ensures KeptCovered(NodeOf(Apply(cfg, w, a), n), e, authorities)
  {
    match a {
      case Receive(_, id, _, m) => KeptCoveredStep(NodeOf(w, n), CS.Spawn(id, CS.AddTask(m)), e, authorities);
      case BeginPurge(x, id, vs, p) =>
        if x == n {
          KeptCoveredStep(NodeOf(w, n), CS.Spawn(id, CS.PurgeTask(p, vs)), e, authorities);
        }
      case BeginCount(_, id, vs, c) => KeptCoveredStep(NodeOf(w, n), CS.Spawn(id, CS.CountTask(c, vs)), e, authorities);
      case Access(_, id) => KeptCoveredStep(NodeOf(w, n), CS.Run(id), e, authorities);
      case _ =>
    }
  }

  lemma {:induction false} PurgesKeepCover(cfg: Config, actions: seq<Action>, n: nat, e: EventId,
                                           authorities: seq<PublicPair>)
    requires PurgesKeep(actions, n, e, authorities)
    ensures KeptCovered(NodeOf(After(cfg, actions), n), e, authorities)
    ensures forall i | i in After(cfg, actions).imports ::
              i.node == n && cfg.authoritiesOf(i.block.parent) == authorities && Contains(i, e) ==> e in i.covered
  {
    if actions != [] {
      var init, a := actions[..|actions| - 1], actions[|actions| - 1];
      PurgesKeepCover(cfg, init, n, e, authorities);
      KeptCoveredApply(cfg, After(cfg, init), a, n, e, authorities);
    }
  }

  ghost predicate Contains(i: Import, e: EventId) {
    i.block.body.Some? && e in ExtrinsicIds(i.block.body.value)
  }

  /**
    Whenever the gate lets a block through in any run, the importing node's store at that moment
    holds verifying signatures of a threshold of the parent's authorities for each event whose
    purges by the node keep those authorities.
   */
  lemma ImportedWithStoredQuorum(cfg: Config, actions: seq<Action>, n: nat, block: Block,
                                 counters: map<EventId, nat>, e: EventId)
    requires block.body.Some? && e in ExtrinsicIds(block.body.value)
    requires var auths := cfg.authoritiesOf(block.parent);
             Distinct(auths) && |auths| <= CAST_LIMIT && PurgesKeep(actions, n, e, auths)
    requires TryImport(cfg, After(cfg, actions), n, block, counters) != After(cfg, actions)
    ensures var st, auths := NodeOf(After(cfg, actions), n).state.store, cfg.authoritiesOf(block.parent);
            && |SetOf(auths) * StoredSigners(st, e)| >= Threshold(|auths|)
            && forall k | k in StoredSigners(st, e) :: Signed(cfg, Contents(st), e, k)
  {
    var auths, node := cfg.authoritiesOf(block.parent), NodeOf(After(cfg, actions), n);
    RunsSound(cfg, actions);
    PurgesKeepCover(cfg, actions, n, e, auths);
    CoveredCountStored(node.state, counters[e], e, auths);
    StoredAreSigned(cfg, After(cfg, actions).network, node.state.store, node.held, e);
  }

  lemma StoredAreSigned(cfg: Config, network: set<WitnessedEvent>, st: Store, held: set<WitnessedEvent>, e: EventId)
    requires Contents(st) <= held && forall m :: m in held ==> Attested(cfg, network, m)
    ensures forall k | k in StoredSigners(st, e) :: Signed(cfg, Contents(st), e, k)
  {
    forall k | k in StoredSigners(st, e) ensures Signed(cfg, Contents(st), e, k) {
      var m := WitnessedEvent(st.sigs[(e, k)], k, e);
      assert Attested(cfg, network, m);
    }
  }

  // ----- Agreement -----

  /** No honest validator has witnessed both events. */
  ghost predicate Conflicting(cfg: Config, w: World, a: EventId, b: EventId) {
    forall k | k in cfg.honest :: !((k, a) in w.witnessed && (k, b) in w.witnessed)
  }

  /** An imported event has a threshold of authorities that are faulty or witnessed it. */
  lemma ImportedHasQuorum(cfg: Config, w: World, i: Import, e: EventId)
    requires Invariant(cfg, w) && i in w.imports && Contains(i, e)
    requires var auths := cfg.authoritiesOf(i.block.parent); Distinct(auths) && |auths| <= CAST_LIMIT
    ensures var auths := cfg.authoritiesOf(i.block.parent);
            && e in i.found
            && SetOf(i.found[e]) <= SetOf(auths)
            && |SetOf(i.found[e])| >= Threshold(|SetOf(auths)|)
            && forall k | k in SetOf(i.found[e]) && k in cfg.honest :: (k, e) in w.witnessed
  {
    var auths := cfg.authoritiesOf(i.block.parent);
    DistinctCardinality(i.found[e]);
    DistinctCardinality(auths);
    AcceptedIsQuorum(|i.found[e]|, |auths|);
  }

  /**
    Agreement: over every run, if no honest validator witnesses both events and at most a third of
    the (shared, duplicate-free) authority list is faulty, no two gated imports, on any nodes,
    contain one event each.
   */
  lemma Agreement(cfg: Config, actions: seq<Action>, a: EventId, b: EventId, i: Import, j: Import)
    requires var w := After(cfg, actions);
             Conflicting(cfg, w, a, b) && i in w.imports && j in w.imports
    requires var auths := cfg.authoritiesOf(i.block.parent);
             && auths == cfg.authoritiesOf(j.block.parent)
             && Distinct(auths) && |auths| <= CAST_LIMIT
             && |SetOf(auths) - cfg.honest| <= |auths| / 3
    ensures !(Contains(i, a) && Contains(j, b))
  {
    var w, all := After(cfg, actions), SetOf(cfg.authoritiesOf(i.block.parent));
    RunsSound(cfg, actions);
    if Contains(i, a) && Contains(j, b) {
      ImportedHasQuorum(cfg, w, i, a);
      ImportedHasQuorum(cfg, w, j, b);
      var qa, qb := SetOf(i.found[a]), SetOf(j.found[b]);
      QuorumsIntersect(all, qa, qb);
      DistinctCardinality(cfg.authoritiesOf(i.block.parent));
      SubsetCardinality(qa * qb, all - cfg.honest);
    }
  }
}

/** From imported blocks to the pallet's record, in off-chain mode. */
module EndToEnd {
  import opened Types
  import opened Sequences
  import opened Quorum
  import opened ProofStore
  import opened PalletTypes
  import opened Protocol
  import OffChainPallet

  /** A chain of blocks all imported by the node through the gate. */
  ghost predicate ImportedChain(w: World, node: nat, chain: seq<Import>) {
    forall i | i in chain :: i in w.imports && i.node == node && i.block.body.Some?
  }

  /** The pallet calls of the chain: block numbers start at 1, above the genesis block. */
  function Calls(chain: seq<Import>): seq<OffChainPallet.Block>
    requires forall i | i in chain :: i.block.body.Some?
  {
    seq(|chain|, n requires 0 <= n < |chain| =>
      assert chain[n] in chain;
      OffChainPallet.Block(n + 1, ExtrinsicIds(chain[n].block.body.value)))
  }

  /**
    The evidence for an imported event. At least floor(2n/3)+1 distinct keys among the n authorities
    of the block's parent had been counted, each with a verifying signature that the node's own
    store had held; and if the event's count was covered, which it was if every purge of the event
    by the node kept those authorities, at least that many of them had a verifying signature in
    the store at the moment of the import.
   */
  ghost predicate Witnessed(cfg: Config, actions: seq<Action>, i: Import, e: EventId) {
    var auths := cfg.authoritiesOf(i.block.parent);
    && e in i.found
    && Distinct(i.found[e]) && |i.found[e]| >= Threshold(|auths|)
    && (forall k | k in i.found[e] :: k in auths && Signed(cfg, i.held, e, k))
    && (e in i.covered ==> QuorumStored(cfg, i, e))
    && (forall k | k in StoredSigners(i.store, e) :: Signed(cfg, Contents(i.store), e, k))
    && (PurgesKeep(actions, i.node, e, auths) ==> e in i.covered)
  }

  lemma ImportedWasWitnessed(cfg: Config, actions: seq<Action>, i: Import, e: EventId)
    requires i in After(cfg, actions).imports && Contains(i, e)
    requires var auths := cfg.authoritiesOf(i.block.parent); Distinct(auths) && |auths| <= CAST_LIMIT
    ensures Witnessed(cfg, actions, i, e)
  {
    var auths := cfg.authoritiesOf(i.block.parent);
    RunsSound(cfg, actions);
    AcceptedIsQuorum(|i.found[e]|, |auths|);
    StoredAreSigned(cfg, After(cfg, actions).network, i.store, i.held, e);
    if PurgesKeep(actions, i.node, e, auths) {
      PurgesKeepCover(cfg, actions, i.node, e, auths);
    }
  }

  /**
    Every event in the pallet's record is recorded at the number of the first block of the chain
    that names it, and that block was imported with evidence for the event.
   */
  lemma RecordedEventsWereWitnessed(cfg: Config, actions: seq<Action>, node: nat, chain: seq<Import>, e: EventId)
    requires ImportedChain(After(cfg, actions), node, chain)
    requires forall i | i in chain ::
               var auths := cfg.authoritiesOf(i.block.parent); Distinct(auths) && |auths| <= CAST_LIMIT
    requires e in OffChainPallet.StreamsAfter(Calls(chain))
    ensures exists n ::
              && OffChainPallet.RecordedAt(Calls(chain), n, e)
              && OffChainPallet.StreamsAfter(Calls(chain))[e] == n + 1
              && chain[n].node == node
              && Witnessed(cfg, actions, chain[n], e)
  {
    OffChainPallet.NumbersExecuted(Calls(chain), e);
    var n :| OffChainPallet.RecordedAt(Calls(chain), n, e);
    ImportedWasWitnessed(cfg, actions, chain[n], e);
  }
}
