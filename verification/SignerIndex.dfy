/**
  The signer index under concurrency: no stored signature is ever lost from its event's signer
  list as long as the purges that would drop its key do not overlap, however many others do.
 */
module SignerIndex {
  import opened Types
  import opened Sequences
  import opened ProofStore
  import opened ConcurrentStore

  predicate Purging(op: Op) {
    op.task.PurgeTask? && op.pc != Finished
  }

  /** An unfinished purge of the event under a list without the key. */
  predicate Omits(op: Op, e: EventId, k: PublicPair) {
    Purging(op) && op.task.purged == e && k !in op.task.validators
  }

  ghost predicate OneOmitter(s: State, e: EventId, k: PublicPair) {
    forall i, j | i in s.ops && j in s.ops && Omits(s.ops[i], e, k) && Omits(s.ops[j], e, k) :: i == j
  }

  /** In every state of the run. */
  ghost predicate OneOmitterThroughout(start: Store, actions: seq<Action>, e: EventId, k: PublicPair) {
    && OneOmitter(After(start, actions), e, k)
    && (actions != [] ==> OneOmitterThroughout(start, actions[..|actions| - 1], e, k))
  }

  /** An add that has stored its signature and not yet won its compare-and-set. */
  predicate Unlisted(op: Op, e: EventId, k: PublicPair) {
    && op.task.AddTask? && op.task.w.eventId == e && op.task.w.pubKey == k
    && (op.pc.ReadIndex? || op.pc.Swap?)
  }

  ghost predicate InFlight(s: State, e: EventId, k: PublicPair) {
    exists id :: id in s.ops && Unlisted(s.ops[id], e, k)
  }

  /** A stored signature of the key is in the signer list, or its add is still in flight. */
  ghost predicate Tracked(s: State, e: EventId, k: PublicPair) {
    (e, k) in s.store.sigs ==> k in SignerList(s.store, e) || InFlight(s, e, k)
  }

  ghost predicate Cleared(s: State, e: EventId, k: PublicPair) {
    (e, k) in s.store.sigs ==> InFlight(s, e, k)
  }

  /** How much of the list it read a purge has already gone through. */
  function Passed(pc: Pc): nat
    requires pc.RemoveNext? || pc.Swap?
  {
    if pc.RemoveNext? then pc.next else |ListOf(pc.existing)|
  }

  function Occurrences(l: seq<PublicPair>, k: PublicPair): nat {
    multiset(l)[k]
  }

  /**
    The current list names the key at least as often as the list an omitting purge read; while it
    names it just as often and the purge has passed it, the key has no signature, or one whose add
    is still in flight.
   */
  ghost predicate OmitterInvariant(s: State, op: Op, e: EventId, k: PublicPair) {
    Omits(op, e, k) && (op.pc.RemoveNext? || op.pc.Swap?) ==>
      var l, now := ListOf(op.pc.existing), SignerList(s.store, e);
      && Passed(op.pc) <= |l|
      && Occurrences(l, k) <= Occurrences(now, k)
      && (Occurrences(l, k) == Occurrences(now, k) && k in l[..Passed(op.pc)] ==> Cleared(s, e, k))
  }

  ghost predicate KeyInvariant(s: State, e: EventId, k: PublicPair) {
    && Tracked(s, e, k)
    && forall id :: id in s.ops ==> OmitterInvariant(s, s.ops[id], e, k)
  }

  /** The action is a winning compare-and-set on the event. */
  predicate WinsOn(s: State, a: Action, e: EventId) {
    a.Run? && a.id in s.ops && EventOf(s.ops[a.id].task) == e && Wins(s.store, s.ops[a.id])
  }

  /** In-flight adds stay in flight unless they win. */
  lemma InFlightKept(s: State, a: Action, e: EventId, k: PublicPair)
    requires InFlight(s, e, k)
    requires !(WinsOn(s, a, e) && s.ops[a.id].task.AddTask? && s.ops[a.id].task.w.pubKey == k)
    ensures InFlight(Apply(s, a), e, k)
  {
    var id :| id in s.ops && Unlisted(s.ops[id], e, k);
    assert Unlisted(Apply(s, a).ops[id], e, k);
  }

  /** A signature present after an action that wins nothing was there before or has just been set by its add. */
  lemma QuietSignature(s: State, a: Action, e: EventId, k: PublicPair)
    requires AllWellTyped(s) && !WinsOn(s, a, e) && (e, k) in Apply(s, a).store.sigs
    ensures (e, k) in s.store.sigs || InFlight(Apply(s, a), e, k)
    ensures InFlight(s, e, k) ==> InFlight(Apply(s, a), e, k)
  {
    if InFlight(s, e, k) {
      InFlightKept(s, a, e, k);
    } else if (e, k) !in s.store.sigs {
      assert Unlisted(Apply(s, a).ops[a.id], e, k);
    }
  }

  /** Actions that do not touch the event's list: spawning, setting, reading, removing and failing. */
  lemma QuietStep(s: State, a: Action, e: EventId, k: PublicPair)
    requires AllWellTyped(s) && KeyInvariant(s, e, k) && !WinsOn(s, a, e)
    ensures KeyInvariant(Apply(s, a), e, k)
  {
    var s' := Apply(s, a);
    IndexChange(s, a, e);
    if (e, k) in s'.store.sigs {
      QuietSignature(s, a, e, k);
    }
    forall id | id in s'.ops ensures OmitterInvariant(s', s'.ops[id], e, k) {
      if id in s.ops {
        QuietOmitter(s, a, id, e, k);
      }
    }
  }

  lemma QuietOmitter(s: State, a: Action, id: nat, e: EventId, k: PublicPair)
    requires AllWellTyped(s) && id in s.ops && OmitterInvariant(s, s.ops[id], e, k) && !WinsOn(s, a, e)
    requires Lookup(Apply(s, a).store.index, e) == Lookup(s.store.index, e)
    requires Cleared(s, e, k) ==> Cleared(Apply(s, a), e, k)
    ensures OmitterInvariant(Apply(s, a), Apply(s, a).ops[id], e, k)
  {
    var op := s.ops[id];
    if a == Run(id) && Omits(op, e, k) && op.pc.RemoveNext? {
      var l, next := ListOf(op.pc.existing), op.pc.next;
      if next < |l| {
        assert l[..next + 1] == l[..next] + [l[next]];
      } else {
        assert l[..next] == l;
      }
    }
  }

  /** A winning add extends the list: its own key occurs once more, the others as often as before. */
  lemma AddWins(s: State, id: nat, e: EventId, k: PublicPair)
    requires KeyInvariant(s, e, k) && WinsOn(s, Run(id), e) && s.ops[id].task.AddTask?
    ensures KeyInvariant(Apply(s, Run(id)), e, k)
  {
    var s' := Apply(s, Run(id));
    assert SignerList(s'.store, e) == SignerList(s.store, e) + [s.ops[id].task.w.pubKey];
    if s.ops[id].task.w.pubKey != k && InFlight(s, e, k) {
      InFlightKept(s, Run(id), e, k);
    }
    forall j | j in s'.ops ensures OmitterInvariant(s', s'.ops[j], e, k) {
      if j != id {
        assert OmitterInvariant(s, s.ops[j], e, k);
      }
    }
  }

  lemma {:induction false} FilterOccurrences(l: seq<PublicPair>, vs: seq<PublicPair>, k: PublicPair)
    ensures Occurrences(Filter(l, vs), k) == if k in vs then Occurrences(l, k) else 0
  {
    if l != [] {
      FilterOccurrences(l[1..], vs, k);
      assert l == [l[0]] + l[1..];
    }
  }

  /** A winning purge that keeps the key leaves its occurrences as they are. */
  lemma KeepingPurgeWins(s: State, id: nat, e: EventId, k: PublicPair)
    requires KeyInvariant(s, e, k) && WinsOn(s, Run(id), e)
    requires s.ops[id].task.PurgeTask? && k in s.ops[id].task.validators
    ensures KeyInvariant(Apply(s, Run(id)), e, k)
  {
    var s' := Apply(s, Run(id));
    FilterOccurrences(SignerList(s.store, e), s.ops[id].task.validators, k);
    if InFlight(s, e, k) {
      InFlightKept(s, Run(id), e, k);
    }
    forall j | j in s'.ops ensures OmitterInvariant(s', s'.ops[j], e, k) {
      if j != id {
        assert OmitterInvariant(s, s.ops[j], e, k);
      }
    }
  }

  /** A winning purge that omits the key drops it only if its signature is gone or in flight. */
  lemma OmittingPurgeWins(s: State, id: nat, e: EventId, k: PublicPair)
    requires KeyInvariant(s, e, k) && OneOmitter(s, e, k) && WinsOn(s, Run(id), e)
    requires s.ops[id].task.PurgeTask? && k !in s.ops[id].task.validators
    ensures KeyInvariant(Apply(s, Run(id)), e, k) && Cleared(Apply(s, Run(id)), e, k)
  {
    assert OmitterInvariant(s, s.ops[id], e, k);
    if InFlight(s, e, k) {
      InFlightKept(s, Run(id), e, k);
    }
    var l := ListOf(s.ops[id].pc.existing);
    assert l[..|l|] == l;
  }

  lemma KeyInvariantStep(s: State, a: Action, e: EventId, k: PublicPair)
    requires AllWellTyped(s) && KeyInvariant(s, e, k) && OneOmitter(s, e, k)
    ensures KeyInvariant(Apply(s, a), e, k)
  {
    if !WinsOn(s, a, e) {
      QuietStep(s, a, e, k);
    } else if s.ops[a.id].task.AddTask? {
      AddWins(s, a.id, e, k);
    } else if k in s.ops[a.id].task.validators {
      KeepingPurgeWins(s, a.id, e, k);
    } else {
      OmittingPurgeWins(s, a.id, e, k);
    }
  }

  /**
    Key by key: in every run in which no two purges that omit the key ever overlap, a stored
    signature of the key is in the event's signer list or belongs to an add still in flight.
   */
  lemma {:induction false} StoredSignatureTracked(start: Store, actions: seq<Action>, e: EventId, k: PublicPair)
    requires Indexed(start) && OneOmitterThroughout(start, actions, e, k)
    ensures KeyInvariant(After(start, actions), e, k)
  {
    if actions != [] {
      var before := actions[..|actions| - 1];
      StoredSignatureTracked(start, before, e, k);
      RunsWellTyped(start, before);
      KeyInvariantStep(After(start, before), actions[|actions| - 1], e, k);
    }
  }

  /** The operation returns in this step. */
  predicate Returns(s: State, a: Action, id: nat) {
    id in s.ops && s.ops[id].pc != Finished && Apply(s, a).ops[id].pc == Finished
  }

  /** An operation returns only by winning its compare-and-set, which writes the list it computed. */
  lemma ReturnsByWinning(s: State, a: Action, id: nat)
    requires Returns(s, a, id)
    ensures a == Run(id) && Wins(s.store, s.ops[id])
    ensures Lookup(Apply(s, a).store.index, EventOf(s.ops[id].task)) ==
            Some(Replacement(s.ops[id].task, Lookup(s.store.index, EventOf(s.ops[id].task))))
  {}

  /**
    When a purge returns, the event's list names validators only, and a key it omits, and no
    overlapping purge omits, has no signature or one whose add is still in flight.
   */
  lemma PurgeLeavesOnlyInFlight(start: Store, actions: seq<Action>, a: Action, id: nat, k: PublicPair)
    requires Indexed(start)
    requires var s := After(start, actions);
             && Returns(s, a, id) && s.ops[id].task.PurgeTask? && k !in s.ops[id].task.validators
             && OneOmitterThroughout(start, actions, s.ops[id].task.purged, k)
    ensures var t, s' := After(start, actions).ops[id].task, After(start, actions + [a]);
            && (forall x | x in SignerList(s'.store, t.purged) :: x in t.validators)
            && Cleared(s', t.purged, k)
  {
    var s := After(start, actions);
    assert (actions + [a])[..|actions|] == actions;
    ReturnsByWinning(s, a, id);
    StoredSignatureTracked(start, actions, s.ops[id].task.purged, k);
    OmittingPurgeWins(s, id, s.ops[id].task.purged, k);
  }

  /** When an add returns, its key is the last in the event's list, after those listed before. */
  lemma AddReturnsListed(start: Store, actions: seq<Action>, a: Action, id: nat)
    requires Returns(After(start, actions), a, id) && After(start, actions).ops[id].task.AddTask?
    ensures var s, s' := After(start, actions), After(start, actions + [a]);
            var w := s.ops[id].task.w;
            SignerList(s'.store, w.eventId) == SignerList(s.store, w.eventId) + [w.pubKey]
  {
    assert (actions + [a])[..|actions|] == actions;
    ReturnsByWinning(After(start, actions), a, id);
  }

  // ----- One purge at a time -----

  ghost predicate OnePurger(s: State) {
    forall i, j | i in s.ops && j in s.ops && Purging(s.ops[i]) && Purging(s.ops[j]) ::
      EventOf(s.ops[i].task) == EventOf(s.ops[j].task) ==> i == j
  }

  ghost predicate OnePurgerThroughout(start: Store, actions: seq<Action>) {
    && OnePurger(After(start, actions))
    && (actions != [] ==> OnePurgerThroughout(start, actions[..|actions| - 1]))
  }

  lemma {:induction false} OnePurgerOmitsAlone(start: Store, actions: seq<Action>, e: EventId, k: PublicPair)
    requires OnePurgerThroughout(start, actions)
    ensures OneOmitterThroughout(start, actions, e, k)
  {
    if actions != [] {
      OnePurgerOmitsAlone(start, actions[..|actions| - 1], e, k);
    }
  }

  /**
    In particular, with at most one unfinished purge per event, every stored signature is always in
    its event's signer list or belongs to an add still in flight.
   */
  lemma StoredSignaturesTracked(start: Store, actions: seq<Action>)
    requires Indexed(start) && OnePurgerThroughout(start, actions)
    ensures forall e, k :: KeyInvariant(After(start, actions), e, k)
  {
    forall e, k ensures KeyInvariant(After(start, actions), e, k) {
      OnePurgerOmitsAlone(start, actions, e, k);
      StoredSignatureTracked(start, actions, e, k);
    }
  }

  // ----- Overlapping purges -----

  /** A purge runs up to its compare-and-set; a second purge and an add then run to their ends. */
  function OverlappingPurges(w: WitnessedEvent, t1: Task, t2: Task): seq<Action> {
    FirstPass(t1) + SecondPurge(t2) + FullAdd(w) + [Run(1)]
  }

  function FirstPass(t: Task): seq<Action> {
    [Spawn(1, t)] + Runs(1, 3)
  }

  function SecondPurge(t: Task): seq<Action> {
    [Spawn(2, t)] + Runs(2, 3) + [Run(2)]
  }

  function FullAdd(w: WitnessedEvent): seq<Action> {
    [Spawn(3, AddTask(w))] + Runs(3, 3)
  }

  lemma OverlapPhases(s: State, w: WitnessedEvent, t1: Task, t2: Task)
    ensures Resume(s, OverlappingPurges(w, t1, t2)) ==
            Apply(Resume(Resume(Resume(s, FirstPass(t1)), SecondPurge(t2)), FullAdd(w)), Run(1))
  {
    ResumeThree(s, FirstPass(t1), SecondPurge(t2), FullAdd(w));
  }

  /** A purge of the message's event under a list without the message's signer. */
  predicate Drops(t: Task, w: WitnessedEvent) {
    t.PurgeTask? && t.purged == w.eventId && w.pubKey !in t.validators
  }

  /** The first purge has deleted the signature and remembers the list that named it. */
  function Raced(w: WitnessedEvent, t1: Task): State {
    State(Store(map[], map[w.eventId := [w.pubKey]]), map[1 := Op(t1, Swap(Some([w.pubKey])))])
  }

  /** The second purge has emptied the list. */
  function Emptied(w: WitnessedEvent, t1: Task, t2: Task): State {
    State(Store(map[], map[w.eventId := []]), Raced(w, t1).ops[2 := Op(t2, Finished)])
  }

  lemma OverlapFirst(w: WitnessedEvent, t1: Task)
    requires Drops(t1, w)
    ensures After(AddProof(EMPTY, w), FirstPass(t1)) == Raced(w, t1)
  {
    var start := AddProof(EMPTY, w);
    assert SignerList(start, w.eventId) == [w.pubKey] by { assert [] + [w.pubKey] == [w.pubKey]; }
    LonePurgePass(State(start, map[]), 1, t1);
  }

  lemma OverlapSecond(w: WitnessedEvent, t1: Task, t2: Task)
    requires Drops(t2, w)
    ensures Resume(Raced(w, t1), SecondPurge(t2)) == Emptied(w, t1, t2)
  {
    assert SignerList(Raced(w, t1).store, w.eventId) == [w.pubKey];
    LonePurge(Raced(w, t1), 2, t2);
  }

  lemma OverlapThird(w: WitnessedEvent, t1: Task, t2: Task)
    ensures Resume(Emptied(w, t1, t2), FullAdd(w)) ==
            State(Store(map[(w.eventId, w.pubKey) := w.signature], map[w.eventId := [w.pubKey]]),
                  Emptied(w, t1, t2).ops[3 := Op(AddTask(w), Finished)])
  {
    LoneAdd(Emptied(w, t1, t2), 3, w);
    assert [] + [w.pubKey] == [w.pubKey];
  }

  lemma OverlapLast(w: WitnessedEvent, t1: Task, t2: Task, s: State)
    requires Drops(t1, w) && Drops(t2, w)
    requires s.ops == Emptied(w, t1, t2).ops[3 := Op(AddTask(w), Finished)]
    requires Lookup(s.store.index, w.eventId) == Some([w.pubKey])
    requires (w.eventId, w.pubKey) in s.store.sigs
    ensures (w.eventId, w.pubKey) in Apply(s, Run(1)).store.sigs
    ensures !Tracked(Apply(s, Run(1)), w.eventId, w.pubKey)
  {}

  /**
    The one-purger condition is needed: when two purges of an event overlap, under any lists
    without the signer, the list can return to the value the first one read, and a signature whose
    add has finished drops out of the list.
   */
  lemma OverlappingPurgesLoseASigner(w: WitnessedEvent, t1: Task, t2: Task)
    requires Drops(t1, w) && Drops(t2, w)
    ensures Indexed(AddProof(EMPTY, w))
    ensures var s := After(AddProof(EMPTY, w), OverlappingPurges(w, t1, t2));
            && (w.eventId, w.pubKey) in s.store.sigs
            && !Tracked(s, w.eventId, w.pubKey)
  {
    AddKeepsIndexed(EMPTY, w);
    OverlapPhases(State(AddProof(EMPTY, w), map[]), w, t1, t2);
    OverlapFirst(w, t1);
    OverlapSecond(w, t1, t2);
    OverlapThird(w, t1, t2);
    OverlapLast(w, t1, t2, Resume(Resume(Raced(w, t1), SecondPurge(t2)), FullAdd(w)));
  }

  /** Every purge of the event spawned in the run uses one of the two lists. */
  ghost predicate PurgesUnder(actions: seq<Action>, e: EventId, vs1: seq<PublicPair>, vs2: seq<PublicPair>) {
    forall a | a in actions && a.Spawn? && a.task.PurgeTask? && a.task.purged == e ::
      a.task.validators == vs1 || a.task.validators == vs2
  }

  /** At most one unfinished purge of the event under each list. */
  ghost predicate OneOfEach(s: State, e: EventId) {
    forall i, j | i in s.ops && j in s.ops && Purging(s.ops[i]) && s.ops[i].task == s.ops[j].task && Purging(s.ops[j]) ::
      s.ops[i].task.purged == e ==> i == j
  }

  ghost predicate OneOfEachThroughout(start: Store, actions: seq<Action>, e: EventId) {
    && OneOfEach(After(start, actions), e)
    && (actions != [] ==> OneOfEachThroughout(start, actions[..|actions| - 1], e))
  }

  /** In every run whose purges of the event use the two lists, each by one purge at a time, the key is tracked. */
  ghost predicate AlwaysTracked(e: EventId, k: PublicPair, vs1: seq<PublicPair>, vs2: seq<PublicPair>) {
    forall start, actions |
      Indexed(start) && PurgesUnder(actions, e, vs1, vs2) && OneOfEachThroughout(start, actions, e) ::
      Tracked(After(start, actions), e, k)
  }

  /** Operations are spawned by the run. */
  lemma {:induction false} OpsWereSpawned(start: Store, actions: seq<Action>)
    ensures forall id | id in After(start, actions).ops :: Spawn(id, After(start, actions).ops[id].task) in actions
  {
    if actions != [] {
      var init := actions[..|actions| - 1];
      OpsWereSpawned(start, init);
      var s, s' := After(start, init), After(start, actions);
      forall id | id in s'.ops ensures Spawn(id, s'.ops[id].task) in actions {
        assert id in s.ops ==> Spawn(id, s.ops[id].task) in init;
      }
    }
  }

  lemma {:induction false} OmittersAlone(start: Store, actions: seq<Action>, e: EventId, k: PublicPair,
                                         vs1: seq<PublicPair>, vs2: seq<PublicPair>)
    requires PurgesUnder(actions, e, vs1, vs2) && OneOfEachThroughout(start, actions, e)
    requires k in vs1 || k in vs2
    ensures OneOmitterThroughout(start, actions, e, k)
  {
    if actions != [] {
      OmittersAlone(start, actions[..|actions| - 1], e, k, vs1, vs2);
    }
    OpsWereSpawned(start, actions);
    var s := After(start, actions);
    forall i, j | i in s.ops && j in s.ops && Omits(s.ops[i], e, k) && Omits(s.ops[j], e, k) ensures i == j {
      assert Spawn(i, s.ops[i].task) in actions && Spawn(j, s.ops[j].task) in actions;
      assert s.ops[i].task == s.ops[j].task;
    }
  }

  /** The overlapping run spawns each purge once. */
  lemma {:induction false} OverlapOneOfEach(start: Store, actions: seq<Action>, e: EventId, t1: Task, t2: Task)
    requires t1 != t2
    requires forall a | a in actions && a.Spawn? && a.task.PurgeTask? :: a == Spawn(1, t1) || a == Spawn(2, t2)
    ensures OneOfEachThroughout(start, actions, e)
  {
    if actions != [] {
      OverlapOneOfEach(start, actions[..|actions| - 1], e, t1, t2);
    }
    OpsWereSpawned(start, actions);
    var s := After(start, actions);
    forall i, j | i in s.ops && j in s.ops && Purging(s.ops[i]) && s.ops[i].task == s.ops[j].task ensures i == j {
      assert Spawn(i, s.ops[i].task) in actions && Spawn(j, s.ops[j].task) in actions;
    }
  }

  lemma OverlapSpawns(w: WitnessedEvent, t1: Task, t2: Task)
    ensures forall a | a in OverlappingPurges(w, t1, t2) && a.Spawn? ::
              a == Spawn(1, t1) || a == Spawn(2, t2) || a == Spawn(3, AddTask(w))
  {
    LoneSpawns(1, t1, 3);
    LoneSpawns(2, t2, 3);
    LoneSpawns(3, AddTask(w), 3);
    var a, b, c := FirstPass(t1), SecondPurge(t2), FullAdd(w);
    forall x | x in OverlappingPurges(w, t1, t2) && x.Spawn? ensures x in a || x in b || x in c {}
  }

  /**
    The exact condition for two lists in use, each by one purge at a time: the key is tracked in
    every run if and only if one of the lists keeps it.
   */
  lemma OverlapExact(e: EventId, k: PublicPair, vs1: seq<PublicPair>, vs2: seq<PublicPair>)
    requires vs1 != vs2
    ensures AlwaysTracked(e, k, vs1, vs2) <==> k in vs1 || k in vs2
  {
    if k in vs1 || k in vs2 {
      forall start, actions |
        Indexed(start) && PurgesUnder(actions, e, vs1, vs2) && OneOfEachThroughout(start, actions, e)
        ensures Tracked(After(start, actions), e, k)
      {
        OmittersAlone(start, actions, e, k, vs1, vs2);
        StoredSignatureTracked(start, actions, e, k);
      }
    } else {
      var w, t1, t2 := WitnessedEvent([], k, e), PurgeTask(e, vs1), PurgeTask(e, vs2);
      OverlapSpawns(w, t1, t2);
      OverlapOneOfEach(AddProof(EMPTY, w), OverlappingPurges(w, t1, t2), e, t1, t2);
      OverlappingPurgesLoseASigner(w, t1, t2);
    }
  }
}
