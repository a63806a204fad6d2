/** Counting signatures key by key while other operations run. */
module ConcurrentCount {
  import opened Types
  import opened Sequences
  import opened Quorum
  import opened ProofStore
  import opened ConcurrentStore
  import SignerIndex

  /** The listed validators with a stored signature. */
  function Truth(st: Store, t: Task): set<PublicPair>
    requires t.CountTask?
  {
    SetOf(t.validators) * StoredSigners(st, t.counted)
  }

  /** Every purge of the counted event still under way keeps all the counted validators. */
  predicate Covered(s: State, t: Task)
    requires t.CountTask?
  {
    forall id | id in s.ops && SignerIndex.Purging(s.ops[id]) && s.ops[id].task.purged == t.counted ::
      SetOf(t.validators) <= SetOf(s.ops[id].task.validators)
  }

  ghost predicate CoveredThroughout(start: Store, before: seq<Action>, later: seq<Action>, t: Task)
    requires t.CountTask?
  {
    && Covered(After(start, before + later), t)
    && (later != [] ==> CoveredThroughout(start, before, later[..|later| - 1], t))
  }

  /** The keys found so far lie between those present at the start and those present now. */
  ghost predicate Bracketed(s: State, id: nat, t: Task, atStart: set<PublicPair>)
    requires t.CountTask?
  {
    && id in s.ops && s.ops[id].task == t
    && atStart <= Truth(s.store, t)
    && match s.ops[id].pc
       case ReadNext(next, found) =>
         && next <= |t.validators|
         && SetOf(found) <= Truth(s.store, t)
         && SetOf(found) <= SetOf(t.validators[..next])
         && SetOf(t.validators[..next]) * atStart <= SetOf(found)
         && Distinct(found)
       case Counted(found) =>
         && atStart <= SetOf(found) <= Truth(s.store, t)
         && Distinct(found)
       case _ => false
  }

  lemma BracketStep(s: State, a: Action, id: nat, t: Task, atStart: set<PublicPair>)
    requires t.CountTask? && Distinct(t.validators)
    requires Covered(s, t) && Bracketed(s, id, t, atStart)
    ensures Bracketed(Apply(s, a), id, t, atStart)
  {
    if a == Run(id) && s.ops[id].pc.ReadNext? {
      var vs, next, found := t.validators, s.ops[id].pc.next, s.ops[id].pc.found;
      if next < |vs| {
        var k := vs[next];
        SetOfAppend(found, k);
      }
    }
  }

  lemma {:induction false} BracketedThroughout(start: Store, before: seq<Action>, id: nat, t: Task, later: seq<Action>)
    requires t.CountTask? && Distinct(t.validators)
    requires id !in After(start, before).ops
    requires CoveredThroughout(start, before + [Spawn(id, t)], later, t)
    ensures Bracketed(After(start, before + [Spawn(id, t)] + later), id, t, Truth(After(start, before).store, t))
  {
    var spawned := before + [Spawn(id, t)];
    if later == [] {
      assert spawned + later == spawned;
    } else {
      var init := later[..|later| - 1];
      BracketedThroughout(start, before, id, t, init);
      AfterConcat(start, spawned, later);
      BracketStep(After(start, spawned + init), later[|later| - 1], id, t, Truth(After(start, before).store, t));
    }
  }

  /**
    A count that starts after `before` and has finished after `later` lies between the number of
    listed validators stored when it started and the number stored when it ended, so reaching a
    threshold is justified by the store at the end.
   */
  lemma CountBracketed(start: Store, before: seq<Action>, id: nat, t: Task, later: seq<Action>)
    requires t.CountTask? && Distinct(t.validators)
    requires id !in After(start, before).ops
    requires CoveredThroughout(start, before + [Spawn(id, t)], later, t)
    requires var end := After(start, before + [Spawn(id, t)] + later);
             id in end.ops && end.ops[id].pc.Counted?
    ensures var end := After(start, before + [Spawn(id, t)] + later);
            |Truth(After(start, before).store, t)| <= |end.ops[id].pc.found| <= |Truth(end.store, t)|
  {
    BracketedThroughout(start, before, id, t, later);
    var end := After(start, before + [Spawn(id, t)] + later);
    var found := end.ops[id].pc.found;
    DistinctCardinality(found);
    SubsetCardinality(Truth(After(start, before).store, t), SetOf(found));
    SubsetCardinality(SetOf(found), Truth(end.store, t));
  }

  /** So an accepted count means the store holds a threshold of the listed signatures when counting ends. */
  lemma AcceptedCountJustified(start: Store, before: seq<Action>, id: nat, t: Task, later: seq<Action>)
    requires t.CountTask? && Distinct(t.validators) && |t.validators| <= CAST_LIMIT
    requires id !in After(start, before).ops
    requires CoveredThroughout(start, before + [Spawn(id, t)], later, t)
    requires var end := After(start, before + [Spawn(id, t)] + later);
             id in end.ops && end.ops[id].pc.Counted? && AsU16(|end.ops[id].pc.found|) >= Target(|t.validators|)
    ensures var end := After(start, before + [Spawn(id, t)] + later);
            |Truth(end.store, t)| >= Threshold(|t.validators|)
  {
    CountBracketed(start, before, id, t, later);
    var end := After(start, before + [Spawn(id, t)] + later);
    AcceptedIsQuorum(|end.ops[id].pc.found|, |t.validators|);
  }

  /** Every purge of the event spawned in the run uses this list. */
  ghost predicate PurgesUse(actions: seq<Action>, e: EventId, vs: seq<PublicPair>) {
    forall a | a in actions && a.Spawn? && a.task.PurgeTask? && a.task.purged == e :: a.task.validators == vs
  }

  /** The operation is a finished count whose result reaches the target. */
  predicate Accepted(s: State, id: nat, t: Task)
    requires t.CountTask?
  {
    id in s.ops && s.ops[id].task == t && s.ops[id].pc.Counted?
    && AsU16(|s.ops[id].pc.found|) >= Target(|t.validators|)
  }

  /** In every run that purges the event under `vs` only, an accepted count is backed by the store. */
  ghost predicate AlwaysJustified(t: Task, vs: seq<PublicPair>)
    requires t.CountTask?
  {
    forall start, actions, id |
      Indexed(start) && PurgesUse(actions, t.counted, vs) && Accepted(After(start, actions), id, t) ::
      |Truth(After(start, actions).store, t)| >= Threshold(|t.validators|)
  }

  lemma {:induction false} PurgersUse(start: Store, actions: seq<Action>, e: EventId, vs: seq<PublicPair>)
    requires PurgesUse(actions, e, vs)
    ensures forall id | id in After(start, actions).ops ::
              var t := After(start, actions).ops[id].task; t.PurgeTask? && t.purged == e ==> t.validators == vs
  {
    if actions != [] {
      var init, a := actions[..|actions| - 1], actions[|actions| - 1];
      PurgersUse(start, init, e, vs);
      assert After(start, actions) == Apply(After(start, init), a);
    }
  }

  /** Purges that keep the counted keys leave every count of them bracketed. */
  lemma {:induction false} KeptBracketed(start: Store, actions: seq<Action>, t: Task, vs: seq<PublicPair>)
    requires t.CountTask? && Distinct(t.validators) && SetOf(t.validators) <= SetOf(vs)
    requires PurgesUse(actions, t.counted, vs)
    ensures forall id | id in After(start, actions).ops && After(start, actions).ops[id].task == t ::
              Bracketed(After(start, actions), id, t, {})
  {
    if actions != [] {
      var init, a := actions[..|actions| - 1], actions[|actions| - 1];
      var s := After(start, init);
      KeptBracketed(start, init, t, vs);
      PurgersUse(start, init, t.counted, vs);
      forall id | id in s.ops && s.ops[id].task == t ensures Bracketed(Apply(s, a), id, t, {}) {
        BracketStep(s, a, id, t, {});
      }
    }
  }

  /** A store with the signatures of the given keys for the event. */
  function Holding(e: EventId, ks: seq<PublicPair>): Store {
    Store(map k | k in ks :: (e, k) := [], map[e := ks])
  }

  lemma HoldingSigners(e: EventId, ks: seq<PublicPair>)
    ensures StoredSigners(Holding(e, ks), e) == SetOf(ks) && SignerList(Holding(e, ks), e) == ks
    ensures Indexed(Holding(e, ks))
  {}

  /** The count runs to its end, and then a purge does. */
  function CountThenPurge(t: Task, vs: seq<PublicPair>, listed: nat): seq<Action>
    requires t.CountTask?
  {
    ([Spawn(1, t)] + Runs(1, |t.validators| + 1)) +
    ([Spawn(2, PurgeTask(t.counted, vs))] + Runs(2, listed + 2) + [Run(2)])
  }

  lemma CountThenPurgeEffect(t: Task, vs: seq<PublicPair>, ks: seq<PublicPair>) returns (found: seq<PublicPair>)
    requires t.CountTask?
    ensures |found| == CountIn(t.validators, SetOf(ks))
    ensures var end := After(Holding(t.counted, ks), CountThenPurge(t, vs, |ks|));
            && 1 in end.ops && end.ops[1] == Op(t, Counted(found))
            && StoredSigners(end.store, t.counted) == SetOf(ks) * SetOf(vs)
  {
    var st, purge := Holding(t.counted, ks), PurgeTask(t.counted, vs);
    var s := State(st, map[]);
    HoldingSigners(t.counted, ks);
    found := LoneCount(s, 1, t);
    PurgedSigners(st, t.counted, vs, t.counted);
    var s1, purging := State(st, map[1 := Op(t, Counted(found))]), [Spawn(2, purge)] + Runs(2, |ks| + 2) + [Run(2)];
    ResumeConcat(s, [Spawn(1, t)] + Runs(1, |t.validators| + 1), purging);
    LonePurge(s1, 2, purge);
    assert Resume(s1, purging) ==
           State(PurgeStale(st, t.counted, vs), s1.ops[2 := Op(purge, Finished)]);
  }

  lemma CountThenPurgeUses(t: Task, vs: seq<PublicPair>, listed: nat)
    requires t.CountTask?
    ensures PurgesUse(CountThenPurge(t, vs, listed), t.counted, vs)
  {
    RunsOnlyRun(1, |t.validators| + 1);
    RunsOnlyRun(2, listed + 2);
  }

  /** If a purge may omit a counted key, a count can be accepted on signatures no longer stored. */
  lemma OmittedKeyUnjustified(t: Task, vs: seq<PublicPair>, k: PublicPair)
    requires t.CountTask? && Distinct(t.validators) && |t.validators| <= CAST_LIMIT
    requires k in t.validators && k !in vs
    ensures !AlwaysJustified(t, vs)
  {
    var ks := QuorumWith(t.validators, k);
    var start, actions := Holding(t.counted, ks), CountThenPurge(t, vs, |ks|);
    var found := CountThenPurgeEffect(t, vs, ks);
    CountThenPurgeUses(t, vs, |ks|);
    CountInDistinct(t.validators, SetOf(ks));
    assert SetOf(t.validators) * SetOf(ks) == SetOf(ks);
    DistinctCardinality(ks);
    TargetCastExact(|t.validators|);
    SmallU16(|found|);
    var end := After(start, actions);
    assert Accepted(end, 1, t);
    SubsetCardinality(Truth(end.store, t), SetOf(ks) - {k});
  }

  /** Exactly a threshold of the keys, with k among them. */
  lemma QuorumWith(vs: seq<PublicPair>, k: PublicPair) returns (ks: seq<PublicPair>)
    requires Distinct(vs) && k in vs
    ensures Distinct(ks) && k in ks && SetOf(ks) <= SetOf(vs) && |ks| == Threshold(|vs|)
  {
    var i :| 0 <= i < |vs| && vs[i] == k;
    var t := Threshold(|vs|);
    ks := if i < t then vs[..t] else vs[..t - 1] + [k];
  }

  /**
    The covering condition is exact: over every run that purges the event under one list, accepted
    counts are backed by the store if and only if that list keeps every counted key.
   */
  lemma CoverageExact(t: Task, vs: seq<PublicPair>)
    requires t.CountTask? && Distinct(t.validators) && |t.validators| <= CAST_LIMIT
    ensures AlwaysJustified(t, vs) <==> SetOf(t.validators) <= SetOf(vs)
  {
    if SetOf(t.validators) <= SetOf(vs) {
      forall start, actions, id |
        Indexed(start) && PurgesUse(actions, t.counted, vs) && Accepted(After(start, actions), id, t)
        ensures |Truth(After(start, actions).store, t)| >= Threshold(|t.validators|)
      {
        KeptBracketed(start, actions, t, vs);
        var end := After(start, actions);
        DistinctCardinality(end.ops[id].pc.found);
        SubsetCardinality(SetOf(end.ops[id].pc.found), Truth(end.store, t));
        AcceptedIsQuorum(|end.ops[id].pc.found|, |t.validators|);
      }
    } else {
      var k :| k in t.validators && k !in vs;
      OmittedKeyUnjustified(t, vs, k);
    }
  }

  // ----- The same at the count's last read -----

  /** All the listed keys but the last. */
  function AllButLast(t: Task): seq<PublicPair>
    requires t.CountTask? && t.validators != []
  {
    t.validators[..|t.validators| - 1]
  }

  /** The operation is such a count, about to make its last read. */
  predicate AtLastRead(s: State, id: nat, t: Task)
    requires t.CountTask? && t.validators != []
  {
    id in s.ops && s.ops[id].task == t && s.ops[id].pc.ReadNext? && s.ops[id].pc.next == |t.validators| - 1
  }

  /** What it has found with that read. */
  function FoundAtEnd(s: State, id: nat, t: Task): seq<PublicPair>
    requires t.CountTask? && t.validators != [] && AtLastRead(s, id, t)
  {
    Apply(s, Run(id)).ops[id].pc.found
  }

  lemma LastReadFinds(s: State, id: nat, t: Task)
    requires t.CountTask? && t.validators != [] && AtLastRead(s, id, t)
    ensures var last := t.validators[|t.validators| - 1];
            FoundAtEnd(s, id, t) == s.ops[id].pc.found + if (t.counted, last) in s.store.sigs then [last] else []
  {}

  /** In every run that purges the event under `vs` only, a count accepted on its last read is backed by the store then. */
  ghost predicate JustifiedAtLastRead(t: Task, vs: seq<PublicPair>)
    requires t.CountTask? && t.validators != []
  {
    forall start, actions, id |
      && Indexed(start) && PurgesUse(actions, t.counted, vs) && AtLastRead(After(start, actions), id, t)
      && AsU16(|FoundAtEnd(After(start, actions), id, t)|) >= Target(|t.validators|) ::
      |Truth(After(start, actions).store, t)| >= Threshold(|t.validators|)
  }

  /** Before its last read, what a count has found is stored, without repeats, among the keys it has passed. */
  ghost predicate PrefixKept(s: State, id: nat, t: Task)
    requires t.CountTask? && t.validators != []
  {
    id in s.ops && s.ops[id].task == t && s.ops[id].pc.ReadNext? && s.ops[id].pc.next < |t.validators| ==>
      var found := s.ops[id].pc.found;
      && Distinct(found)
      && forall k | k in found :: k in t.validators[..s.ops[id].pc.next] && (t.counted, k) in s.store.sigs
  }

  lemma PrefixStep(s: State, a: Action, id: nat, t: Task, vs: seq<PublicPair>)
    requires t.CountTask? && t.validators != [] && Distinct(t.validators) && SetOf(AllButLast(t)) <= SetOf(vs)
    requires forall j | j in s.ops && s.ops[j].task.PurgeTask? && s.ops[j].task.purged == t.counted ::
               s.ops[j].task.validators == vs
    requires WellTypedCount(s, id, t) && PrefixKept(s, id, t)
    ensures WellTypedCount(Apply(s, a), id, t) && PrefixKept(Apply(s, a), id, t)
  {
    if id in s.ops && s.ops[id].task == t && s.ops[id].pc.ReadNext? && s.ops[id].pc.next < |t.validators| {
      var next := s.ops[id].pc.next;
      assert t.validators[..next + 1] == t.validators[..next] + [t.validators[next]];
      forall k | k in t.validators[..next] ensures k in vs && k != t.validators[next] {
        assert k in SetOf(AllButLast(t));
      }
    }
  }

  predicate WellTypedCount(s: State, id: nat, t: Task) {
    id in s.ops && s.ops[id].task == t ==> s.ops[id].pc.ReadNext? || s.ops[id].pc.Counted?
  }

  lemma {:induction false} PrefixThroughout(start: Store, actions: seq<Action>, id: nat, t: Task, vs: seq<PublicPair>)
    requires t.CountTask? && t.validators != [] && Distinct(t.validators) && SetOf(AllButLast(t)) <= SetOf(vs)
    requires PurgesUse(actions, t.counted, vs)
    ensures WellTypedCount(After(start, actions), id, t) && PrefixKept(After(start, actions), id, t)
  {
    if actions != [] {
      var init := actions[..|actions| - 1];
      PrefixThroughout(start, init, id, t, vs);
      PurgersUse(start, init, t.counted, vs);
      PrefixStep(After(start, init), actions[|actions| - 1], id, t, vs);
    }
  }

  lemma LastReadJustified(start: Store, actions: seq<Action>, id: nat, t: Task, vs: seq<PublicPair>)
    requires t.CountTask? && t.validators != [] && Distinct(t.validators) && |t.validators| <= CAST_LIMIT
    requires SetOf(AllButLast(t)) <= SetOf(vs) && PurgesUse(actions, t.counted, vs)
    requires AtLastRead(After(start, actions), id, t)
    requires AsU16(|FoundAtEnd(After(start, actions), id, t)|) >= Target(|t.validators|)
    ensures |Truth(After(start, actions).store, t)| >= Threshold(|t.validators|)
  {
    var s := After(start, actions);
    PrefixThroughout(start, actions, id, t, vs);
    LastReadFinds(s, id, t);
    var found := FoundAtEnd(s, id, t);
    assert Distinct(found);
    DistinctCardinality(found);
    SubsetCardinality(SetOf(found), Truth(s.store, t));
    AcceptedIsQuorum(|found|, |t.validators|);
  }

  /** The count makes all its reads but the last; a purge and then an add of the last key run to their ends. */
  function PurgedBeforeLastRead(t: Task, vs: seq<PublicPair>, listed: nat): seq<Action>
    requires t.CountTask? && t.validators != []
  {
    ([Spawn(1, t)] + Runs(1, |t.validators| - 1)) +
    ([Spawn(2, PurgeTask(t.counted, vs))] + Runs(2, listed + 2) + [Run(2)]) +
    ([Spawn(3, AddTask(LastSigner(t)))] + Runs(3, 3))
  }

  function LastSigner(t: Task): WitnessedEvent
    requires t.CountTask? && t.validators != []
  {
    WitnessedEvent([], t.validators[|t.validators| - 1], t.counted)
  }

  lemma PurgeThenAdd(s: State, t: Task, w: WitnessedEvent)
    requires t.PurgeTask? && 2 !in s.ops && 3 !in s.ops
    ensures Resume(Resume(s, [Spawn(2, t)] + Runs(2, |SignerList(s.store, t.purged)| + 2) + [Run(2)]),
                   [Spawn(3, AddTask(w))] + Runs(3, 3)) ==
            State(AddProof(PurgeStale(s.store, t.purged, t.validators), w),
                  s.ops[2 := Op(t, Finished)][3 := Op(AddTask(w), Finished)])
  {
    LonePurge(s, 2, t);
    LoneAdd(State(PurgeStale(s.store, t.purged, t.validators), s.ops[2 := Op(t, Finished)]), 3, w);
  }

  lemma PurgedThenAddedSigners(e: EventId, ks: seq<PublicPair>, vs: seq<PublicPair>, w: WitnessedEvent)
    requires w.eventId == e
    ensures StoredSigners(AddProof(PurgeStale(Holding(e, ks), e, vs), w), e) == SetOf(ks) * SetOf(vs) + {w.pubKey}
  {
    HoldingSigners(e, ks);
    PurgedSigners(Holding(e, ks), e, vs, e);
    AddedSigners(PurgeStale(Holding(e, ks), e, vs), w, e);
  }

  lemma PurgedBeforeLastReadEffect(t: Task, vs: seq<PublicPair>, ks: seq<PublicPair>) returns (found: seq<PublicPair>)
    requires t.CountTask? && t.validators != []
    ensures |found| == CountIn(AllButLast(t), SetOf(ks))
    ensures var s := After(Holding(t.counted, ks), PurgedBeforeLastRead(t, vs, |ks|));
            && AtLastRead(s, 1, t) && s.ops[1].pc.found == found
            && StoredSigners(s.store, t.counted) == SetOf(ks) * SetOf(vs) + {LastSigner(t).pubKey}
  {
    var st, purge, n := Holding(t.counted, ks), PurgeTask(t.counted, vs), |t.validators| - 1;
    var s := State(st, map[]);
    HoldingSigners(t.counted, ks);
    ResumeThree(s, [Spawn(1, t)] + Runs(1, n), [Spawn(2, purge)] + Runs(2, |ks| + 2) + [Run(2)],
                [Spawn(3, AddTask(LastSigner(t)))] + Runs(3, 3));
    found := LoneReads(s, 1, t, n);
    PurgeThenAdd(State(st, map[1 := Op(t, ReadNext(n, found))]), purge, LastSigner(t));
    PurgedThenAddedSigners(t.counted, ks, vs, LastSigner(t));
  }

  lemma PurgedBeforeLastReadUses(t: Task, vs: seq<PublicPair>, listed: nat)
    requires t.CountTask? && t.validators != []
    ensures PurgesUse(PurgedBeforeLastRead(t, vs, listed), t.counted, vs)
  {
    LoneSpawns(1, t, |t.validators| - 1);
    LoneSpawns(2, PurgeTask(t.counted, vs), listed + 2);
    LoneSpawns(3, AddTask(LastSigner(t)), 3);
  }

  /** Exactly a threshold of the keys, with k, which is not the last, and the last among them. */
  lemma QuorumWithBoth(vs: seq<PublicPair>, k: PublicPair) returns (ks: seq<PublicPair>)
    requires Distinct(vs) && vs != [] && k in vs[..|vs| - 1]
    ensures Distinct(ks) && k in ks && vs[|vs| - 1] in ks && SetOf(ks) <= SetOf(vs) && |ks| == Threshold(|vs|)
  {
    var i :| 0 <= i < |vs| - 1 && vs[i] == k;
    var t := Threshold(|vs|);
    ks := (if i < t - 1 then vs[..t - 1] else vs[..t - 2] + [k]) + [vs[|vs| - 1]];
  }

  lemma QuorumCounted(t: Task, ks: seq<PublicPair>)
    requires t.CountTask? && t.validators != [] && Distinct(t.validators)
    requires Distinct(ks) && SetOf(ks) <= SetOf(t.validators) && LastSigner(t).pubKey in ks
    ensures CountIn(AllButLast(t), SetOf(ks)) == |ks| - 1
  {
    CountInDistinct(t.validators, SetOf(ks));
    assert SetOf(t.validators) * SetOf(ks) == SetOf(ks);
    DistinctCardinality(ks);
  }

  lemma TruthMisses(st: Store, t: Task, vs: seq<PublicPair>, ks: seq<PublicPair>, k: PublicPair)
    requires t.CountTask? && t.validators != [] && Distinct(t.validators) && Distinct(ks)
    requires k in AllButLast(t) && k in ks && k !in vs && LastSigner(t).pubKey in ks
    requires StoredSigners(st, t.counted) == SetOf(ks) * SetOf(vs) + {LastSigner(t).pubKey}
    ensures |Truth(st, t)| < |ks|
  {
    DistinctCardinality(ks);
    SubsetCardinality(Truth(st, t), SetOf(ks) - {k});
  }

  lemma OmittedEarlierUnjustified(t: Task, vs: seq<PublicPair>, k: PublicPair)
    requires t.CountTask? && t.validators != [] && Distinct(t.validators) && |t.validators| <= CAST_LIMIT
    requires k in AllButLast(t) && k !in vs
    ensures !JustifiedAtLastRead(t, vs)
  {
    var ks := QuorumWithBoth(t.validators, k);
    var found := PurgedBeforeLastReadEffect(t, vs, ks);
    PurgedBeforeLastReadUses(t, vs, |ks|);
    QuorumCounted(t, ks);
    var s := After(Holding(t.counted, ks), PurgedBeforeLastRead(t, vs, |ks|));
    StoredSignersContain(s.store, t.counted, LastSigner(t).pubKey);
    LastReadFinds(s, 1, t);
    TruthMisses(s.store, t, vs, ks, k);
    TargetCastExact(|t.validators|);
    SmallU16(|FoundAtEnd(s, 1, t)|);
  }

  /**
    At the last read the exact condition is weaker: a count accepted then is backed by the store if
    and only if the list keeps every counted key but the last, which has only just been read.
   */
  lemma LastReadCoverageExact(t: Task, vs: seq<PublicPair>)
    requires t.CountTask? && t.validators != [] && Distinct(t.validators) && |t.validators| <= CAST_LIMIT
    ensures JustifiedAtLastRead(t, vs) <==> SetOf(AllButLast(t)) <= SetOf(vs)
  {
    if SetOf(AllButLast(t)) <= SetOf(vs) {
      forall start, actions, id |
        && Indexed(start) && PurgesUse(actions, t.counted, vs) && AtLastRead(After(start, actions), id, t)
        && AsU16(|FoundAtEnd(After(start, actions), id, t)|) >= Target(|t.validators|)
        ensures |Truth(After(start, actions).store, t)| >= Threshold(|t.validators|)
      {
        LastReadJustified(start, actions, id, t, vs);
      }
    } else {
      var k :| k in AllButLast(t) && k !in vs;
      OmittedEarlierUnjustified(t, vs, k);
    }
  }

  // ----- Counting keys that are never stored together -----

  /** A count of two keys is interrupted, after reading the first, by a purge and then an add. */
  function InterruptedCount(a: WitnessedEvent, b: WitnessedEvent, vs: seq<PublicPair>): seq<Action> {
    PurgedMidCount(a, b, vs) + ([Spawn(3, AddTask(b))] + Runs(3, 3) + [Run(1), Run(1)])
  }

  function PurgedMidCount(a: WitnessedEvent, b: WitnessedEvent, vs: seq<PublicPair>): seq<Action> {
    [Spawn(1, CountTask(a.eventId, [a.pubKey, b.pubKey])), Run(1)] +
    ([Spawn(2, PurgeTask(a.eventId, vs))] + Runs(2, 3) + [Run(2)])
  }

  /** The count has read its first key, and the purge has then dropped that key's signature. */
  function MidCount(a: WitnessedEvent, b: WitnessedEvent, vs: seq<PublicPair>): State {
    State(Store(map[], map[a.eventId := []]),
          map[1 := Op(CountTask(a.eventId, [a.pubKey, b.pubKey]), ReadNext(1, [a.pubKey])),
              2 := Op(PurgeTask(a.eventId, vs), Finished)])
  }

  lemma FirstRead(st: Store, t: Task, k: PublicPair, j: PublicPair)
    requires t.CountTask? && t.validators == [k, j] && (t.counted, k) in st.sigs
    ensures Resume(State(st, map[]), [Spawn(1, t), Run(1)]) == State(st, map[1 := Op(t, ReadNext(1, [k]))])
  {
    ResumeHead(State(st, map[]), Spawn(1, t), [Run(1)]);
    assert [] + [k] == [k];
  }

  lemma AddThenPurge(a: WitnessedEvent, vs: seq<PublicPair>)
    requires a.pubKey !in vs
    ensures SignerList(AddProof(EMPTY, a), a.eventId) == [a.pubKey]
    ensures PurgeStale(AddProof(EMPTY, a), a.eventId, vs) == Store(map[], map[a.eventId := []])
  {}

  lemma PurgedMidCountEffect(a: WitnessedEvent, b: WitnessedEvent, vs: seq<PublicPair>)
    requires a.eventId == b.eventId && a.pubKey !in vs
    ensures After(AddProof(EMPTY, a), PurgedMidCount(a, b, vs)) == MidCount(a, b, vs)
  {
    var t, purge := CountTask(a.eventId, [a.pubKey, b.pubKey]), PurgeTask(a.eventId, vs);
    var s0 := State(AddProof(EMPTY, a), map[]);
    FirstRead(s0.store, t, a.pubKey, b.pubKey);
    var s1 := Resume(s0, [Spawn(1, t), Run(1)]);
    ResumeConcat(s0, [Spawn(1, t), Run(1)], [Spawn(2, purge)] + Runs(2, 3) + [Run(2)]);
    AddThenPurge(a, vs);
    LonePurge(s1, 2, purge);
  }

  /** No add of the key to the event is under way, nor spawned by the actions. */
  ghost predicate NeverAdded(s: State, actions: seq<Action>, e: EventId, k: PublicPair) {
    && (forall id | id in s.ops && s.ops[id].task.AddTask? ::
          (s.ops[id].task.w.eventId, s.ops[id].task.w.pubKey) != (e, k))
    && (forall a | a in actions && a.Spawn? && a.task.AddTask? ::
          (a.task.w.eventId, a.task.w.pubKey) != (e, k))
  }

  /** A signature appears only through an add. */
  lemma {:induction false} OnlyAddsStore(s: State, actions: seq<Action>, e: EventId, k: PublicPair)
    requires NeverAdded(s, actions, e, k) && (e, k) !in s.store.sigs
    ensures (e, k) !in Resume(s, actions).store.sigs
    ensures NeverAdded(Resume(s, actions), [], e, k)
  {
    if actions != [] {
      var init, last := actions[..|actions| - 1], actions[|actions| - 1];
      OnlyAddsStore(s, init, e, k);
    }
  }

  /** If one key is not added before a point and the other is gone from it on, they never meet. */
  lemma NeverBoth(s: State, first: seq<Action>, rest: seq<Action>, e: EventId, j: PublicPair, k: PublicPair, n: nat)
    requires n <= |first + rest|
    requires NeverAdded(s, first, e, k) && (e, k) !in s.store.sigs
    requires NeverAdded(Resume(s, first), rest, e, j) && (e, j) !in Resume(s, first).store.sigs
    ensures var st := Resume(s, (first + rest)[..n]).store; (e, j) !in st.sigs || (e, k) !in st.sigs
  {
    if n <= |first| {
      assert (first + rest)[..n] == first[..n];
      OnlyAddsStore(s, first[..n], e, k);
    } else {
      var part := rest[..n - |first|];
      assert (first + rest)[..n] == first + part;
      ResumeConcat(s, first, part);
      OnlyAddsStore(Resume(s, first), part, e, j);
    }
  }

  lemma FewerThanTwo(st: Store, t: Task, j: PublicPair, k: PublicPair)
    requires t.CountTask? && t.validators == [j, k]
    requires (t.counted, j) !in st.sigs || (t.counted, k) !in st.sigs
    ensures |Truth(st, t)| < 2
  {
    SubsetCardinality(Truth(st, t), if (t.counted, j) in st.sigs then {j} else {k});
  }

  lemma InterruptedAdds(a: WitnessedEvent, b: WitnessedEvent, vs: seq<PublicPair>)
    requires a.eventId == b.eventId && a.pubKey != b.pubKey
    ensures forall s: State, e, k | s.ops == map[] :: NeverAdded(s, PurgedMidCount(a, b, vs), e, k)
    ensures NeverAdded(MidCount(a, b, vs), [Spawn(3, AddTask(b))] + Runs(3, 3) + [Run(1), Run(1)], a.eventId, a.pubKey)
  {
    RunsOnlyRun(2, 3);
    RunsOnlyRun(3, 3);
  }

  /** At no point of the interrupted count does the store hold both counted signatures. */
  lemma NeverTwoStored(a: WitnessedEvent, b: WitnessedEvent, vs: seq<PublicPair>, n: nat)
    requires a.eventId == b.eventId && a.pubKey != b.pubKey && a.pubKey !in vs
    requires n <= |InterruptedCount(a, b, vs)|
    ensures |Truth(After(AddProof(EMPTY, a), InterruptedCount(a, b, vs)[..n]).store,
                   CountTask(a.eventId, [a.pubKey, b.pubKey]))| < 2
  {
    var s, e, first := State(AddProof(EMPTY, a), map[]), a.eventId, PurgedMidCount(a, b, vs);
    var rest := [Spawn(3, AddTask(b))] + Runs(3, 3) + [Run(1), Run(1)];
    InterruptedAdds(a, b, vs);
    PurgedMidCountEffect(a, b, vs);
    NeverBoth(s, first, rest, e, a.pubKey, b.pubKey, n);
    FewerThanTwo(Resume(s, (first + rest)[..n]).store, CountTask(e, [a.pubKey, b.pubKey]), a.pubKey, b.pubKey);
  }

  lemma SecondRead(s: State, t: Task, j: PublicPair, k: PublicPair)
    requires t.CountTask? && t.validators == [j, k] && (t.counted, k) in s.store.sigs
    requires 1 in s.ops && s.ops[1] == Op(t, ReadNext(1, [j]))
    ensures var s' := Resume(s, [Run(1), Run(1)]); 1 in s'.ops && s'.ops[1] == Op(t, Counted([j, k]))
  {
    ResumeHead(s, Run(1), [Run(1)]);
    var s1 := Apply(s, Run(1));
    assert s1.ops[1] == Op(t, ReadNext(2, [j, k]));
  }

  lemma InterruptedCountEnds(a: WitnessedEvent, b: WitnessedEvent, vs: seq<PublicPair>)
    requires a.eventId == b.eventId && a.pubKey !in vs
    ensures var end := After(AddProof(EMPTY, a), InterruptedCount(a, b, vs));
            1 in end.ops && end.ops[1] == Op(CountTask(a.eventId, [a.pubKey, b.pubKey]), Counted([a.pubKey, b.pubKey]))
  {
    var s, first, add := State(AddProof(EMPTY, a), map[]), PurgedMidCount(a, b, vs), [Spawn(3, AddTask(b))] + Runs(3, 3);
    PurgedMidCountEffect(a, b, vs);
    ResumeConcat(s, first, add + [Run(1), Run(1)]);
    ResumeConcat(MidCount(a, b, vs), add, [Run(1), Run(1)]);
    LoneAdd(MidCount(a, b, vs), 3, b);
    SecondRead(Resume(MidCount(a, b, vs), add), CountTask(a.eventId, [a.pubKey, b.pubKey]), a.pubKey, b.pubKey);
  }

  /**
    The covering condition is needed: whatever list omitting a counted validator an interrupting
    purge uses, the count can reach two although the store never holds two of the counted
    signatures at once.
   */
  lemma UncoveredCountOverstates(a: WitnessedEvent, b: WitnessedEvent, vs: seq<PublicPair>)
    requires a.eventId == b.eventId && a.pubKey != b.pubKey && a.pubKey !in vs
    ensures var end := After(AddProof(EMPTY, a), InterruptedCount(a, b, vs));
            1 in end.ops && end.ops[1] == Op(CountTask(a.eventId, [a.pubKey, b.pubKey]), Counted([a.pubKey, b.pubKey]))
    ensures var t, all := CountTask(a.eventId, [a.pubKey, b.pubKey]), InterruptedCount(a, b, vs);
            forall n | 0 <= n <= |all| :: |Truth(After(AddProof(EMPTY, a), all[..n]).store, t)| < 2
  {
    InterruptedCountEnds(a, b, vs);
    var t, all := CountTask(a.eventId, [a.pubKey, b.pubKey]), InterruptedCount(a, b, vs);
    forall n | 0 <= n <= |all| ensures |Truth(After(AddProof(EMPTY, a), all[..n]).store, t)| < 2 {
      NeverTwoStored(a, b, vs, n);
    }
  }
}
