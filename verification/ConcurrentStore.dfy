/**
  The off-chain store as concurrent operations over shared storage. Every operation is cut into
  the storage accesses it makes; each access is atomic and any number of operations interleave.
  A run is a list of actions; an action that is not enabled leaves the state as it is.
 */
module ConcurrentStore {
  import opened Types
  import opened Sequences
  import opened ProofStore

  datatype Task =
    | AddTask(w: WitnessedEvent)
    | PurgeTask(purged: EventId, validators: seq<PublicPair>)
    | CountTask(counted: EventId, validators: seq<PublicPair>)

  /** The next storage access of an operation, with what the operation remembers. */
  datatype Pc =
    | SetSignature
    | ReadIndex
    | RemoveNext(existing: Option<seq<PublicPair>>, next: nat)
    | Swap(existing: Option<seq<PublicPair>>)
    | ReadNext(next: nat, found: seq<PublicPair>)
    | Counted(found: seq<PublicPair>)
    | Finished

  datatype Op = Op(task: Task, pc: Pc)

  datatype State = State(store: Store, ops: map<nat, Op>)

  datatype Action = Spawn(id: nat, task: Task) | Run(id: nat)

  function EventOf(t: Task): EventId {
    match t
    case AddTask(w) => w.eventId
    case PurgeTask(e, _) => e
    case CountTask(e, _) => e
  }

  function Initial(t: Task): Pc {
    match t
    case AddTask(_) => SetSignature
    case PurgeTask(_, _) => ReadIndex
    case CountTask(_, _) => ReadNext(0, [])
  }

  function ListOf(existing: Option<seq<PublicPair>>): seq<PublicPair> {
    if existing.Some? then existing.value else []
  }

  /** The list an operation writes when its compare-and-set succeeds. */
  function Replacement(t: Task, existing: Option<seq<PublicPair>>): seq<PublicPair> {
    match t
    case AddTask(w) => ListOf(existing) + [w.pubKey]
    case PurgeTask(_, vs) => Filter(ListOf(existing), vs)
    case CountTask(_, _) => ListOf(existing)
  }

  /** The operation's next action is a compare-and-set that succeeds. */
  predicate Wins(st: Store, op: Op) {
    op.pc.Swap? && Lookup(st.index, EventOf(op.task)) == op.pc.existing
  }

  /** The operation's next action is a compare-and-set that fails. */
  predicate Fails(st: Store, op: Op) {
    op.pc.Swap? && Lookup(st.index, EventOf(op.task)) != op.pc.existing
  }

  /** One storage access. */
  function Exec(st: Store, op: Op): (Store, Pc) {
    var e := EventOf(op.task);
    match op.pc
    case SetSignature =>
      if op.task.AddTask? then
        (st.(sigs := st.sigs[(e, op.task.w.pubKey) := op.task.w.signature]), ReadIndex)
      else (st, op.pc)
    case ReadIndex =>
      var existing := Lookup(st.index, e);
      (st, if op.task.PurgeTask? then RemoveNext(existing, 0) else Swap(existing))
    case RemoveNext(existing, next) =>
      if !op.task.PurgeTask? || next >= |ListOf(existing)| then (st, Swap(existing))
      else
        var k := ListOf(existing)[next];
        (if k in op.task.validators then st else st.(sigs := st.sigs - {(e, k)}), RemoveNext(existing, next + 1))
    case Swap(existing) =>
      if Wins(st, op) then (st.(index := st.index[e := Replacement(op.task, existing)]), Finished)
      else (st, ReadIndex)
    case ReadNext(next, found) =>
      if !op.task.CountTask? || next >= |op.task.validators| then (st, Counted(found))
      else
        var k := op.task.validators[next];
        (st, ReadNext(next + 1, if (e, k) in st.sigs then found + [k] else found))
    case Counted(_) => (st, op.pc)
    case Finished => (st, op.pc)
  }

  /** A compare-and-set either succeeds, writing the new list and returning, or fails, changing nothing and retrying. */
  lemma SwapOutcome(st: Store, op: Op)
    requires op.pc.Swap?
    ensures var e, existing := EventOf(op.task), op.pc.existing;
            if Lookup(st.index, e) == existing then
              && Wins(st, op) && !Fails(st, op)
              && Exec(st, op) == (st.(index := st.index[e := Replacement(op.task, existing)]), Finished)
            else Fails(st, op) && !Wins(st, op) && Exec(st, op) == (st, ReadIndex)
  {}

  function Apply(s: State, a: Action): State {
    match a
    case Spawn(id, t) =>
      if id in s.ops then s else s.(ops := s.ops[id := Op(t, Initial(t))])
    case Run(id) =>
      if id !in s.ops then s
      else
        var (st, pc) := Exec(s.store, s.ops[id]);
        State(st, s.ops[id := s.ops[id].(pc := pc)])
  }

  function Resume(s: State, actions: seq<Action>): State {
    if actions == [] then s
    else Apply(Resume(s, actions[..|actions| - 1]), actions[|actions| - 1])
  }

  function After(start: Store, actions: seq<Action>): State {
    Resume(State(start, map[]), actions)
  }

  lemma {:induction false} AfterConcat(start: Store, before: seq<Action>, later: seq<Action>)
    requires later != []
    ensures After(start, before + later) ==
            Apply(After(start, before + later[..|later| - 1]), later[|later| - 1])
  {
    assert (before + later)[..|before + later| - 1] == before + later[..|later| - 1];
  }

  /** The accesses each kind of operation can be about to make. */
  predicate WellTyped(op: Op) {
    match op.task
    case AddTask(_) => op.pc.SetSignature? || op.pc.ReadIndex? || op.pc.Swap? || op.pc.Finished?
    case PurgeTask(_, _) => op.pc.ReadIndex? || op.pc.RemoveNext? || op.pc.Swap? || op.pc.Finished?
    case CountTask(_, _) => op.pc.ReadNext? || op.pc.Counted?
  }

  ghost predicate AllWellTyped(s: State) {
    forall id :: id in s.ops ==> WellTyped(s.ops[id])
  }

  lemma {:induction false} RunsWellTyped(start: Store, actions: seq<Action>)
    ensures AllWellTyped(After(start, actions))
  {
    if actions != [] {
      RunsWellTyped(start, actions[..|actions| - 1]);
    }
  }

  /** Only a winning compare-and-set on an event changes its index. */
  lemma IndexChange(s: State, a: Action, e: EventId)
    requires !(a.Run? && a.id in s.ops && EventOf(s.ops[a.id].task) == e && Wins(s.store, s.ops[a.id]))
    ensures Lookup(Apply(s, a).store.index, e) == Lookup(s.store.index, e)
  {}

  lemma {:induction false} ResumeConcat(s: State, first: seq<Action>, rest: seq<Action>)
    ensures Resume(s, first + rest) == Resume(Resume(s, first), rest)
  {
    if rest == [] {
      assert first + rest == first;
    } else {
      var init := rest[..|rest| - 1];
      ResumeConcat(s, first, init);
      assert (first + rest)[..|first + rest| - 1] == first + init;
    }
  }

  lemma ResumeThree(s: State, a: seq<Action>, b: seq<Action>, c: seq<Action>)
    ensures Resume(s, a + b + c) == Resume(Resume(Resume(s, a), b), c)
  {
    ResumeConcat(s, a, b);
    ResumeConcat(s, a + b, c);
  }

  lemma ResumeHead(s: State, a: Action, rest: seq<Action>)
    ensures Resume(s, [a] + rest) == Resume(Apply(s, a), rest)
  {
    ResumeConcat(s, [a], rest);
  }

  function Runs(id: nat, n: nat): seq<Action> {
    if n == 0 then [] else [Run(id)] + Runs(id, n - 1)
  }

  lemma RunsOnlyRun(id: nat, n: nat)
    ensures forall a | a in Runs(id, n) :: a.Run?
  {}

  lemma LoneSpawns(id: nat, t: Task, n: nat)
    ensures forall a | a in [Spawn(id, t)] + Runs(id, n) :: a.Run? || a == Spawn(id, t)
  {
    RunsOnlyRun(id, n);
  }

  /** An operation's next n accesses with nobody else running. */
  function Solo(st: Store, op: Op, n: nat): (Store, Op)
    decreases n
  {
    if n == 0 then (st, op)
    else
      var (st', pc) := Exec(st, op);
      Solo(st', op.(pc := pc), n - 1)
  }

  lemma {:induction false} RunsAlone(s: State, id: nat, n: nat)
    requires id in s.ops
    ensures var (st, op) := Solo(s.store, s.ops[id], n);
            Resume(s, Runs(id, n)) == State(st, s.ops[id := op])
    decreases n
  {
    if n > 0 {
      var (st1, pc1) := Exec(s.store, s.ops[id]);
      var op1 := s.ops[id].(pc := pc1);
      var s1 := State(st1, s.ops[id := op1]);
      ResumeHead(s, Run(id), Runs(id, n - 1));
      RunsAlone(s1, id, n - 1);
    }
  }

  /** A new operation running alone. */
  lemma SpawnedAlone(s: State, id: nat, t: Task, n: nat)
    requires id !in s.ops
    ensures var (st, op) := Solo(s.store, Op(t, Initial(t)), n);
            Resume(s, [Spawn(id, t)] + Runs(id, n)) == State(st, s.ops[id := op])
  {
    var s' := Apply(s, Spawn(id, t));
    ResumeHead(s, Spawn(id, t), Runs(id, n));
    RunsAlone(s', id, n);
  }

  /** Left alone, an add performs three accesses and has the effect of the sequential add. */
  lemma LoneAdd(s: State, id: nat, w: WitnessedEvent)
    requires id !in s.ops
    ensures Resume(s, [Spawn(id, AddTask(w))] + Runs(id, 3)) ==
            State(AddProof(s.store, w), s.ops[id := Op(AddTask(w), Finished)])
  {
    SpawnedAlone(s, id, AddTask(w), 3);
  }

  /** The retain pass of a lone purge. */
  lemma {:induction false} SoloRemovals(st: Store, t: Task, existing: Option<seq<PublicPair>>, next: nat)
    requires t.PurgeTask? && next <= |ListOf(existing)|
    ensures var l := ListOf(existing);
            Solo(st, Op(t, RemoveNext(existing, next)), |l| - next + 1) ==
            (st.(sigs := st.sigs - Stale(l[next..], t.purged, t.validators)), Op(t, Swap(existing)))
    decreases |ListOf(existing)| - next
  {
    var l := ListOf(existing);
    if next < |l| {
      var st' := Exec(st, Op(t, RemoveNext(existing, next))).0;
      SoloRemovals(st', t, existing, next + 1);
      assert st.sigs - Stale(l[next..], t.purged, t.validators) ==
             st'.sigs - Stale(l[next + 1..], t.purged, t.validators);
    } else {
      assert st.sigs - Stale(l[next..], t.purged, t.validators) == st.sigs;
    }
  }

  lemma SoloPass(st: Store, t: Task)
    requires t.PurgeTask?
    ensures var l := SignerList(st, t.purged);
            Solo(st, Op(t, ReadIndex), |l| + 2) ==
            (st.(sigs := st.sigs - Stale(l, t.purged, t.validators)), Op(t, Swap(Lookup(st.index, t.purged))))
  {
    var existing := Lookup(st.index, t.purged);
    SoloRemovals(st, t, existing, 0);
  }

  /** A lone purge up to its compare-and-set. */
  lemma LonePurgePass(s: State, id: nat, t: Task)
    requires id !in s.ops && t.PurgeTask?
    ensures var l := SignerList(s.store, t.purged);
            Resume(s, [Spawn(id, t)] + Runs(id, |l| + 2)) ==
            State(s.store.(sigs := s.store.sigs - Stale(l, t.purged, t.validators)),
                  s.ops[id := Op(t, Swap(Lookup(s.store.index, t.purged)))])
  {
    SpawnedAlone(s, id, t, |SignerList(s.store, t.purged)| + 2);
    SoloPass(s.store, t);
  }

  /** Left alone, a purge makes one pass and has the effect of the sequential purge. */
  lemma LonePurge(s: State, id: nat, t: Task)
    requires id !in s.ops && t.PurgeTask?
    ensures Resume(s, [Spawn(id, t)] + Runs(id, |SignerList(s.store, t.purged)| + 2) + [Run(id)]) ==
            State(PurgeStale(s.store, t.purged, t.validators), s.ops[id := Op(t, Finished)])
  {
    var pass := [Spawn(id, t)] + Runs(id, |SignerList(s.store, t.purged)| + 2);
    LonePurgePass(s, id, t);
    var s' := Resume(s, pass);
    assert Apply(s', Run(id)).ops == s.ops[id := Op(t, Finished)];
  }

  lemma ReadOne(st: Store, t: Task, next: nat, soFar: seq<PublicPair>) returns (now: seq<PublicPair>)
    requires t.CountTask? && next < |t.validators|
    requires |soFar| == CountIn(t.validators[..next], StoredSigners(st, t.counted))
    ensures |now| == CountIn(t.validators[..next + 1], StoredSigners(st, t.counted))
    ensures Exec(st, Op(t, ReadNext(next, soFar))) == (st, ReadNext(next + 1, now))
  {
    var k := t.validators[next];
    CountInNext(t.validators, next, StoredSigners(st, t.counted));
    now := if (t.counted, k) in st.sigs then soFar + [k] else soFar;
  }

  /** The first n reads of a lone count from some point on. */
  lemma {:induction false} SoloReadsUpTo(st: Store, t: Task, next: nat, soFar: seq<PublicPair>, n: nat)
    returns (found: seq<PublicPair>)
    requires t.CountTask? && next + n <= |t.validators|
    requires |soFar| == CountIn(t.validators[..next], StoredSigners(st, t.counted))
    ensures |found| == CountIn(t.validators[..next + n], StoredSigners(st, t.counted))
    ensures Solo(st, Op(t, ReadNext(next, soFar)), n) == (st, Op(t, ReadNext(next + n, found)))
    decreases n
  {
    if n == 0 {
      found := soFar;
    } else {
      var now := ReadOne(st, t, next, soFar);
      found := SoloReadsUpTo(st, t, next + 1, now, n - 1);
    }
  }

  /** A new count left alone for n reads. */
  lemma LoneReads(s: State, id: nat, t: Task, n: nat) returns (found: seq<PublicPair>)
    requires id !in s.ops && t.CountTask? && n <= |t.validators|
    ensures |found| == CountIn(t.validators[..n], StoredSigners(s.store, t.counted))
    ensures Resume(s, [Spawn(id, t)] + Runs(id, n)) == State(s.store, s.ops[id := Op(t, ReadNext(n, found))])
  {
    SpawnedAlone(s, id, t, n);
    found := SoloReadsUpTo(s.store, t, 0, [], n);
  }

  lemma {:induction false} RunsSnoc(id: nat, n: nat)
    ensures Runs(id, n + 1) == Runs(id, n) + [Run(id)]
  {
    if n > 0 {
      RunsSnoc(id, n - 1);
    }
  }

  lemma EndOfReads(s: State, id: nat, t: Task, found: seq<PublicPair>)
    requires t.CountTask? && id in s.ops && s.ops[id] == Op(t, ReadNext(|t.validators|, found))
    ensures Apply(s, Run(id)) == State(s.store, s.ops[id := Op(t, Counted(found))])
  {}

  /** Left alone, a count reads every listed key once and finds as many as the sequential count. */
  lemma LoneCount(s: State, id: nat, t: Task) returns (found: seq<PublicPair>)
    requires id !in s.ops && t.CountTask?
    ensures |found| == CountIn(t.validators, StoredSigners(s.store, t.counted))
    ensures Resume(s, [Spawn(id, t)] + Runs(id, |t.validators| + 1)) ==
            State(s.store, s.ops[id := Op(t, Counted(found))])
  {
    var n := |t.validators|;
    found := LoneReads(s, id, t, n);
    assert t.validators[..n] == t.validators;
    EndOfReads(State(s.store, s.ops[id := Op(t, ReadNext(n, found))]), id, t, found);
    RunsSnoc(id, n);
    var counting := [Spawn(id, t)] + Runs(id, n);
    assert [Spawn(id, t)] + Runs(id, n + 1) == counting + [Run(id)];
    assert (counting + [Run(id)])[..|counting|] == counting;
  }
}
