/**
  The concurrent store on the bytes: operations keep the serialized list they read, decode it to
  decide what to do, and compare bytes. Its runs correspond, access by access, to the typed ones.
 */
module ConcurrentBytes {
  import opened Types
  import opened KeyLayout
  import opened ProofStore
  import opened OffchainProofs
  import opened ConcurrentStore

  /** The next storage access of an operation, with the bytes and keys it remembers. */
  datatype BytePc =
    | PutSignature
    | GetIndex
    | DeleteNext(existing: Option<Bytes>, next: nat)
    | CompareAndSwap(existing: Option<Bytes>)
    | GetSignature(next: nat, found: seq<PublicPair>)
    | Tallied(found: seq<PublicPair>)
    | Returned
    | Corrupt

  datatype ByteOp = ByteOp(task: Task, pc: BytePc)

  datatype ByteState = ByteState(data: Data, ops: map<nat, ByteOp>)

  function ByteInitial(t: Task): BytePc {
    match t
    case AddTask(_) => PutSignature
    case PurgeTask(_, _) => GetIndex
    case CountTask(_, _) => GetSignature(0, [])
  }

  function DecodeList(codec: ListCodec, existing: Option<Bytes>): Option<seq<PublicPair>> {
    if existing.Some? then codec.decode(existing.value) else Some([])
  }

  /** One access to the byte storage; an operation that reads a corrupt list fails. */
  function ByteExec(codec: ListCodec, data: Data, op: ByteOp): (Data, BytePc) {
    var e := EventOf(op.task);
    match op.pc
    case PutSignature =>
      if op.task.AddTask? then (data[SigKey(e, op.task.w.pubKey) := op.task.w.signature], GetIndex)
      else (data, op.pc)
    case GetIndex =>
      var existing := Lookup(data, IndexKey(e));
      (data,
       if DecodeList(codec, existing) == None then Corrupt
       else if op.task.PurgeTask? then DeleteNext(existing, 0)
       else CompareAndSwap(existing))
    case DeleteNext(existing, next) =>
      (match DecodeList(codec, existing)
       case None => (data, Corrupt)
       case Some(l) =>
         if !op.task.PurgeTask? || next >= |l| then (data, CompareAndSwap(existing))
         else
           (if l[next] in op.task.validators then data else data - {SigKey(e, l[next])},
            DeleteNext(existing, next + 1)))
    case CompareAndSwap(existing) =>
      (match DecodeList(codec, existing)
       case None => (data, Corrupt)
       case Some(l) =>
         if Lookup(data, IndexKey(e)) == existing
         then (data[IndexKey(e) := codec.encode(Replacement(op.task, Some(l)))], Returned)
         else (data, GetIndex))
    case GetSignature(next, found) =>
      if !op.task.CountTask? || next >= |op.task.validators| then (data, Tallied(found))
      else
        var k := op.task.validators[next];
        (data, GetSignature(next + 1, if SigKey(e, k) in data then found + [k] else found))
    case Tallied(_) => (data, op.pc)
    case Returned => (data, op.pc)
    case Corrupt => (data, op.pc)
  }

  function ByteApply(codec: ListCodec, s: ByteState, a: Action): ByteState {
    match a
    case Spawn(id, t) =>
      if id in s.ops then s else s.(ops := s.ops[id := ByteOp(t, ByteInitial(t))])
    case Run(id) =>
      if id !in s.ops then s
      else
        var (data, pc) := ByteExec(codec, s.data, s.ops[id]);
        ByteState(data, s.ops[id := s.ops[id].(pc := pc)])
  }

  function ByteAfter(codec: ListCodec, data: Data, actions: seq<Action>): ByteState {
    if actions == [] then ByteState(data, map[])
    else ByteApply(codec, ByteAfter(codec, data, actions[..|actions| - 1]), actions[|actions| - 1])
  }

  function EncodeOption(codec: ListCodec, l: Option<seq<PublicPair>>): Option<Bytes> {
    if l.Some? then Some(codec.encode(l.value)) else None
  }

  /** What an operation remembers, as bytes. */
  function EncodePc(codec: ListCodec, pc: Pc): BytePc {
    match pc
    case SetSignature => PutSignature
    case ReadIndex => GetIndex
    case RemoveNext(existing, next) => DeleteNext(EncodeOption(codec, existing), next)
    case Swap(existing) => CompareAndSwap(EncodeOption(codec, existing))
    case ReadNext(next, found) => GetSignature(next, found)
    case Counted(found) => Tallied(found)
    case Finished => Returned
  }

  function EncodeOp(codec: ListCodec, op: Op): ByteOp {
    ByteOp(op.task, EncodePc(codec, op.pc))
  }

  /** Same data, same operations, each at the same point of its task. */
  ghost predicate Corresponds(codec: ListCodec, b: ByteState, s: State) {
    && Represents(codec, b.data, s.store)
    && b.ops.Keys == s.ops.Keys
    && forall id | id in s.ops :: b.ops[id] == EncodeOp(codec, s.ops[id])
  }

  lemma SetRefines(codec: ListCodec, data: Data, st: Store, e: EventId, k: PublicPair, signature: Bytes)
    requires Represents(codec, data, st)
    ensures Represents(codec, data[SigKey(e, k) := signature], st.(sigs := st.sigs[(e, k) := signature]))
  {
    forall e': EventId, k': PublicPair
      ensures Lookup(data[SigKey(e, k) := signature], SigKey(e', k')) ==
              Lookup(st.sigs[(e, k) := signature], (e', k'))
    {
      SigKeyInjective(e, k, e', k');
      assert Lookup(data, SigKey(e', k')) == Lookup(st.sigs, (e', k'));
    }
  }

  lemma RemoveRefines(codec: ListCodec, data: Data, st: Store, e: EventId, k: PublicPair)
    requires Represents(codec, data, st)
    ensures Represents(codec, data - {SigKey(e, k)}, st.(sigs := st.sigs - {(e, k)}))
  {
    forall e': EventId, k': PublicPair
      ensures Lookup(data - {SigKey(e, k)}, SigKey(e', k')) == Lookup(st.sigs - {(e, k)}, (e', k'))
    {
      SigKeyInjective(e, k, e', k');
    }
  }

  /** Doing the operation's next access on the bytes and on the typed store agrees. */
  ghost predicate Agrees(codec: ListCodec, data: Data, st: Store, op: Op) {
    var (data', bpc) := ByteExec(codec, data, EncodeOp(codec, op));
    var (st', pc) := Exec(st, op);
    Represents(codec, data', st') && bpc == EncodePc(codec, pc)
  }

  /** A removal decodes the list it remembers and takes the key the typed one takes. */
  lemma RemovalBytes(codec: ListCodec, data: Data, op: Op)
    requires Lossless(codec) && op.pc.RemoveNext?
    ensures var l, next := ListOf(op.pc.existing), op.pc.next;
            ByteExec(codec, data, EncodeOp(codec, op)) ==
            if !op.task.PurgeTask? || next >= |l| then (data, CompareAndSwap(EncodeOption(codec, op.pc.existing)))
            else (if l[next] in op.task.validators then data else data - {SigKey(op.task.purged, l[next])},
                  DeleteNext(EncodeOption(codec, op.pc.existing), next + 1))
  {
    assert DecodeList(codec, EncodeOption(codec, op.pc.existing)) == Some(ListOf(op.pc.existing));
  }

  lemma RemovalAgrees(codec: ListCodec, data: Data, st: Store, op: Op)
    requires Lossless(codec) && Represents(codec, data, st) && op.pc.RemoveNext?
    ensures Agrees(codec, data, st, op)
  {
    RemovalBytes(codec, data, op);
    if op.task.PurgeTask? && op.pc.next < |ListOf(op.pc.existing)| {
      RemoveRefines(codec, data, st, op.task.purged, ListOf(op.pc.existing)[op.pc.next]);
    }
  }

  /** A compare-and-set compares the bytes it remembers and writes the encoding of the typed replacement. */
  lemma SwapBytes(codec: ListCodec, data: Data, op: Op)
    requires Lossless(codec) && op.pc.Swap?
    ensures var key := IndexKey(EventOf(op.task));
            ByteExec(codec, data, EncodeOp(codec, op)) ==
            if Lookup(data, key) == EncodeOption(codec, op.pc.existing)
            then (data[key := codec.encode(Replacement(op.task, op.pc.existing))], Returned)
            else (data, GetIndex)
  {
    assert DecodeList(codec, EncodeOption(codec, op.pc.existing)) == Some(ListOf(op.pc.existing));
  }

  /** A compare-and-set succeeds on the bytes exactly when it does on the typed store. */
  lemma SwapAgrees(codec: ListCodec, data: Data, st: Store, op: Op)
    requires Lossless(codec) && Represents(codec, data, st) && op.pc.Swap?
    ensures Agrees(codec, data, st, op)
  {
    SwapBytes(codec, data, op);
    CompareAndSetRefines(codec, data, st, EventOf(op.task), op.pc.existing, Replacement(op.task, op.pc.existing));
  }

  lemma SettingAgrees(codec: ListCodec, data: Data, st: Store, op: Op)
    requires Represents(codec, data, st) && op.pc.SetSignature?
    ensures Agrees(codec, data, st, op)
  {
    if op.task.AddTask? {
      SetRefines(codec, data, st, op.task.w.eventId, op.task.w.pubKey, op.task.w.signature);
    }
  }

  lemma IndexReadAgrees(codec: ListCodec, data: Data, st: Store, op: Op)
    requires Lossless(codec) && Represents(codec, data, st) && op.pc.ReadIndex?
    ensures Agrees(codec, data, st, op)
  {
    var e := EventOf(op.task);
    assert Lookup(data, IndexKey(e)) == EncodeOption(codec, Lookup(st.index, e));
  }

  lemma SignatureReadAgrees(codec: ListCodec, data: Data, st: Store, op: Op)
    requires Represents(codec, data, st) && op.pc.ReadNext?
    ensures Agrees(codec, data, st, op)
  {
    if op.task.CountTask? && op.pc.next < |op.task.validators| {
      var e, k := op.task.counted, op.task.validators[op.pc.next];
      assert Lookup(data, SigKey(e, k)) == Lookup(st.sigs, (e, k));
    }
  }

  lemma EndAgrees(codec: ListCodec, data: Data, st: Store, op: Op)
    requires Represents(codec, data, st) && (op.pc.Counted? || op.pc.Finished?)
    ensures Agrees(codec, data, st, op)
  {}

  lemma AccessAgrees(codec: ListCodec, data: Data, st: Store, op: Op)
    requires Lossless(codec) && Represents(codec, data, st)
    ensures Agrees(codec, data, st, op)
  {
    match op.pc {
      case SetSignature => SettingAgrees(codec, data, st, op);
      case ReadIndex => IndexReadAgrees(codec, data, st, op);
      case RemoveNext(_, _) => RemovalAgrees(codec, data, st, op);
      case Swap(_) => SwapAgrees(codec, data, st, op);
      case ReadNext(_, _) => SignatureReadAgrees(codec, data, st, op);
      case Counted(_) => EndAgrees(codec, data, st, op);
      case Finished => EndAgrees(codec, data, st, op);
    }
  }

  /**
    So every concurrent run on the bytes corresponds, state by state, to the typed run: same
    storage, same progress of every operation, same keys found by every count, and no operation
    ever reads a list it cannot decode.
   */
  lemma {:induction false} RunsRefine(codec: ListCodec, data: Data, start: Store, actions: seq<Action>)
    requires Lossless(codec) && Represents(codec, data, start)
    ensures Corresponds(codec, ByteAfter(codec, data, actions), After(start, actions))
  {
    if actions != [] {
      var before, a := actions[..|actions| - 1], actions[|actions| - 1];
      RunsRefine(codec, data, start, before);
      var s := After(start, before);
      if a.Run? && a.id in s.ops {
        AccessAgrees(codec, ByteAfter(codec, data, before).data, s.store, s.ops[a.id]);
      }
    }
  }
}
