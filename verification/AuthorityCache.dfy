/** The authority lists cached per block, with separately locked lookup and insertion. */
module AuthorityCache {
  import opened Types

  const CACHE_CAPACITY := 4

  type Authorities = seq<PublicPair>

  /** The runtime call the cache stands in for: a fixed function of the block hash. */
  type Runtime = BlockHash -> Result<Authorities>

  datatype Entry = Entry(hash: BlockHash, list: Authorities)

  /** Most recently used first. */
  type Cache = seq<Entry>

  function Without(c: Cache, h: BlockHash): (r: Cache)
    ensures |r| <= |c|
    ensures forall x :: x in r <==> x in c && x.hash != h
  {
    if c == [] then [] else (if c[0].hash == h then [] else [c[0]]) + Without(c[1..], h)
  }

  function Find(c: Cache, h: BlockHash): (r: Option<Authorities>)
    ensures r.Some? ==> Entry(h, r.value) in c
    ensures r.None? ==> forall x :: x in c ==> x.hash != h
  {
    if c == [] then None else if c[0].hash == h then Some(c[0].list) else Find(c[1..], h)
  }

  /** A hit moves the entry to the front. */
  function Touch(c: Cache, h: BlockHash): Cache {
    var r := Find(c, h);
    if r.Some? then [Entry(h, r.value)] + Without(c, h) else c
  }

  /** Insertion evicts the least recently used entry when the cache is full. */
  function Put(c: Cache, h: BlockHash, list: Authorities): Cache {
    var r := [Entry(h, list)] + Without(c, h);
    if |r| > CACHE_CAPACITY then r[..CACHE_CAPACITY] else r
  }

  ghost predicate Correct(runtime: Runtime, c: Cache) {
    && |c| <= CACHE_CAPACITY
    && (forall x :: x in c ==> runtime(x.hash) == Ok(x.list))
    && UniqueHashes(c)
  }

  ghost predicate UniqueHashes(c: Cache) {
    forall i, j :: 0 <= i < j < |c| ==> c[i].hash != c[j].hash
  }

  lemma {:induction false} WithoutDistinct(c: Cache, h: BlockHash)
    requires UniqueHashes(c)
    ensures UniqueHashes(Without(c, h))
    ensures Find(c, h).Some? ==> |Without(c, h)| == |c| - 1
  {
    if c != [] {
      WithoutDistinct(c[1..], h);
      if c[0].hash == h {
        WithoutAbsent(c[1..], h);
      }
    }
  }

  lemma TouchCorrect(runtime: Runtime, c: Cache, h: BlockHash)
    requires Correct(runtime, c)
    ensures Correct(runtime, Touch(c, h))
  {
    WithoutDistinct(c, h);
  }

  lemma PutCorrect(runtime: Runtime, c: Cache, h: BlockHash, list: Authorities)
    requires Correct(runtime, c) && runtime(h) == Ok(list)
    ensures Correct(runtime, Put(c, h, list))
  {
    WithoutDistinct(c, h);
    ConsUnique(Entry(h, list), Without(c, h));
    PutEntries(c, h, list);
  }

  lemma ConsUnique(x: Entry, c: Cache)
    requires UniqueHashes(c) && forall y | y in c :: y.hash != x.hash
    ensures UniqueHashes([x] + c)
  {}

  /** An insertion keeps a prefix of the new entry and the others. */
  lemma PutEntries(c: Cache, h: BlockHash, list: Authorities)
    ensures Put(c, h, list) <= [Entry(h, list)] + Without(c, h)
    ensures forall x | x in Put(c, h, list) :: x == Entry(h, list) || x in c
  {}

  /** What an insertion leaves behind the new entry. */
  lemma PutShape(runtime: Runtime, c: Cache, h: BlockHash, list: Authorities)
    requires Correct(runtime, c)
    ensures Put(c, h, list) ==
            [Entry(h, list)] +
            if Find(c, h).Some? then Without(c, h) else if |c| == CACHE_CAPACITY then c[..CACHE_CAPACITY - 1] else c
  {
    WithoutDistinct(c, h);
    if Find(c, h).None? {
      WithoutAbsent(c, h);
    }
  }

  /** Insertion evicts another block only when the cache is full, and then the least recently used one. */
  lemma PutEvictsOldest(runtime: Runtime, c: Cache, h: BlockHash, list: Authorities, i: nat)
    requires Correct(runtime, c) && i < |c| && c[i].hash != h
    ensures c[i] in Put(c, h, list) <==> !(Find(c, h).None? && |c| == 4 && i == 3)
  {
    PutShape(runtime, c, h, list);
    if i < 3 {
      assert c[i] in c[..i + 1] && c[..i + 1] <= c;
    }
  }

  lemma {:induction false} WithoutAbsent(c: Cache, h: BlockHash)
    requires forall x :: x in c ==> x.hash != h
    ensures Without(c, h) == c
  {
    if c != [] {
      WithoutAbsent(c[1..], h);
    }
  }

  class BlockStateCache {
    const runtime: Runtime
    var entries: Cache

    ghost predicate Valid()
      reads this
    {
      Correct(runtime, entries)
    }

    constructor (runtime: Runtime)
      ensures Valid() && this.runtime == runtime && entries == []
    {
      this.runtime := runtime;
      entries := [];
    }

    /** A lone caller: the answer is the runtime's, and a good answer is the most recent entry. */
    method GetAuthoritiesList(h: BlockHash) returns (r: Result<Authorities>)
      requires Valid()
      modifies this
      ensures Valid()
      ensures r == runtime(h)
      ensures r.Err? ==> entries == old(entries)
      ensures r.Ok? ==> entries != [] && entries[0] == Entry(h, r.value)
      ensures entries == Use(runtime, old(entries), h)
    {
      var cached := Find(entries, h);
      TouchCorrect(runtime, entries, h);
      entries := Touch(entries, h);
      if cached.Some? {
        return Ok(cached.value);
      }
      r := runtime(h);
      if r.Ok? {
        PutCorrect(runtime, entries, h, r.value);
        entries := Put(entries, h, r.value);
      }
    }
  }

  // ----- Recency -----

  /** What a lone caller leaves in the cache. */
  function Use(runtime: Runtime, c: Cache, h: BlockHash): Cache {
    if Find(c, h).Some? then Touch(c, h) else if runtime(h).Ok? then Put(c, h, runtime(h).value) else c
  }

  function CacheAfter(runtime: Runtime, uses: seq<BlockHash>): Cache {
    if uses == [] then [] else Use(runtime, CacheAfter(runtime, uses[..|uses| - 1]), uses[|uses| - 1])
  }

  /** When a block was last asked for; -1 if never. */
  function LastUse(uses: seq<BlockHash>, h: BlockHash): (i: int)
    ensures -1 <= i < |uses|
  {
    if uses == [] then -1
    else if uses[|uses| - 1] == h then |uses| - 1
    else LastUse(uses[..|uses| - 1], h)
  }

  lemma {:induction false} LastUseExact(uses: seq<BlockHash>, h: BlockHash)
    ensures var i := LastUse(uses, h);
            (i >= 0 ==> uses[i] == h) && forall j | i < j < |uses| :: uses[j] != h
  {
    if uses != [] {
      LastUseExact(uses[..|uses| - 1], h);
    }
  }

  ghost predicate ByRecency(uses: seq<BlockHash>, c: Cache) {
    forall i, j | 0 <= i < j < |c| :: LastUse(uses, c[i].hash) > LastUse(uses, c[j].hash)
  }

  /** The cache holds, newest first, the four blocks with an authority list that were asked for last. */
  ghost predicate MostRecent(runtime: Runtime, uses: seq<BlockHash>, c: Cache) {
    && |c| <= 4 && ByRecency(uses, c)
    && (forall x | x in c :: LastUse(uses, x.hash) >= 0 && runtime(x.hash) == Ok(x.list))
    && (forall h | LastUse(uses, h) >= 0 && runtime(h).Ok? && Find(c, h).None? :: Older(uses, c, h))
  }

  ghost predicate Older(uses: seq<BlockHash>, c: Cache, h: BlockHash) {
    |c| == 4 && forall x | x in c :: LastUse(uses, h) < LastUse(uses, x.hash)
  }

  lemma {:induction false} WithoutByRecency(uses: seq<BlockHash>, c: Cache, h: BlockHash)
    requires ByRecency(uses, c)
    ensures ByRecency(uses, Without(c, h))
  {
    if c != [] {
      var rest := c[1..];
      WithoutByRecency(uses, rest, h);
      forall x | x in Without(rest, h) ensures LastUse(uses, c[0].hash) > LastUse(uses, x.hash) {
        var i :| 0 <= i < |rest| && rest[i] == x;
        assert c[i + 1] == x;
      }
    }
  }

  lemma RecencyUnique(uses: seq<BlockHash>, c: Cache)
    requires ByRecency(uses, c)
    ensures UniqueHashes(c)
  {}

  /** What stays behind a used block. */
  function Behind(c: Cache, h: BlockHash): Cache {
    if Find(c, h).Some? then Without(c, h) else if |c| == 4 then c[..3] else c
  }

  lemma UseShape(runtime: Runtime, c: Cache, h: BlockHash)
    requires Correct(runtime, c) && runtime(h).Ok?
    ensures Use(runtime, c, h) == [Entry(h, runtime(h).value)] + Behind(c, h)
  {
    PutShape(runtime, c, h, runtime(h).value);
  }

  lemma BehindKeeps(runtime: Runtime, uses: seq<BlockHash>, c: Cache, h: BlockHash)
    requires Correct(runtime, c) && ByRecency(uses, c)
    ensures ByRecency(uses, Behind(c, h)) && forall x | x in Behind(c, h) :: x in c && x.hash != h
    ensures |Behind(c, h)| <= 3 && (|c| == 4 ==> |Behind(c, h)| == 3)
  {
    WithoutDistinct(c, h);
    WithoutByRecency(uses, c, h);
  }

  /** Only the oldest entry of a full cache is dropped. */
  lemma BehindDrops(runtime: Runtime, uses: seq<BlockHash>, c: Cache, h: BlockHash, x: Entry)
    requires Correct(runtime, c) && ByRecency(uses, c)
    requires x in c && x.hash != h && x !in Behind(c, h)
    ensures |c| == 4 && forall y | y in Behind(c, h) :: LastUse(uses, x.hash) < LastUse(uses, y.hash)
  {
    var i :| 0 <= i < |c| && c[i] == x;
  }

  lemma LastUseNext(uses: seq<BlockHash>, h: BlockHash, x: BlockHash)
    ensures LastUse(uses + [h], x) == if x == h then |uses| else LastUse(uses, x)
  {
    assert (uses + [h])[..|uses|] == uses;
  }

  lemma RecentOrder(runtime: Runtime, uses: seq<BlockHash>, c: Cache, h: BlockHash)
    requires Correct(runtime, c) && ByRecency(uses, c) && runtime(h).Ok?
    ensures ByRecency(uses + [h], Use(runtime, c, h))
  {
    UseShape(runtime, c, h);
    BehindKeeps(runtime, uses, c, h);
    var rest := Behind(c, h);
    forall i | 0 <= i < |rest| ensures LastUse(uses + [h], rest[i].hash) == LastUse(uses, rest[i].hash) {
      assert rest[i] in rest;
      LastUseNext(uses, h, rest[i].hash);
    }
    LastUseNext(uses, h, h);
  }

  /** A block that is not in the cache after a use was asked for before all that are. */
  lemma OlderAfter(runtime: Runtime, uses: seq<BlockHash>, c: Cache, h: BlockHash, x: BlockHash)
    requires Correct(runtime, c) && MostRecent(runtime, uses, c) && runtime(h).Ok?
    requires LastUse(uses + [h], x) >= 0 && runtime(x).Ok? && Find(Use(runtime, c, h), x).None?
    ensures Older(uses + [h], Use(runtime, c, h), x)
  {
    UseShape(runtime, c, h);
    BehindKeeps(runtime, uses, c, h);
    assert Use(runtime, c, h)[0].hash == h;
    LastUseNext(uses, h, x);
    var cached := Find(c, x);
    if cached.Some? {
      BehindDrops(runtime, uses, c, h, Entry(x, cached.value));
    }
    forall y | y in Use(runtime, c, h) ensures LastUse(uses + [h], x) < LastUse(uses + [h], y.hash) {
      LastUseNext(uses, h, y.hash);
    }
  }

  lemma MostRecentNext(runtime: Runtime, uses: seq<BlockHash>, c: Cache, h: BlockHash)
    requires Correct(runtime, c) && MostRecent(runtime, uses, c) && runtime(h).Ok?
    ensures MostRecent(runtime, uses + [h], Use(runtime, c, h))
  {
    UseShape(runtime, c, h);
    BehindKeeps(runtime, uses, c, h);
    RecentOrder(runtime, uses, c, h);
    forall x | x in Use(runtime, c, h) ensures LastUse(uses + [h], x.hash) >= 0 {
      LastUseNext(uses, h, x.hash);
    }
    forall x | LastUse(uses + [h], x) >= 0 && runtime(x).Ok? && Find(Use(runtime, c, h), x).None?
      ensures Older(uses + [h], Use(runtime, c, h), x)
    {
      OlderAfter(runtime, uses, c, h, x);
    }
  }

  /** A failing lookup changes nothing. */
  lemma MostRecentFails(runtime: Runtime, uses: seq<BlockHash>, c: Cache, h: BlockHash)
    requires MostRecent(runtime, uses, c) && runtime(h).Err?
    ensures Use(runtime, c, h) == c && MostRecent(runtime, uses + [h], c)
  {
    forall x | x != h ensures LastUse(uses + [h], x) == LastUse(uses, x) {
      LastUseNext(uses, h, x);
    }
  }

  /**
    Least recently used: after every history of lone lookups the cache holds, newest first, the
    four blocks with an authority list that were asked for last.
   */
  lemma {:induction false} CacheIsMostRecent(runtime: Runtime, uses: seq<BlockHash>)
    ensures MostRecent(runtime, uses, CacheAfter(runtime, uses))
  {
    if uses != [] {
      var init, h := uses[..|uses| - 1], uses[|uses| - 1];
      CacheIsMostRecent(runtime, init);
      RecencyUnique(init, CacheAfter(runtime, init));
      assert uses == init + [h];
      if runtime(h).Ok? {
        MostRecentNext(runtime, init, CacheAfter(runtime, init), h);
      } else {
        MostRecentFails(runtime, init, CacheAfter(runtime, init), h);
      }
    }
  }

  // ----- Interleaved callers -----

  datatype Progress =
    | Lookup
    | Calling
    | Inserting(list: Authorities)
    | Returned(result: Result<Authorities>)

  datatype Caller = Caller(hash: BlockHash, progress: Progress)

  datatype State = State(cache: Cache, callers: map<nat, Caller>)

  datatype Action = Call(id: nat, hash: BlockHash) | Step(id: nat)

  /** One locked section, or the unlocked runtime call between them. */
  function Advance(runtime: Runtime, c: Cache, caller: Caller): (Cache, Progress) {
    match caller.progress
    case Lookup =>
      var r := Find(c, caller.hash);
      (Touch(c, caller.hash), if r.Some? then Returned(Ok(r.value)) else Calling)
    case Calling =>
      var r := runtime(caller.hash);
      (c, if r.Ok? then Inserting(r.value) else Returned(r))
    case Inserting(list) => (Put(c, caller.hash, list), Returned(Ok(list)))
    case Returned(_) => (c, caller.progress)
  }

  function Apply(runtime: Runtime, s: State, a: Action): State {
    match a
    case Call(id, h) => if id in s.callers then s else s.(callers := s.callers[id := Caller(h, Lookup)])
    case Step(id) =>
      if id !in s.callers then s
      else
        var (c, p) := Advance(runtime, s.cache, s.callers[id]);
        State(c, s.callers[id := s.callers[id].(progress := p)])
  }

  function After(runtime: Runtime, actions: seq<Action>): State {
    if actions == [] then State([], map[])
    else Apply(runtime, After(runtime, actions[..|actions| - 1]), actions[|actions| - 1])
  }

  /** A caller holds nothing but the runtime's answer for its own block. */
  predicate Honest(runtime: Runtime, caller: Caller) {
    match caller.progress
    case Lookup => true
    case Calling => true
    case Inserting(list) => runtime(caller.hash) == Ok(list)
    case Returned(r) => r == runtime(caller.hash)
  }

  /**
    In every interleaving of any number of callers, each returned result is what the direct runtime
    call gives, every cached entry is correct, no block is cached twice, and the capacity holds.
   */
  lemma {:induction false} CacheTransparent(runtime: Runtime, actions: seq<Action>)
    ensures Correct(runtime, After(runtime, actions).cache) && |After(runtime, actions).cache| <= 4
    ensures forall id | id in After(runtime, actions).callers :: Honest(runtime, After(runtime, actions).callers[id])
  {
    if actions != [] {
      var before, a := actions[..|actions| - 1], actions[|actions| - 1];
      CacheTransparent(runtime, before);
      var s := After(runtime, before);
      if a.Step? && a.id in s.callers {
        var caller := s.callers[a.id];
        TouchCorrect(runtime, s.cache, caller.hash);
        if caller.progress.Inserting? {
          PutCorrect(runtime, s.cache, caller.hash, caller.progress.list);
        }
      }
    }
  }

  /** Left alone, a caller returns the runtime's answer and leaves the cache as a lone lookup does. */
  lemma LoneCaller(runtime: Runtime, s: State, id: nat, h: BlockHash)
    requires id !in s.callers && Correct(runtime, s.cache)
    ensures var called := Apply(runtime, s, Call(id, h));
            var end := Apply(runtime, Apply(runtime, Apply(runtime, called, Step(id)), Step(id)), Step(id));
            && end.cache == Use(runtime, s.cache, h)
            && end.callers == s.callers[id := Caller(h, Returned(runtime(h)))]
  {
    var called := Apply(runtime, s, Call(id, h));
    var looked := Apply(runtime, called, Step(id));
    if Find(s.cache, h).Some? {
      assert looked.callers[id] == Caller(h, Returned(runtime(h)));
    } else {
      var answered := Apply(runtime, looked, Step(id));
      assert answered.cache == s.cache;
    }
  }
}
