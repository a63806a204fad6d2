/** A parent-linked block tree, its ancestry, and lowest common ancestors. */
module BlockTree {
  import opened Types

  datatype Header = Header(parent: BlockHash, number: nat)

  type Tree = map<BlockHash, Header>

  /** A block above the genesis has its parent in the tree, one lower. */
  ghost predicate Linked(t: Tree, h: BlockHash)
    requires h in t
  {
    t[h].number > 0 ==> t[h].parent in t && t[t[h].parent].number == t[h].number - 1
  }

  ghost predicate WellFormed(t: Tree) {
    && (forall h {:trigger Linked(t, h)} | h in t :: Linked(t, h))
    && (forall g, h | g in t && h in t && t[g].number == 0 && t[h].number == 0 :: g == h)
  }

  /** The ancestor of a block at a given height. */
  ghost function AncestorAt(t: Tree, h: BlockHash, n: nat): (a: BlockHash)
    requires WellFormed(t) && h in t && n <= t[h].number
    ensures a in t && t[a].number == n
    decreases t[h].number
  {
    if n == t[h].number then h
    else
      assert Linked(t, h);
      AncestorAt(t, t[h].parent, n)
  }

  ghost predicate IsAncestor(t: Tree, a: BlockHash, h: BlockHash)
    requires WellFormed(t) && a in t && h in t
  {
    t[a].number <= t[h].number && AncestorAt(t, h, t[a].number) == a
  }

  /** Climbs from the higher block, or from both, until the paths meet. */
  function Lca(t: Tree, a: BlockHash, b: BlockHash): (c: BlockHash)
    requires WellFormed(t) && a in t && b in t
    ensures c in t
    decreases t[a].number + t[b].number
  {
    assert Linked(t, a) && Linked(t, b);
    if a == b then a
    else if t[a].number > t[b].number then Lca(t, t[a].parent, b)
    else if t[a].number < t[b].number then Lca(t, a, t[b].parent)
    else Lca(t, t[a].parent, t[b].parent)
  }

  lemma {:induction false} LcaNotHigher(t: Tree, a: BlockHash, b: BlockHash)
    requires WellFormed(t) && a in t && b in t
    ensures t[Lca(t, a, b)].number <= t[a].number && t[Lca(t, a, b)].number <= t[b].number
    decreases t[a].number + t[b].number
  {
    assert Linked(t, a) && Linked(t, b);
    if a != b {
      if t[a].number > t[b].number {
        LcaNotHigher(t, t[a].parent, b);
      } else if t[a].number < t[b].number {
        LcaNotHigher(t, a, t[b].parent);
      } else {
        LcaNotHigher(t, t[a].parent, t[b].parent);
      }
    }
  }

  /** The lowest common ancestor with b is b itself exactly when b is an ancestor. */
  lemma {:induction false} LcaDetectsAncestor(t: Tree, a: BlockHash, b: BlockHash)
    requires WellFormed(t) && a in t && b in t
    ensures Lca(t, a, b) == b <==> IsAncestor(t, b, a)
    decreases t[a].number
  {
    assert Linked(t, a) && Linked(t, b);
    if a != b {
      if t[a].number > t[b].number {
        LcaDetectsAncestor(t, t[a].parent, b);
      } else if t[a].number < t[b].number {
        LcaNotHigher(t, a, b);
      } else {
        LcaNotHigher(t, t[a].parent, t[b].parent);
      }
    }
  }

  /** Any common ancestor lies on the chain of the lowest one. */
  lemma {:induction false} LcaIsLowest(t: Tree, a: BlockHash, b: BlockHash, n: nat)
    requires WellFormed(t) && a in t && b in t && n <= t[a].number && n <= t[b].number
    ensures AncestorAt(t, a, n) == AncestorAt(t, b, n) <==> n <= t[Lca(t, a, b)].number
    ensures IsAncestor(t, Lca(t, a, b), a) && IsAncestor(t, Lca(t, a, b), b)
    decreases t[a].number + t[b].number
  {
    assert Linked(t, a) && Linked(t, b);
    LcaNotHigher(t, a, b);
    if a != b {
      if t[a].number > t[b].number {
        LcaIsLowest(t, t[a].parent, b, n);
      } else if t[a].number < t[b].number {
        LcaIsLowest(t, a, t[b].parent, n);
      } else if n < t[a].number {
        LcaIsLowest(t, t[a].parent, t[b].parent, n);
      } else if n > 0 {
        LcaIsLowest(t, t[a].parent, t[b].parent, n - 1);
      }
    }
  }

  /** Ancestors are shared along a chain. */
  lemma {:induction false} AncestorOfAncestor(t: Tree, a: BlockHash, h: BlockHash, n: nat)
    requires WellFormed(t) && a in t && h in t && IsAncestor(t, a, h) && n <= t[a].number
    ensures AncestorAt(t, h, n) == AncestorAt(t, a, n)
    decreases t[h].number
  {
    assert Linked(t, h);
    if a != h {
      AncestorOfAncestor(t, a, t[h].parent, n);
    }
  }
}

/** Waiting for a block height to be finalized, and the stream of finalized events. */
module Finality {
  import opened Types
  import opened PalletTypes
  import opened BlockTree

  /**
    What one pass of the wait loop sees: the canonical chain at that moment, whether ancestry data
    was available, and the tip carried by the next finality notification.
   */
  datatype View = View(canonical: map<nat, BlockHash>, available: bool, notified: BlockHash)

  /** Canonical chains map heights to blocks of that height; notified tips are blocks. */
  ghost predicate Sensible(t: Tree, tip: BlockHash, views: seq<View>) {
    && WellFormed(t) && tip in t
    && forall i | 0 <= i < |views| ::
         && views[i].notified in t
         && forall n | n in views[i].canonical :: views[i].canonical[n] in t && t[views[i].canonical[n]].number == n
  }

  /** The last finalized tip known to the i-th pass. */
  function TipAt(tip: BlockHash, views: seq<View>, i: nat): BlockHash
    requires i <= |views|
  {
    if i == 0 then tip else views[i - 1].notified
  }

  /** The i-th pass finds the height's canonical block on the chain of the tip it knows. */
  ghost predicate Found(t: Tree, tip: BlockHash, views: seq<View>, n: nat, i: nat)
    requires Sensible(t, tip, views) && i < |views|
  {
    var v := views[i];
    n in v.canonical && v.available && IsAncestor(t, v.canonical[n], TipAt(tip, views, i))
  }

  /** Which tip a pass knows: that on entry, or that of the notification it waited for. */
  lemma FoundMeans(t: Tree, tip: BlockHash, views: seq<View>, n: nat, i: nat)
    requires Sensible(t, tip, views) && i < |views|
    ensures Found(t, tip, views, n, i) <==>
            && n in views[i].canonical && views[i].available
            && IsAncestor(t, views[i].canonical[n], if i == 0 then tip else views[i - 1].notified)
  {}

  /**
    The wait loop, over the passes observed so far. It ends at the first pass that finds the block,
    and otherwise is still waiting.
   */
  method WaitForFinalized(t: Tree, tip: BlockHash, views: seq<View>, n: nat) returns (r: Option<BlockHash>, passes: nat)
    requires Sensible(t, tip, views)
    ensures passes <= |views|
    ensures forall i | 0 <= i < passes :: !Found(t, tip, views, n, i)
    ensures r.None? ==> passes == |views|
    ensures r.Some? ==> passes < |views| && Found(t, tip, views, n, passes) && r.value == views[passes].canonical[n]
    ensures r.Some? ==>
              && views[passes].available
              && IsAncestor(t, r.value, if passes == 0 then tip else views[passes - 1].notified)
  {
    var lastFinalized := tip;
    passes := 0;
    while passes < |views|
      invariant passes <= |views|
      invariant lastFinalized == TipAt(tip, views, passes)
      invariant forall i | 0 <= i < passes :: !Found(t, tip, views, n, i)
    {
      var v := views[passes];
      if n in v.canonical {
        var h := v.canonical[n];
        LcaDetectsAncestor(t, lastFinalized, h);
        if v.available && Lca(t, lastFinalized, h) == h {
          return Some(h), passes;
        }
      }
      lastFinalized := v.notified;
      passes := passes + 1;
    }
    r := None;
  }

  /** The finalized tips of a run, each extending the one before. */
  ghost predicate TipsExtend(t: Tree, tips: seq<BlockHash>) {
    && WellFormed(t)
    && (forall i | 0 <= i < |tips| :: tips[i] in t)
    && forall i | 0 < i < |tips| :: IsAncestor(t, tips[i - 1], tips[i])
  }

  lemma {:induction false} TipsOnOneChain(t: Tree, tips: seq<BlockHash>, i: nat, j: nat)
    requires TipsExtend(t, tips) && i <= j < |tips|
    ensures IsAncestor(t, tips[i], tips[j])
    decreases j
  {
    if i < j {
      TipsOnOneChain(t, tips, i, j - 1);
      AncestorOfAncestor(t, tips[j - 1], tips[j], t[tips[i]].number);
    }
  }

  /** The chain finalized by the end of the run. */
  ghost function FinalizedAt(t: Tree, tips: seq<BlockHash>, n: nat): BlockHash
    requires TipsExtend(t, tips) && tips != [] && n <= t[tips[|tips| - 1]].number
  {
    AncestorAt(t, tips[|tips| - 1], n)
  }

  /** All the tips a call gets to see are among the run's finalized tips. */
  ghost predicate SeesTips(tips: seq<BlockHash>, tip: BlockHash, views: seq<View>) {
    tip in tips && forall i | 0 <= i < |views| :: views[i].notified in tips
  }

  /**
    Whatever reorganisations a call observes, the block it settles on is the one finalized at that
    height; so any two calls for a height choose the same block.
   */
  lemma SettledBlockIsFinalized(t: Tree, tips: seq<BlockHash>, tip: BlockHash, views: seq<View>, n: nat, i: nat)
    requires TipsExtend(t, tips) && Sensible(t, tip, views) && SeesTips(tips, tip, views)
    requires i < |views| && Found(t, tip, views, n, i)
    ensures n <= t[tips[|tips| - 1]].number
    ensures views[i].canonical[n] == FinalizedAt(t, tips, n)
  {
    var known := TipAt(tip, views, i);
    var j :| 0 <= j < |tips| && tips[j] == known;
    TipsOnOneChain(t, tips, j, |tips| - 1);
    AncestorOfAncestor(t, known, tips[|tips| - 1], n);
  }

  /**
    If notified heights strictly increase from at least the height on entry, and the canonical
    chain seen by every pass contains the tip that pass knows, the loop ends after at most
    n - h0 + 1 notifications, and at once when n is already finalized.
   */
  lemma WaitTerminates(t: Tree, tip: BlockHash, views: seq<View>, n: nat)
    requires Sensible(t, tip, views)
    requires forall i | 0 <= i < |views| :: views[i].available
    requires views != [] ==> t[views[0].notified].number >= t[tip].number
    requires forall i | 0 < i < |views| :: t[views[i - 1].notified].number < t[views[i].notified].number
    requires forall i | 0 <= i < |views| :: OnCanonical(t, views[i].canonical, TipAt(tip, views, i))
    requires |views| > if n <= t[tip].number then 0 else n - t[tip].number + 1
    ensures var bound := if n <= t[tip].number then 0 else n - t[tip].number + 1;
            exists i :: 0 <= i <= bound && Found(t, tip, views, n, i)
  {
    var bound := if n <= t[tip].number then 0 else n - t[tip].number + 1;
    if bound > 0 {
      HeightsClimb(t, tip, views, bound - 1);
    }
    assert Found(t, tip, views, n, bound);
  }

  /** The canonical chain contains the tip and hence its ancestors. */
  ghost predicate OnCanonical(t: Tree, canonical: map<nat, BlockHash>, tip: BlockHash)
    requires WellFormed(t) && tip in t
  {
    forall m | 0 <= m <= t[tip].number :: m in canonical && canonical[m] == AncestorAt(t, tip, m)
  }

  lemma {:induction false} HeightsClimb(t: Tree, tip: BlockHash, views: seq<View>, i: nat)
    requires Sensible(t, tip, views) && i < |views|
    requires t[views[0].notified].number >= t[tip].number
    requires forall j | 0 < j < |views| :: t[views[j - 1].notified].number < t[views[j].notified].number
    ensures t[views[i].notified].number >= t[tip].number + i
    decreases i
  {
    if i > 0 {
      HeightsClimb(t, tip, views, i - 1);
    }
  }

  // ----- The stream -----

  datatype Response = Response(nextBlock: nat, events: seq<EventId>)

  /** One poll of the stream: the tip finalized when the call starts, and the passes of its wait loop. */
  datatype Poll = Poll(tip: BlockHash, views: seq<View>)

  /**
    What the client and the runtime answer about blocks: the bodies available, and the blocks for
    which the runtime cannot extract the event ids.
   */
  datatype Backend = Backend(bodies: map<BlockHash, seq<Extrinsic>>, failing: set<BlockHash>)

  /**
    The ids of the block's direct calls, in body order; none if the body is missing or the
    extraction fails.
   */
  ghost predicate EventsOf(b: Backend, h: BlockHash, events: seq<EventId>) {
    if h in b.failing || h !in b.bodies then events == [] else NamesCalls(b.bodies[h], events)
  }

  /** The requested height; the latest finalized one if asked for, or 0 if that is unknown. */
  function FirstBlock(fromBlock: nat, fromLatest: bool, latest: Result<nat>): (first: nat)
    ensures fromBlock > 0 || !fromLatest ==> first == fromBlock
    ensures fromBlock == 0 && fromLatest && latest.Ok? ==> first == latest.value
    ensures fromBlock == 0 && fromLatest && latest.Err? ==> first == 0
  {
    if fromBlock == 0 && fromLatest then (if latest.Ok? then latest.value else 0) else fromBlock
  }

  /**
    The response is for the block finalized at height n, whose parent is the block finalized below
    it, and names the next height.
   */
  ghost predicate Describes(t: Tree, tips: seq<BlockHash>, backend: Backend, n: nat, r: Response)
    requires TipsExtend(t, tips)
  {
    && tips != [] && n <= t[tips[|tips| - 1]].number
    && r.nextBlock == n + 1 && EventsOf(backend, FinalizedAt(t, tips, n), r.events)
    && (n > 0 ==> FinalizedAt(t, tips, n - 1) == t[FinalizedAt(t, tips, n)].parent)
  }

  /** The poll's wait loop has not found the height yet. */
  ghost predicate StillWaiting(t: Tree, p: Poll, n: nat)
    requires Sensible(t, p.tip, p.views)
  {
    forall i | 0 <= i < |p.views| :: !Found(t, p.tip, p.views, n, i)
  }

  /** One call: waits for the height, then reads the events of the block found; None while waiting. */
  method GetFinalizedBlockEvents(t: Tree, ghost tips: seq<BlockHash>, backend: Backend,
                                 p: Poll, n: nat) returns (events: Option<seq<EventId>>)
    requires TipsExtend(t, tips) && Sensible(t, p.tip, p.views) && SeesTips(tips, p.tip, p.views)
    ensures events.None? <==> StillWaiting(t, p, n)
    ensures events.Some? ==> Describes(t, tips, backend, n, Response(n + 1, events.value))
  {
    var h, passes := WaitForFinalized(t, p.tip, p.views, n);
    if h == None {
      return None;
    }
    SettledBlockIsFinalized(t, tips, p.tip, p.views, n, passes);
    ParentIsBelow(t, tips[|tips| - 1], n);
    var ids := [];
    if h.value !in backend.failing {
      ids := GetExtrinsicIds(if h.value in backend.bodies then backend.bodies[h.value] else []);
    }
    events := Some(ids);
  }

  /**
    The responses produced by the polls observed so far: the k-th describes the block finalized at
    height first + k, so there is no gap, no repeat and no block that is later abandoned; the
    stream stops short only at a poll that is still waiting.
   */
  method ValidatedEvents(t: Tree, ghost tips: seq<BlockHash>, backend: Backend,
                         fromBlock: nat, fromLatest: bool, latest: Result<nat>, polls: seq<Poll>)
    returns (responses: seq<Response>)
    requires TipsExtend(t, tips)
    requires forall p | p in polls :: Sensible(t, p.tip, p.views) && SeesTips(tips, p.tip, p.views)
    requires FirstBlock(fromBlock, fromLatest, latest) + |polls| <= 0xFFFF_FFFF
    ensures |responses| <= |polls|
    ensures forall k | 0 <= k < |responses| ::
              Describes(t, tips, backend, FirstBlock(fromBlock, fromLatest, latest) + k, responses[k])
    ensures |responses| < |polls| ==>
              && polls[|responses|] in polls
              && StillWaiting(t, polls[|responses|], FirstBlock(fromBlock, fromLatest, latest) + |responses|)
  {
    ghost var first := FirstBlock(fromBlock, fromLatest, latest);
    var blockNum := fromBlock;
    if fromBlock == 0 && fromLatest {
      blockNum := if latest.Ok? then latest.value else 0;
    }
    responses := [];
    for k := 0 to |polls|
      invariant blockNum == first + k && |responses| == k
      invariant forall j | 0 <= j < k :: Describes(t, tips, backend, first + j, responses[j])
    {
      assert polls[k] in polls;
      var events := GetFinalizedBlockEvents(t, tips, backend, polls[k], blockNum);
      if events == None {
        return;
      }
      responses := responses + [Response(blockNum + 1, events.value)];
      blockNum := blockNum + 1;
    }
  }

  lemma {:induction false} ParentIsBelow(t: Tree, h: BlockHash, n: nat)
    requires WellFormed(t) && h in t && n <= t[h].number
    ensures n > 0 ==> AncestorAt(t, h, n - 1) == t[AncestorAt(t, h, n)].parent
    decreases t[h].number
  {
    assert Linked(t, h);
    if n < t[h].number {
      ParentIsBelow(t, t[h].parent, n);
    }
  }
}
