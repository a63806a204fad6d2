/**
  The threshold over runs: a gate that accepted any smaller count would let two conflicting events
  through in some run of the protocol, with no more than a third of the authorities faulty.
 */
module ThresholdRuns {
  import opened Types
  import opened Sequences
  import opened Quorum
  import opened ProofStore
  import opened Protocol
  import opened ProtocolProgress
  import opened Importability

  /** A finished count of the event on the node that a gate at t accepts. */
  ghost predicate Accepted(cfg: Config, actions: seq<Action>, n: nat, id: nat, e: EventId, auths: seq<PublicPair>, t: nat) {
    var s := NodeOf(After(cfg, actions), n).state;
    CountFinished(s, id, e, auths) && AsU16(|s.ops[id].pc.found|) >= t
  }

  /** In the run, a gate at t accepts two events that no honest validator has both witnessed. */
  ghost predicate Disagrees(cfg: Config, actions: seq<Action>, auths: seq<PublicPair>, t: nat) {
    exists a, b, n1, n2, id1, id2 ::
      && Conflicting(cfg, After(cfg, actions), a, b)
      && Accepted(cfg, actions, n1, id1, a, auths, t) && Accepted(cfg, actions, n2, id2, b, auths, t)
  }

  /** No run with at most a third of the authorities faulty makes a gate at t disagree. */
  ghost predicate SafeGate(auths: seq<PublicPair>, t: nat) {
    forall cfg: Config, actions | |SetOf(auths) - cfg.honest| <= |auths| / 3 :: !Disagrees(cfg, actions, auths, t)
  }

  /** An accepted count is a quorum of authorities that are faulty or witnessed the event. */
  lemma AcceptedQuorum(cfg: Config, actions: seq<Action>, n: nat, id: nat, e: EventId, auths: seq<PublicPair>, t: nat)
    returns (q: set<PublicPair>)
    requires Accepted(cfg, actions, n, id, e, auths, t) && t >= Threshold(|auths|) && Distinct(auths)
    ensures q <= SetOf(auths) && |q| >= Threshold(|SetOf(auths)|)
    ensures forall k | k in q && k in cfg.honest :: (k, e) in After(cfg, actions).witnessed
  {
    RunsSound(cfg, actions);
    var node := NodeOf(After(cfg, actions), n);
    var found := node.state.ops[id].pc.found;
    assert OpSound(cfg, After(cfg, actions).network, node.held, node.state.ops[id]);
    q := SetOf(found);
    DistinctCardinality(found);
    DistinctCardinality(auths);
  }

  lemma ThresholdGateIsSafe(auths: seq<PublicPair>, t: nat)
    requires Distinct(auths) && t >= Threshold(|auths|)
    ensures SafeGate(auths, t)
  {
    forall cfg: Config, actions | |SetOf(auths) - cfg.honest| <= |auths| / 3 ensures !Disagrees(cfg, actions, auths, t) {
      if Disagrees(cfg, actions, auths, t) {
        var a, b, n1, n2, id1, id2 :|
          && Conflicting(cfg, After(cfg, actions), a, b)
          && Accepted(cfg, actions, n1, id1, a, auths, t) && Accepted(cfg, actions, n2, id2, b, auths, t);
        NoTwoQuorums(cfg, actions, auths, t, a, b, n1, n2, id1, id2);
      }
    }
  }

  lemma NoTwoQuorums(cfg: Config, actions: seq<Action>, auths: seq<PublicPair>, t: nat, a: EventId, b: EventId,
                     n1: nat, n2: nat, id1: nat, id2: nat)
    requires Distinct(auths) && t >= Threshold(|auths|) && |SetOf(auths) - cfg.honest| <= |auths| / 3
    requires Conflicting(cfg, After(cfg, actions), a, b)
    ensures !(Accepted(cfg, actions, n1, id1, a, auths, t) && Accepted(cfg, actions, n2, id2, b, auths, t))
  {
    if Accepted(cfg, actions, n1, id1, a, auths, t) && Accepted(cfg, actions, n2, id2, b, auths, t) {
      var qa := AcceptedQuorum(cfg, actions, n1, id1, a, auths, t);
      var qb := AcceptedQuorum(cfg, actions, n2, id2, b, auths, t);
      QuorumsIntersect(SetOf(auths), qa, qb);
      DistinctCardinality(auths);
      SubsetCardinality(qa * qb, SetOf(auths) - cfg.honest);
    }
  }

  // ----- A disagreeing run for every smaller value -----

  function Message(k: PublicPair, e: EventId): WitnessedEvent {
    WitnessedEvent(seq(64, _ => 0), k, e)
  }

  /** Each key signs the event, the faulty ones without witnessing it. */
  function Votes(honest: set<PublicPair>, ks: seq<PublicPair>, e: EventId): seq<Action> {
    seq(|ks|, i requires 0 <= i < |ks| =>
      if ks[i] in honest then Witness(Message(ks[i], e)) else Inject(Message(ks[i], e)))
  }

  lemma {:induction false} VotesArrive(cfg: Config, w: World, ks: seq<PublicPair>, e: EventId)
    ensures var w' := Continue(cfg, w, Votes(cfg.honest, ks, e));
            && w.network <= w'.network && (forall k | k in ks :: Message(k, e) in w'.network)
            && (forall p | p in w'.witnessed :: p in w.witnessed || (p.0 in ks && p.1 == e))
  {
    if ks != [] {
      var init := ks[..|ks| - 1];
      VotesArrive(cfg, w, init, e);
      assert Votes(cfg.honest, ks, e)[..|init|] == Votes(cfg.honest, init, e);
    }
  }

  /** The keys that vote for both events when the first t sign one and the last t the other. */
  function Doubles(auths: seq<PublicPair>, t: nat): set<PublicPair>
    requires t <= |auths|
  {
    SetOf(auths[..t]) * SetOf(auths[|auths| - t..])
  }

  lemma DoublesAreFew(auths: seq<PublicPair>, t: nat)
    requires Distinct(auths) && t < Threshold(|auths|) && t <= |auths|
    ensures |Doubles(auths, t)| <= |auths| / 3
  {
    var n := |auths|;
    var lo := if n - t <= t then n - t else t;
    forall k | k in Doubles(auths, t) ensures k in auths[lo..t] {
      var i :| 0 <= i < t && auths[i] == k;
      var j :| n - t <= j < n && auths[j] == k;
      assert i == j;
      assert auths[lo..t][i - lo] == k;
    }
    SubsetCardinality(Doubles(auths, t), SetOf(auths[lo..t]));
    SetOfCardinality(auths[lo..t]);
  }

  /** Verification accepts everything, and the double voters are the faulty keys. */
  function SplitConfig(auths: seq<PublicPair>, t: nat): Config
    requires t <= |auths|
  {
    Config((_, _, _) => true, SetOf(auths) - Doubles(auths, t), _ => auths)
  }

  lemma SplitConflicts(w: World, auths: seq<PublicPair>, t: nat, a: EventId, b: EventId)
    requires t <= |auths| && a != b
    requires forall p | p in w.witnessed :: (p.0 in auths[..t] && p.1 == a) || (p.0 in auths[|auths| - t..] && p.1 == b)
    ensures Conflicting(SplitConfig(auths, t), w, a, b)
  {
    forall k | (k, a) in w.witnessed && (k, b) in w.witnessed ensures k in Doubles(auths, t) {}
  }

  lemma SplitVote(auths: seq<PublicPair>, t: nat, a: EventId, b: EventId) returns (votes: seq<Action>)
    requires t <= |auths| && a != b
    ensures var cfg := SplitConfig(auths, t);
            && Conflicting(cfg, After(cfg, votes), a, b)
            && (forall k | k in auths[..t] :: Message(k, a) in After(cfg, votes).network)
            && (forall k | k in auths[|auths| - t..] :: Message(k, b) in After(cfg, votes).network)
  {
    var cfg := SplitConfig(auths, t);
    var first, second := auths[..t], auths[|auths| - t..];
    var va, vb := Votes(cfg.honest, first, a), Votes(cfg.honest, second, b);
    VotesArrive(cfg, GENESIS, first, a);
    VotesArrive(cfg, Continue(cfg, GENESIS, va), second, b);
    votes := va + vb;
    ContinueConcat(cfg, GENESIS, va, vb);
    AfterIsContinue(cfg, [], votes);
    assert [] + votes == votes;
    SplitConflicts(After(cfg, votes), auths, t, a, b);
  }

  /** A store with the signatures of t listed keys gives a count a gate at t accepts. */
  lemma TalliedAccepted(st: Store, e: EventId, auths: seq<PublicPair>, ks: seq<PublicPair>, t: nat)
    requires Distinct(auths) && |auths| <= 0xFFFF && Distinct(ks) && |ks| == t && SetOf(ks) <= SetOf(auths)
    requires forall k | k in ks :: (e, k) in st.sigs
    ensures AsU16(CountIn(auths, StoredSigners(st, e))) >= t
  {
    CountInDistinct(auths, StoredSigners(st, e));
    DistinctCardinality(ks);
    forall k | k in ks ensures k in StoredSigners(st, e) {
      StoredSignersContain(st, e, k);
    }
    SubsetCardinality(SetOf(ks), SetOf(auths) * StoredSigners(st, e));
    SmallU16(CountIn(auths, StoredSigners(st, e)));
  }

  lemma SmallerGateDisagrees(auths: seq<PublicPair>, t: nat) returns (actions: seq<Action>)
    requires Distinct(auths) && |auths| <= 0xFFFF && (forall k | k in auths :: |k.raw| == 32)
    requires t < Threshold(|auths|)
    ensures Disagrees(SplitConfig(auths, t), actions, auths, t)
  {
    var cfg := SplitConfig(auths, t);
    var a: EventId, b: EventId := seq(32, _ => 0), seq(32, _ => 1);
    assert a[0] != b[0];
    var votes := SplitVote(auths, t, a, b);
    var w := After(cfg, votes);
    var handling := HandleNetwork(cfg, w, 0, auths);
    var w1 := Continue(cfg, w, handling);
    var id := NextId(NodeOf(w1, 0).state.ops.Keys);
    var counting, counters := CountAll(cfg, w1, 0, auths, [a, b], id);
    actions := votes + (handling + counting);
    AfterIsContinue(cfg, votes, handling + counting);
    ContinueConcat(cfg, w, handling, counting);
    var s := NodeOf(After(cfg, actions), 0).state;
    VotesStored(cfg, w, s.store, auths, auths[..t], a);
    VotesStored(cfg, w, s.store, auths, auths[|auths| - t..], b);
    TalliedAccepted(s.store, a, auths, auths[..t], t);
    TalliedAccepted(s.store, b, auths, auths[|auths| - t..], t);
    assert Tallied(s, counters[a], a, auths) && Tallied(s, counters[b], b, auths);
    assert Accepted(cfg, actions, 0, counters[a], a, auths, t) && Accepted(cfg, actions, 0, counters[b], b, auths, t);
    assert Conflicting(cfg, After(cfg, actions), a, b);
  }

  lemma VotesStored(cfg: Config, w: World, st: Store, auths: seq<PublicPair>, ks: seq<PublicPair>, e: EventId)
    requires forall m | Deliverable(cfg, w.network, auths, m) :: (m.eventId, m.pubKey) in st.sigs
    requires forall k | k in ks :: k in auths && |k.raw| == 32 && Message(k, e) in w.network
    requires forall p, x, g :: cfg.verify(p, x, g)
    ensures forall k | k in ks :: (e, k) in st.sigs
  {
    forall k | k in ks ensures (e, k) in st.sigs {
      assert Deliverable(cfg, w.network, auths, Message(k, e));
    }
  }

  /**
    Over runs, too, the threshold is the least safe one: for every duplicate-free list of sr25519
    keys, a gate at t never accepts two conflicting events with at most a third of the list faulty
    if and only if t is at least floor(2n/3) + 1.
   */
  lemma ThresholdExactOverRuns(auths: seq<PublicPair>, t: nat)
    requires Distinct(auths) && |auths| <= 0xFFFF && forall k | k in auths :: |k.raw| == 32
    ensures SafeGate(auths, t) <==> t >= Threshold(|auths|)
  {
    if t >= Threshold(|auths|) {
      ThresholdGateIsSafe(auths, t);
    } else {
      var actions := SmallerGateDisagrees(auths, t);
      DoublesAreFew(auths, t);
      assert SetOf(auths) - SplitConfig(auths, t).honest == Doubles(auths, t);
    }
  }
}
