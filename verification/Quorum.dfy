/** The witness threshold: how many of n authorities must have signed an event. */
module Quorum {
  import opened Types
  import opened Sequences

  /** The threshold before the cast, floor(2n/3) + 1. */
  function Threshold(n: nat): nat {
    n * 2 / 3 + 1
  }

  /** The longest authority list whose threshold fits the u16. */
  const CAST_LIMIT := 98302

  /** The threshold as computed, with its u16 cast. */
  function Target(n: nat): nat {
    AsU16(Threshold(n))
  }

  /** The voters lo, ..., hi - 1. */
  function Range(lo: nat, hi: nat): (r: set<nat>)
    requires lo <= hi
    ensures forall i: nat :: i in r <==> lo <= i < hi
    ensures |r| == hi - lo
    decreases hi
  {
    if lo == hi then {} else Range(lo, hi - 1) + {hi - 1}
  }

  /**
    Out of n voters, two conflicting events never both collect t votes when at most n/3 voters
    vote for both.
   */
  ghost predicate SafeThreshold(n: nat, t: nat) {
    forall a: set<nat>, b: set<nat> |
      a <= Range(0, n) && b <= Range(0, n) && |a * b| <= n / 3 :: |a| < t || |b| < t
  }

  /** Two quorums over the same electorate share more than a third of it. */
  lemma QuorumsIntersect<T>(all: set<T>, a: set<T>, b: set<T>)
    requires a <= all && b <= all
    requires |a| >= Threshold(|all|) && |b| >= Threshold(|all|)
    ensures |a * b| > |all| / 3
  {
    SubsetCardinality(a + b, all);
  }

  /** The threshold is the least safe one: every smaller value admits two conflicting vote sets. */
  lemma ThresholdExact(n: nat, t: nat)
    ensures SafeThreshold(n, t) <==> t >= Threshold(n)
  {
    if t >= Threshold(n) {
      forall a: set<nat>, b: set<nat> |
        a <= Range(0, n) && b <= Range(0, n) && |a * b| <= n / 3
        ensures |a| < t || |b| < t
      {
        if |a| >= t && |b| >= t {
          QuorumsIntersect(Range(0, n), a, b);
        }
      }
    } else {
      var a, b := Range(0, t), Range(n - t, n);
      var lo := if n - t <= t then n - t else t;
      assert a * b == Range(lo, t);
    }
  }

  /**
    A strict majority of the non-failing authorities plus all the double voters, as the design
    derives the formula.
   */
  lemma ThresholdIsMajorityPlusFaulty(n: nat)
    ensures Threshold(n) == (n - n / 3) / 2 + 1 + n / 3
  {}

  /** The non-failing authorities alone reach the threshold exactly when fewer than n/3 fail. */
  lemma ThresholdReachable(n: nat, f: nat)
    requires f <= n
    ensures Threshold(n) <= n - f <==> 3 * f < n
  {}

  /** A count accepted through its cast is a true quorum. */
  lemma AcceptedIsQuorum(count: nat, n: nat)
    requires n <= CAST_LIMIT && AsU16(count) >= Target(n)
    ensures count >= Threshold(n)
  {}

  /** The cast loses nothing exactly up to 98302 authorities. */
  lemma TargetCastExact(n: nat)
    ensures Target(n) == Threshold(n) <==> n <= CAST_LIMIT
  {}
}
