/** Progress of the compare-and-set loops under arbitrary interleaving. */
module LockFreedom {
  import opened Types
  import opened ProofStore
  import opened ConcurrentStore

  /** Failed compare-and-sets of an operation so far. */
  function Failures(start: Store, actions: seq<Action>, id: nat): nat {
    if actions == [] then 0
    else
      var before := actions[..|actions| - 1];
      var s := After(start, before);
      Failures(start, before, id) +
      if actions[|actions| - 1] == Run(id) && id in s.ops && Fails(s.store, s.ops[id]) then 1 else 0
  }

  /** The action is a successful compare-and-set of another operation on the same event. */
  predicate RivalWin(s: State, a: Action, id: nat) {
    && a.Run? && a.id != id && a.id in s.ops && id in s.ops
    && EventOf(s.ops[a.id].task) == EventOf(s.ops[id].task)
    && Wins(s.store, s.ops[a.id])
  }

  /** Successful compare-and-sets by others on the operation's event since it started. */
  function RivalWins(start: Store, actions: seq<Action>, id: nat): nat {
    if actions == [] then 0
    else
      var before := actions[..|actions| - 1];
      RivalWins(start, before, id) +
      if RivalWin(After(start, before), actions[|actions| - 1], id) then 1 else 0
  }

  /** The value of RivalWins when the operation last read the index. */
  function RivalWinsAtRead(start: Store, actions: seq<Action>, id: nat): nat {
    if actions == [] then 0
    else
      var before := actions[..|actions| - 1];
      var s := After(start, before);
      if actions[|actions| - 1] == Run(id) && id in s.ops && s.ops[id].pc.ReadIndex?
      then RivalWins(start, before, id)
      else RivalWinsAtRead(start, before, id)
  }

  /** An operation holding a list it read has been overtaken whenever the index differs from it. */
  ghost predicate Overtaken(start: Store, actions: seq<Action>, id: nat) {
    var s := After(start, actions);
    if id !in s.ops then
      Failures(start, actions, id) == RivalWins(start, actions, id) == 0
    else if s.ops[id].pc.RemoveNext? || s.ops[id].pc.Swap? then
      && Failures(start, actions, id) <= RivalWinsAtRead(start, actions, id) <= RivalWins(start, actions, id)
      && (Lookup(s.store.index, EventOf(s.ops[id].task)) != s.ops[id].pc.existing ==>
            RivalWinsAtRead(start, actions, id) < RivalWins(start, actions, id))
    else
      Failures(start, actions, id) <= RivalWins(start, actions, id)
  }

  lemma {:induction false} EveryFailureIsOvertaken(start: Store, actions: seq<Action>, id: nat)
    ensures Overtaken(start, actions, id)
  {
    if actions != [] {
      var before, a := actions[..|actions| - 1], actions[|actions| - 1];
      var s := After(start, before);
      EveryFailureIsOvertaken(start, before, id);
      if id in s.ops && !RivalWin(s, a, id) && a != Run(id) {
        IndexChange(s, a, EventOf(s.ops[id].task));
      }
    }
  }

  /**
    In every run, an operation's failed compare-and-sets never outnumber the successful ones of
    other operations on its event; a lone caller finishes in one pass.
   */
  lemma FailuresBounded(start: Store, actions: seq<Action>, id: nat)
    ensures Failures(start, actions, id) <= RivalWins(start, actions, id)
  {
    EveryFailureIsOvertaken(start, actions, id);
  }
}
