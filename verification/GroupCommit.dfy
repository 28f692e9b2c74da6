/** The group-commit coordinator: its state and the critical sections that change it. */
module GroupCommit {

  /** The fields behind the coordinator's mutex. */
  datatype Coord = Coord(pending: nat, durable: nat, syncing: bool) {

    function Record(): Coord {
      this.(pending := pending + 1)
    }

    function MarkAll(): Coord {
      this.(durable := pending)
    }

    /** One turn of the commit loop with the mutex held. */
    function Decide(target: nat): Decision {
      if durable >= target then Finished
      else if !syncing then Lead(pending)
      else Wait
    }

    /** The state a decision leaves behind. */
    function Decided(target: nat): Coord {
      if Decide(target).Lead? then this.(syncing := true) else this
    }

    /** The leader is back with the mutex; a failed fsync advances nothing. */
    function FinishSync(coversUpTo: nat, ok: bool): Coord {
      Coord(pending, if ok && coversUpTo > durable then coversUpTo else durable, false)
    }
  }

  datatype Decision = Finished | Lead(coversUpTo: nat) | Wait

  /** The coordinator. Each method is one critical section of the source; what a
      thread does between two of them is in the protocol's steps. */
  class GroupCommit {
    var pendingWrites: nat
    var maxDurableGeneration: nat
    var isSyncing: bool
    var nFsyncCalls: nat

    function State(): Coord
      reads this
    {
      Coord(pendingWrites, maxDurableGeneration, isSyncing)
    }

    /** Nothing is durable that was not recorded. */
    predicate Valid()
      reads this
    {
      maxDurableGeneration <= pendingWrites
    }

    constructor ()
      ensures Valid() && State() == Coord(0, 0, false) && nFsyncCalls == 0
    {
      pendingWrites, maxDurableGeneration, isSyncing, nFsyncCalls := 0, 0, false, 0;
    }

    /** Generations count up from 1, and a new one is never durable yet. */
    method RecordPending() returns (generation: nat)
      requires Valid()
      modifies this`pendingWrites
      ensures Valid() && State() == old(State()).Record()
      ensures generation == pendingWrites == old(pendingWrites) + 1 && generation > maxDurableGeneration
    {
      pendingWrites := pendingWrites + 1;
      generation := pendingWrites;
    }

    /** Everything recorded becomes durable; nothing ceases to be. */
    method MarkAllDurable()
      requires Valid()
      modifies this`maxDurableGeneration
      ensures Valid() && State() == old(State()).MarkAll()
      ensures old(maxDurableGeneration) <= maxDurableGeneration == pendingWrites
    {
      maxDurableGeneration := pendingWrites;
    }

    /** From the head of the commit loop to the point where the mutex is given up. There is
        never more than one leader, and it takes along everything recorded so far. */
    method TryCommit(targetGeneration: nat) returns (decision: Decision)
      requires Valid()
      modifies this`isSyncing
      ensures Valid() && decision == old(State()).Decide(targetGeneration)
      ensures State() == old(State()).Decided(targetGeneration)
      ensures decision.Finished? <==> targetGeneration <= maxDurableGeneration
      ensures decision.Lead? ==> !old(isSyncing) && isSyncing && decision.coversUpTo == pendingWrites
      ensures decision.Wait? ==> isSyncing
    {
      if maxDurableGeneration >= targetGeneration {
        return Finished;
      }
      if !isSyncing {
        isSyncing := true;
        var coversUpTo := pendingWrites;
        return Lead(coversUpTo);
      }
      return Wait;
    }

    /** The leader's second critical section, after its fsync came back: what was durable stays
        so, what the round covers is durable if it succeeded, and there is no leader any more. */
    method AfterFsync(coversUpTo: nat, ok: bool)
      requires Valid() && coversUpTo <= pendingWrites
      modifies this`isSyncing, this`maxDurableGeneration, this`nFsyncCalls
      ensures Valid() && State() == old(State()).FinishSync(coversUpTo, ok)
      ensures old(maxDurableGeneration) <= maxDurableGeneration && !isSyncing
      ensures if ok then coversUpTo <= maxDurableGeneration else maxDurableGeneration == old(maxDurableGeneration)
      ensures nFsyncCalls == old(nFsyncCalls) + 1
    {
      nFsyncCalls := nFsyncCalls + 1;
      isSyncing := false;
      if ok {
        maxDurableGeneration := if maxDurableGeneration > coversUpTo then maxDurableGeneration else coversUpTo;
      }
    }

    /** The commit loop of a thread nobody else disturbs: one fsync if its generation is not
        durable yet, none if it is, and an error only if that fsync fails. */
    method CommitUndisturbed(targetGeneration: nat, fsyncOk: bool) returns (ok: bool)
      requires Valid() && !isSyncing && targetGeneration <= pendingWrites
      modifies this
      ensures Valid() && !isSyncing && pendingWrites == old(pendingWrites)
      ensures ok <==> old(maxDurableGeneration) >= targetGeneration || fsyncOk
      ensures ok ==> maxDurableGeneration >= targetGeneration
      ensures nFsyncCalls == old(nFsyncCalls) + if old(maxDurableGeneration) >= targetGeneration then 0 else 1
    {
      while true
        invariant Valid() && !isSyncing && pendingWrites == old(pendingWrites)
        invariant maxDurableGeneration >= old(maxDurableGeneration)
        invariant maxDurableGeneration < targetGeneration ==> nFsyncCalls == old(nFsyncCalls)
        invariant maxDurableGeneration >= targetGeneration ==>
          if old(maxDurableGeneration) >= targetGeneration then nFsyncCalls == old(nFsyncCalls)
          else nFsyncCalls == old(nFsyncCalls) + 1 && fsyncOk
        decreases targetGeneration - maxDurableGeneration
      {
        var decision := TryCommit(targetGeneration);
        if decision.Finished? {
          return true;
        }
        AfterFsync(decision.coversUpTo, fsyncOk);
        if !fsyncOk {
          return false;
        }
      }
    }
  }
}
