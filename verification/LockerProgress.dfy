/** No run of the Locker deadlocks, and every finite set of calls finishes. */
module LockerProgress {
  import opened LockTable
  import opened Locker
  import opened LockerInvariant
  import opened LockerTheorems

  /** No call is in the middle of an Acquire or a release. */
  ghost predicate Quiescent(s: State) {
    forall t | 0 <= t < |s.calls| :: Finished(s.calls[t].pc)
  }

  // ---------- Somebody can always step ----------

  /** Only a call at a program point that holds the lock can be in the way of another. */
  lemma HolderOf(s: State, f: File)
    requires Inv(s) && f in s.table
    ensures f.owner < |s.calls|
    ensures s.table[f].inode.Root? ==> HoldsRoot(s.calls[f.owner].pc)
    ensures s.table[f].inode.Directory? ==> HoldsDir(s.calls[f.owner].pc)
  {
    assert Owns(s, f.owner);
    match f.slot
    case GlobalSlot => assert f == File(f.owner, GlobalSlot);
    case DirectorySlot => assert f == File(f.owner, DirectorySlot);
    case ReadSlot => assert f == File(f.owner, ReadSlot);
    case ExclusiveSlot => assert f == File(f.owner, ExclusiveSlot);
  }

  /** Whoever holds a directory lock waits at most for a read lock, which is free. */
  lemma DirectoryHolderSteps(s: State, u: nat)
    requires Inv(s) && u < |s.calls| && HoldsDir(s.calls[u].pc)
    ensures CanStep(s, u, Succeeds)
  {
    if s.calls[u].pc.AFlockLock? { ReadLockIsGrantedAtOnce(s, u); }
  }

  /** A call that waits for a directory lock can have it, or its holder can step. */
  lemma DirectoryWaiterHasProgress(s: State, t: nat) returns (u: nat)
    requires Inv(s) && t < |s.calls| && (s.calls[t].pc.AFlockDir? || s.calls[t].pc.RFlockDir?)
    ensures CanStep(s, u, Succeeds)
  {
    var lock := Lock(Directory(s.calls[t].dir), true);
    if Grantable(s.table, lock) {
      u := t;
    } else {
      var f :| f in s.table && s.table[f].inode == lock.inode;
      HolderOf(s, f);
      u := f.owner;
      DirectoryHolderSteps(s, u);
    }
  }

  /** Whenever some call is unfinished, some call can take a step that succeeds: no deadlock. */
  lemma SomeCallCanStep(s: State, t: nat) returns (u: nat)
    requires Inv(s) && t < |s.calls| && !Finished(s.calls[t].pc)
    ensures CanStep(s, u, Succeeds)
  {
    var c := s.calls[t];
    if CanStep(s, t, Succeeds) {
      u := t;
    } else if c.pc.AFlockDir? || c.pc.RFlockDir? {
      u := DirectoryWaiterHasProgress(s, t);
    } else if c.pc.AFlockLock? {
      ReadLockIsGrantedAtOnce(s, t);
      u := t;
    } else {
      var f :| f in s.table && s.table[f].inode == Root;
      HolderOf(s, f);
      if CanStep(s, f.owner, Succeeds) {
        u := f.owner;
      } else {
        u := DirectoryWaiterHasProgress(s, f.owner);
      }
    }
  }

  // ---------- Runs are bounded ----------

  const MAX_RANK := 16

  /** Steps that are left, at most. */
  function Rank(pc: PC): (r: nat)
    ensures r <= MAX_RANK
  {
    match pc
    case AMakeRoot => 16 case AOpenRoot => 15 case AFlockRoot => 14 case AMakeDir => 13
    case AOpenDir => 12 case AFlockDir => 11 case AUnlockRoot => 10 case ATouch => 9
    case AOpenLock => 8 case AFlockLock => 7 case AFactory => 6 case AUnlockDir => 5
    case AFailRead => 5 case AFailDir => 4 case AFailRoot => 4 case AHeld => 1 case AFailed => 1
    case ROpenRoot => 16 case RFlockRoot => 15 case ROpenDir => 14 case RFlockDir => 13
    case RUnlockRead => 12 case RTryOpen => 11 case RTryFlock => 10 case RCleanup => 9
    case RUnlockExclusive => 8 case RUnlink => 7 case RRemoveDir => 6 case RUnlockDir => 5
    case RUnlockRoot => 4 case RFailRoot => 4 case RFailRead => 3 case RDone => 1
    case Dead => 0
  }

  function TotalRank(calls: seq<Call>): nat {
    if calls == [] then 0 else Rank(calls[0].pc) + TotalRank(calls[1..])
  }

  lemma {:induction false} TotalAfterUpdate(calls: seq<Call>, t: nat, c: Call)
    requires t < |calls|
    ensures TotalRank(calls[t := c]) == TotalRank(calls) - Rank(calls[t].pc) + Rank(c.pc)
  {
    if t == 0 {
      assert calls[t := c][1..] == calls[1..];
    } else {
      assert calls[t := c][1..] == calls[1..][t - 1 := c];
      TotalAfterUpdate(calls[1..], t - 1, c);
    }
  }

  lemma {:induction false} TotalAfterAppend(calls: seq<Call>, c: Call)
    ensures TotalRank(calls + [c]) == TotalRank(calls) + Rank(c.pc)
  {
    if calls == [] {
      assert calls + [c] == [c];
    } else {
      assert (calls + [c])[1..] == calls[1..] + [c];
      TotalAfterAppend(calls[1..], c);
    }
  }

  /** Fewer steps are left for one call, and no more for any other. */
  lemma {:induction false} TotalIsMonotone(calls: seq<Call>, calls': seq<Call>)
    requires |calls| == |calls'|
    requires forall t | 0 <= t < |calls| :: Rank(calls'[t].pc) <= Rank(calls[t].pc)
    ensures TotalRank(calls') <= TotalRank(calls)
    ensures (exists t | 0 <= t < |calls| :: Rank(calls'[t].pc) < Rank(calls[t].pc)) ==>
              TotalRank(calls') < TotalRank(calls)
  {
    if calls != [] {
      assert forall t | 1 <= t < |calls| :: calls[t] == calls[1..][t - 1] && calls'[t] == calls'[1..][t - 1];
      TotalIsMonotone(calls[1..], calls'[1..]);
    }
  }

  lemma AcquireRanks(pc: PC)
    requires IsAcquire(pc) && !Finished(pc)
    ensures Rank(Onward(pc)) < Rank(pc) && Rank(OnFailure(pc)) < Rank(pc)
  {
    match pc
    case AMakeRoot => case AOpenRoot => case AFlockRoot => case AMakeDir => case AOpenDir => case AFlockDir =>
    case AUnlockRoot => case ATouch => case AOpenLock => case AFlockLock => case AFactory => case AUnlockDir =>
    case AFailRoot => case AFailRead => case AFailDir =>
  }

  lemma AcquireLowersRank(s: State, t: nat, c: Call, ok: bool, late: bool)
    requires IsAcquire(c.pc) && !Finished(c.pc)
    ensures Rank(StepAcquire(s, t, c, ok, late).call.pc) < Rank(c.pc)
  {
    AcquireMoves(s, t, c, ok, late);
    AcquireRanks(c.pc);
    hide StepAcquire, Onward, OnFailure, Rank;
  }

  lemma ReleaseRanks(pc: PC)
    requires !IsAcquire(pc) && !Finished(pc)
    ensures Rank(Onward(pc)) < Rank(pc) && Rank(OnFailure(pc)) < Rank(pc)
  {
    match pc
    case ROpenRoot => case RFlockRoot => case ROpenDir => case RFlockDir => case RUnlockRead => case RTryOpen =>
    case RTryFlock => case RCleanup => case RUnlockExclusive => case RUnlink => case RRemoveDir => case RUnlockDir =>
    case RUnlockRoot => case RFailRoot => case RFailRead =>
  }

  lemma ReleaseLowersRank(s: State, t: nat, c: Call, ok: bool)
    requires !IsAcquire(c.pc) && !Finished(c.pc)
    ensures Rank(StepRelease(s, t, c, ok).call.pc) < Rank(c.pc)
  {
    ReleaseMoves(s, t, c, ok);
    ReleaseRanks(c.pc);
    hide StepRelease, Onward, OnFailure, Rank;
  }

  lemma StepLowersTotal(s: State, t: nat, o: Outcome)
    requires t < |s.calls| && !Finished(s.calls[t].pc)
    ensures TotalRank(Commit(s, t, EffectOf(s, t, o)).calls) < TotalRank(s.calls)
  {
    var c := s.calls[t];
    if IsAcquire(c.pc) { AcquireLowersRank(s, t, c, o.Succeeds?, o.FailsLate?); }
    else { ReleaseLowersRank(s, t, c, o.Succeeds?); }
    TotalAfterUpdate(s.calls, t, EffectOf(s, t, o).call);
  }

  lemma DeadHasNoRank(pc: PC)
    ensures Rank(Dead) == 0
    ensures !pc.Dead? ==> Rank(pc) > 0
  {
  }

  lemma CrashLowersTotal(s: State, p: nat)
    requires Enabled(s, Crash(p))
    ensures TotalRank(Kill(s, p).calls) < TotalRank(s.calls)
  {
    var u :| 0 <= u < |s.calls| && s.calls[u].process == p && !s.calls[u].pc.Dead?;
    var calls := Kill(s, p).calls;
    assert forall t | 0 <= t < |s.calls| :: calls[t].pc.Dead? || calls[t] == s.calls[t];
    assert calls[u].pc.Dead?;
    hide Kill, Enabled;
    DeadHasNoRank(s.calls[u].pc);
    hide Rank;
    TotalIsMonotone(s.calls, calls);
  }

  lemma EventLowersTotal(s: State, e: Event)
    requires Enabled(s, e)
    ensures e.Step? || e.Crash? ==> TotalRank(Apply(s, e).calls) < TotalRank(s.calls)
    ensures e.CallAcquire? || e.CallRelease? ==> TotalRank(Apply(s, e).calls) == TotalRank(s.calls) + MAX_RANK
  {
    match e
    case Step(t, o) => StepLowersTotal(s, t, o);
    case Crash(p) => CrashLowersTotal(s, p);
    case CallAcquire(p, k) => TotalAfterAppend(s.calls, Call(p, k, |s.calls|, AMakeRoot, 0, 0));
    case CallRelease(h) => TotalAfterAppend(s.calls, Call(s.calls[h].process, s.calls[h].key, h, ROpenRoot, 0, 0));
  }

  function NewCalls(run: seq<Event>): nat {
    if run == [] then 0
    else (if run[0].CallAcquire? || run[0].CallRelease? then 1 else 0) + NewCalls(run[1..])
  }

  /** A run is never longer than 17 events for each call it makes, plus what was left to do at the start. */
  lemma {:induction false} RunsAreBounded(s: State, run: seq<Event>)
    requires ValidRun(s, run)
    ensures |run| + TotalRank(After(s, run).calls) <= TotalRank(s.calls) + 17 * NewCalls(run)
    decreases |run|
  {
    if run != [] {
      EventLowersTotal(s, run[0]);
      RunsAreBounded(Apply(s, run[0]), run[1..]);
    }
  }

  /** From every reachable state the calls under way can be run to the end, with no further failure. */
  lemma {:induction false} EveryCallFinishes(s: State) returns (run: seq<Event>)
    requires Inv(s)
    ensures ValidRun(s, run) && Quiescent(After(s, run))
    ensures forall e | e in run :: e.Step? && e.outcome.Succeeds?
    decreases TotalRank(s.calls)
  {
    if Quiescent(s) {
      run := [];
    } else {
      var t :| 0 <= t < |s.calls| && !Finished(s.calls[t].pc);
      var u := SomeCallCanStep(s, t);
      var e := Step(u, Succeeds);
      EventLowersTotal(s, e);
      StepKeepsInv(s, e);
      var rest := EveryCallFinishes(Apply(s, e));
      run := [e] + rest;
      assert run[1..] == rest;
    }
  }
}
