/** What the Locker promises its callers, over every run from an empty store. */
module LockerTheorems {
  import opened LockTable
  import opened Locker
  import opened LockerInvariant
  import Paths

  /** The state reached from an empty store by a run of calls, steps, failures and crashes. */
  ghost predicate Reaches(run: seq<Event>, s: State) {
    ValidRun(INITIAL, run) && After(INITIAL, run) == s
  }

  lemma ReachedIsInv(run: seq<Event>, s: State)
    requires Reaches(run, s)
    ensures Inv(s)
  {
    RunKeepsInv(INITIAL, run);
  }

  // ---------- Holders keep their entry ----------

  /** Acquire returned to this call, its process lives, and its read lock has not been given up. */
  ghost predicate Holder(s: State, t: nat) {
    t < |s.calls| && s.calls[t].pc.AHeld? && Reads(s, t)
  }

  /** Whatever the others do, a holder finds at the path the very directory and lock file it locked. */
  lemma HoldersKeepTheirEntry(run: seq<Event>, s: State, t: nat)
    requires Reaches(run, s) && Holder(s, t)
    ensures AtPath(s, t)
    ensures s.table[File(t, ReadSlot)] == Lock(LockFile(s.lockFiles[s.dirs[s.calls[t].key]]), false)
  {
    ReachedIsInv(run, s);
    assert Placed(s, t) && Owns(s, t);
  }

  /** The step e gives up the read lock of the Acquire call h: the release function of h runs, its factory failed,
      or its process dies. */
  predicate GivesUp(s: State, e: Event, h: nat)
    requires h < |s.calls|
  {
    match e
    case Step(t, _) =>
      t < |s.calls| && s.calls[t].handle == h
      && (s.calls[t].pc.RUnlockRead? || s.calls[t].pc.RFailRead? || s.calls[t].pc.AFailRead?)
    case Crash(p) => s.calls[h].process == p
    case _ => false
  }

  /** Only its own release or the death of its process ends a hold; until then the inodes it names never change. */
  lemma HoldersPersist(s: State, e: Event, h: nat)
    requires Inv(s) && Enabled(s, e) && Holder(s, h)
    ensures !Holder(Apply(s, e), h) <==> GivesUp(s, e, h)
    ensures Holder(Apply(s, e), h) ==>
              Apply(s, e).calls[h] == s.calls[h] && AtPath(s, h) && AtPath(Apply(s, e), h)
  {
    StepKeepsInv(s, e);
    assert Placed(s, h) && Owns(s, h) && Handled(s, h);
    var s' := Apply(s, e);
    if e.Step? {
      assert Handled(s, e.call) && Owns(s, e.call);
      StepLeavesReads(s, e.call, e.outcome, h);
    }
    assert Placed(s', h);
  }

  lemma StepLeavesReads(s: State, t: nat, o: Outcome, h: nat)
    requires CanStep(s, t, o) && Holder(s, h) && Handled(s, t) && Handled(s, h) && Owns(s, t)
    ensures !Reads(Apply(s, Step(t, o)), h) <==> GivesUp(s, Step(t, o), h)
    ensures t != h && Apply(s, Step(t, o)).calls[h] == s.calls[h]
  {
  }

  // ---------- Locks are on the inode at the path ----------

  /** When a lock on an entry directory is granted, the locked inode is the one now at that path,
      although it was opened in an earlier step. */
  lemma GrantedDirectoryIsCurrent(run: seq<Event>, s: State, t: nat)
    requires Reaches(run, s) && CanStep(s, t, Succeeds)
    requires s.calls[t].pc.AFlockDir? || s.calls[t].pc.RFlockDir?
    ensures var s' := Apply(s, Step(t, Succeeds));
            && File(t, DirectorySlot) in s'.table
            && s.calls[t].key in s'.dirs
            && s'.table[File(t, DirectorySlot)] == Lock(Directory(s'.dirs[s.calls[t].key]), true)
  {
    ReachedIsInv(run, s);
    assert Placed(s, t) && Owns(s, t);
  }

  /** The try-lock of a release succeeds exactly when no live call holds a read lock on the entry. */
  lemma TryLockFindsLastHolder(run: seq<Event>, s: State, t: nat)
    requires Reaches(run, s) && t < |s.calls| && s.calls[t].pc.RTryFlock?
    ensures Apply(s, Step(t, Succeeds)).calls[t].pc.RCleanup? <==>
            forall u | 0 <= u < |s.calls| && Reads(s, u) :: s.calls[u].key != s.calls[t].key
    ensures Apply(s, Step(t, Succeeds)).calls[t].pc.RUnlockDir? <==>
            exists u | 0 <= u < |s.calls| && Reads(s, u) :: s.calls[u].key == s.calls[t].key
  {
    ReachedIsInv(run, s);
    LastHolderIsAlone(s, t);
  }

  /** Acquire never waits for the lock file: nobody can hold it exclusively at that point. */
  lemma ReadLockIsGrantedAtOnce(s: State, t: nat)
    requires Inv(s) && t < |s.calls| && s.calls[t].pc.AFlockLock?
    ensures CanStep(s, t, Succeeds)
  {
    var lock := Lock(LockFile(s.calls[t].file), false);
    assert Owns(s, t) && Placed(s, t);
    forall f | f in s.table && s.table[f].inode == lock.inode ensures !s.table[f].exclusive {
      LockFileSlots(s, f);
      assert Owns(s, f.owner) && Placed(s, f.owner);
      SameDirSameKey(s, t, f.owner);
      OneInside(s, t, f.owner);
    }
  }

  // ---------- Factories and cleanups ----------

  predicate InFactory(s: State, t: nat) { t < |s.calls| && s.calls[t].pc.AFactory? }

  predicate InCleanup(s: State, t: nat) { t < |s.calls| && s.calls[t].pc.RCleanup? }

  /** For each key at most one call is inside a factory or a cleanup function. */
  lemma OneCallbackPerKey(run: seq<Event>, s: State, t: nat, u: nat)
    requires Reaches(run, s)
    requires InFactory(s, t) || InCleanup(s, t)
    requires InFactory(s, u) || InCleanup(s, u)
    requires s.calls[t].key == s.calls[u].key
    ensures t == u
  {
    ReachedIsInv(run, s);
    OneInside(s, t, u);
  }

  /** Cleanups are serialised across all keys of the store. */
  lemma OneCleanupAtATime(run: seq<Event>, s: State, t: nat, u: nat)
    requires Reaches(run, s) && InCleanup(s, t) && InCleanup(s, u)
    ensures t == u
  {
    ReachedIsInv(run, s);
    OneGlobal(s, t, u);
  }

  /** From the start of a cleanup to the end of the removal the key has no holder, no factory runs for it
      and no other call can reach it, unless the cleaner dies (and then it is not at these points). */
  lemma CleanupIsAlone(run: seq<Event>, s: State, t: nat, u: nat)
    requires Reaches(run, s) && t < |s.calls| && Alone(s.calls[t].pc)
    requires u < |s.calls| && u != t && s.calls[u].key == s.calls[t].key
    ensures !Holder(s, u) && !Reads(s, u) && !InFactory(s, u) && !InCleanup(s, u)
  {
    ReachedIsInv(run, s);
    NobodyElse(s, t, u);
  }

  // ---------- Steps with and without a failure ----------

  /** Every system call and every factory may fail, whatever the others do; unlocking and cleanup may not. */
  lemma StepsThatMayFail(s: State, t: nat)
    requires t < |s.calls|
    ensures var pc := s.calls[t].pc;
            CanStep(s, t, Fails) <==>
            || pc.AMakeRoot? || pc.AOpenRoot? || pc.AFlockRoot? || pc.AMakeDir? || pc.AOpenDir? || pc.AFlockDir?
            || pc.ATouch? || pc.AOpenLock? || pc.AFlockLock? || pc.AFactory?
            || pc.ROpenRoot? || pc.RFlockRoot? || pc.ROpenDir? || pc.RFlockDir? || pc.RTryOpen? || pc.RTryFlock?
            || pc.RUnlink? || pc.RRemoveDir?
  {
    match s.calls[t].pc
    case AMakeRoot => case AOpenRoot => case AFlockRoot => case AMakeDir => case AOpenDir => case AFlockDir =>
    case ATouch => case AOpenLock => case AFlockLock => case AFactory => case _ =>
  }

  /** Without a failure an Acquire of a valid key goes on. */
  lemma AcquireGoesOn(s: State, t: nat)
    requires Inv(s) && CanStep(s, t, Succeeds)
    requires IsAcquire(s.calls[t].pc) && (s.calls[t].pc.AMakeRoot? ==> Paths.ValidComponent(s.calls[t].key))
    ensures Apply(s, Step(t, Succeeds)).calls[t].pc == Onward(s.calls[t].pc)
  {
    assert Placed(s, t);
    hide Inv;
  }

  ghost predicate NoReaders(s: State, k: Key) {
    forall u | 0 <= u < |s.calls| && Reads(s, u) :: s.calls[u].key != k
  }

  /** The release is about to test whether it was the last, or finds that there is nothing left to test: the entry is
      gone, or has lost its lock file. */
  predicate AtTest(s: State, t: nat) {
    && t < |s.calls|
    && var c := s.calls[t];
       || c.pc.RTryFlock?
       || (c.pc.ROpenDir? && c.key !in s.dirs)
       || (c.pc.RTryOpen? && (c.key !in s.dirs || s.dirs[c.key] !in s.lockFiles))
  }

  predicate NothingToTest(s: State, t: nat) { AtTest(s, t) && !s.calls[t].pc.RTryFlock? }

  /** Without a failure a release goes on too, but for what it finds out itself. */
  lemma ReleaseGoesOn(s: State, t: nat)
    requires Inv(s) && CanStep(s, t, Succeeds) && !IsAcquire(s.calls[t].pc)
    ensures Apply(s, Step(t, Succeeds)).calls[t].pc == Onward(s.calls[t].pc) || AtTest(s, t)
  {
    assert Placed(s, t);
    hide Inv, Grantable;
    match s.calls[t].pc
    case ROpenRoot => case RFlockRoot => case ROpenDir => case RFlockDir => case RUnlockRead => case RTryOpen =>
    case RTryFlock => case RCleanup => case RUnlockExclusive => case RUnlink => case RRemoveDir => case RUnlockDir =>
    case RUnlockRoot => case RFailRoot => case RFailRead =>
  }
}
