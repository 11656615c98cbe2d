/** The bodies of Acquire and of the release function, with the other calls going on between their steps. */
module LockerCalls {
  import opened LockTable
  import opened Locker
  import opened LockerInvariant
  import opened LockerTheorems
  import LockerRefinement
  import LockerQuiescence
  import Paths

  /** What the others do before the next step of a call, and how that step turns out. */
  datatype Turn = Turn(others: seq<Event>, outcome: Outcome)

  /** Waits: the call is still inside a flock that nobody has granted yet. */
  datatype Status = Ok | Failed | Waits

  // ---------- One step ----------

  predicate IsFlock(pc: PC) { pc.AFlockRoot? || pc.AFlockDir? || pc.RFlockRoot? || pc.RFlockDir? }

  predicate IsOpen(pc: PC) { pc.AOpenRoot? || pc.AOpenDir? || pc.AOpenLock? || pc.ROpenRoot? || pc.ROpenDir? }

  /** A failing flock is handled as a failing open. */
  lemma OpenThenFlock(pc: PC)
    requires IsOpen(pc)
    ensures !Finished(pc) && !Finished(Onward(pc)) && !IsFlock(pc)
    ensures OnFailure(Onward(pc)) == OnFailure(pc) && IsAcquire(Onward(pc)) == IsAcquire(pc)
    ensures !pc.RTryFlock? && !Onward(pc).RTryFlock?
  {
  }

  /** Unlocking, or the cleanup. */
  predicate IsSure(pc: PC) { OnFailure(pc) == Onward(pc) && !IsFlock(pc) }

  /** Only a flock of a directory can keep a call waiting. */
  lemma OnlyDirectoriesWait(s: State, t: nat, o: Outcome)
    requires Inv(s) && t < |s.calls| && !Finished(s.calls[t].pc) && MayFail(s.calls[t].pc, o) && !CanStep(s, t, o)
    ensures IsFlock(s.calls[t].pc) && o.Succeeds?
  {
    hide Inv, Grantable;
    if s.calls[t].pc.AFlockLock? { ReadLockIsGrantedAtOnce(s, t); }
  }

  lemma InvalidKeyFails(s: State, t: nat, o: Outcome)
    requires CanStep(s, t, o) && s.calls[t].pc.AMakeRoot?
    ensures !Paths.ValidComponent(s.calls[t].key) ==> Apply(s, Step(t, o)).calls[t].pc != Onward(AMakeRoot)
  {
  }

  predicate AllSucceed(turns: seq<Turn>) { forall turn | turn in turns :: turn.outcome.Succeeds? }

  lemma AllButTheFirst(turns: seq<Turn>)
    requires turns != []
    ensures AllSucceed(turns) ==> AllSucceed(turns[1..]) && turns[0].outcome.Succeeds?
  {
  }

  // ---------- Runs ----------

  ghost predicate Continues(s0: State, s: State) { exists run :: ValidRun(s0, run) && After(s0, run) == s }

  lemma Nowhere(s: State)
    ensures Continues(s, s)
  {
    assert ValidRun(s, []) && After(s, []) == s;
  }

  lemma ThenOn(s0: State, s1: State, s2: State)
    requires Continues(s0, s1) && Continues(s1, s2)
    ensures Continues(s0, s2)
  {
    var run :| ValidRun(s0, run) && After(s0, run) == s1;
    var more :| ValidRun(s1, more) && After(s1, more) == s2;
    RunsConcatenate(s0, run, more);
  }

  lemma {:induction false} RunsConcatenate(s: State, run: seq<Event>, more: seq<Event>)
    requires ValidRun(s, run) && ValidRun(After(s, run), more)
    ensures ValidRun(s, run + more) && After(s, run + more) == After(After(s, run), more)
    decreases |run|
  {
    hide Apply, Enabled;
    if run == [] {
      assert run + more == more;
    } else {
      RunsConcatenate(Apply(s, run[0]), run[1..], more);
      assert (run + more)[1..] == run[1..] + more;
    }
  }

  lemma OneMoreEvent(s0: State, s: State, e: Event)
    requires Continues(s0, s) && Enabled(s, e)
    ensures Continues(s0, Apply(s, e))
  {
    hide Apply, Enabled;
    var run :| ValidRun(s0, run) && After(s0, run) == s;
    LockerQuiescence.RunExtends(s0, run, e);
    assert ValidRun(s0, run + [e]);
  }

  /** Events of the others: neither a step of call t nor the death of its process. */
  predicate Foreign(s: State, e: Event, t: nat)
    requires t < |s.calls|
  {
    match e
    case Step(u, _) => u != t
    case Crash(p) => p != s.calls[t].process
    case _ => true
  }

  /** Call h returned a release function, and its read lock has been given up. */
  ghost predicate GivenUp(s: State, h: nat) { h < |s.calls| && s.calls[h].pc.AHeld? && !Reads(s, h) }

  /** What happens to the Acquire call h while a call that works for it goes on. */
  ghost predicate Kept(s: State, s': State, h: nat)
    requires h < |s.calls| && h < |s'.calls|
  {
    (s.calls[h].pc.AHeld? ==> s'.calls[h] == s.calls[h]) && (GivenUp(s, h) ==> GivenUp(s', h))
  }

  lemma ForeignEvent(s: State, e: Event, t: nat, h: nat)
    requires Enabled(s, e) && t < |s.calls| && Foreign(s, e, t) && h < |s.calls|
              && s.calls[h].process == s.calls[t].process
    ensures t < |Apply(s, e).calls| && Apply(s, e).calls[t] == s.calls[t]
    ensures h < |Apply(s, e).calls| && Apply(s, e).calls[h].process == s.calls[t].process
    ensures Kept(s, Apply(s, e), h)
  {
    if e.Step? {
      LockerRefinement.StepKeepsCalls(s, e.call, e.outcome, t);
      LockerRefinement.StepKeepsCalls(s, e.call, e.outcome, h);
      LockerRefinement.ReadSlotAfter(s, e.call, e.outcome, h);
      hide EffectOf;
    }
  }

  /** A step of call t, which works for the Acquire call h. */
  lemma OwnStep(s: State, t: nat, o: Outcome, h: nat)
    requires Inv(s) && CanStep(s, t, o) && h == s.calls[t].handle < |s.calls|
    ensures
      var s', at := Apply(s, Step(t, o)), s.calls[t].pc;
      && t < |s'.calls| && (s'.calls[t].pc == Onward(at) || s'.calls[t].pc == OnFailure(at))
      && s'.calls[t].handle == h < |s'.calls| && s'.calls[t].process == s.calls[t].process
      && s'.calls[t].key == s.calls[t].key && s'.calls[h].process == s.calls[h].process
      && Kept(s, s', h)
      && (at.AUnlockDir? ==> Holder(s', t))
      && ((at.RUnlockRead? || at.RFailRead?) && s'.calls[h].pc.AHeld? ==> GivenUp(s', h))
  {
    hide EffectOf, Placed, Consistent, FileSystem;
    assert Owns(s, t) && Handled(s, t);
    LockerRefinement.StepKeepsCalls(s, t, o, t);
    LockerRefinement.StepKeepsCalls(s, t, o, h);
    LockerRefinement.ReadSlotAfter(s, t, o, h);
    OwnMove(s, t, o);
  }

  lemma OwnMove(s: State, t: nat, o: Outcome)
    requires t < |s.calls|
    ensures EffectOf(s, t, o).call.pc == Onward(s.calls[t].pc) || EffectOf(s, t, o).call.pc == OnFailure(s.calls[t].pc)
  {
    hide Onward, OnFailure;
    if IsAcquire(s.calls[t].pc) { AcquireMoves(s, t, s.calls[t], o.Succeeds?, o.FailsLate?); }
    else { ReleaseMoves(s, t, s.calls[t], o.Succeeds?); }
  }

  /** A call that has come to its end keeps no file open but the read lock of a holder. */
  lemma NothingHeld(s: State, t: nat)
    requires Inv(s) && t < |s.calls| && (s.calls[t].pc.AFailed? || s.calls[t].pc.RDone?)
    ensures forall f | f in s.table :: f.owner != t
  {
    assert Owns(s, t);
    forall f | f in s.table ensures f.owner != t {
      match f.slot case GlobalSlot => case DirectorySlot => case ReadSlot => case ExclusiveSlot =>
      assert f == File(f.owner, f.slot);
    }
  }

  /** Call t is at the program point `at` and works for the Acquire call h of its own process. */
  ghost predicate Working(s: State, t: nat, h: nat, at: PC) {
    t < |s.calls| && h < |s.calls| && s.calls[t].pc == at && s.calls[t].handle == h
    && s.calls[h].process == s.calls[t].process
  }

  /** The outcome of the test: at the end the entry is gone if nobody held the key, and the test changed nothing
      else. */
  ghost predicate Decided(test: State, end: State, t: nat) {
    t < |test.calls| && t < |end.calls| && test.calls[t].pc.RTryFlock? ==>
      && end.calls[t].pc.RUnlockDir?
      && (NoReaders(test, test.calls[t].key) ==> test.calls[t].key !in end.dirs)
      && (!NoReaders(test, test.calls[t].key) ==> CanStep(test, t, Succeeds) && end == Apply(test, Step(t, Succeeds)))
  }

  /** What a successful step found, and what it left. */
  ghost predicate Finds(s: State, s': State, t: nat, at: PC) {
    t < |s.calls| && Inv(s) && CanStep(s, t, Succeeds) && s.calls[t].pc == at && s' == Apply(s, Step(t, Succeeds))
  }

  /** The test succeeds exactly when nobody else holds the key. */
  lemma TestDecides(s: State, s': State, t: nat)
    requires Finds(s, s', t, RTryFlock)
    ensures AtTest(s, t) && t < |s.calls| && t < |s'.calls| && s'.calls[t].key == s.calls[t].key
    ensures s'.calls[t].pc == (if NoReaders(s, s.calls[t].key) then RCleanup else RUnlockDir)
    ensures !NoReaders(s, s.calls[t].key) ==> Decided(s, s', t)
  {
    LastHolderIsAlone(s, t);
    hide Inv, Grantable;
  }

  lemma RemovalDecides(test: State, end: State, t: nat)
    requires t < |test.calls| && t < |end.calls| && end.calls[t].pc.RUnlockDir?
    requires test.calls[t].key !in end.dirs && NoReaders(test, test.calls[t].key)
    ensures Decided(test, end, t)
  {
  }

  lemma NothingIsDecided(test: State, end: State, t: nat)
    requires NothingToTest(test, t)
    ensures AtTest(test, t) && Decided(test, end, t)
  {
  }

  lemma FoundAt(s: State, s': State, t: nat, at: PC)
    requires Finds(s, s', t, at)
    ensures t < |s.calls| && s.calls[t].pc == at
    ensures AtTest(s, t) && !at.RTryFlock? ==> NothingToTest(s, t)
  {
  }

  lemma UnlinkSucceeds(s: State, t: nat)
    requires t < |s.calls| && s.calls[t].pc.RUnlink?
    ensures !AtTest(s, t)
  {
  }

  lemma DirectoryIsGone(s: State, s': State, t: nat)
    requires Finds(s, s', t, RRemoveDir)
    ensures t < |s'.calls| && s'.calls[t].key !in s'.dirs
  {
    assert Placed(s, t);
    hide Inv;
  }

  class Store {
    var state: State
    var turns: seq<Turn>

    constructor (turns: seq<Turn>)
      ensures state == INITIAL && Inv(state) && this.turns == turns
    {
      state, this.turns := INITIAL, turns;
    }

    method Do(e: Event, ghost s0: State)
      requires Inv(state) && Continues(s0, state) && Enabled(state, e)
      modifies this`state
      ensures state == Apply(old(state), e) && Inv(state) && Continues(s0, state)
    {
      hide Apply, Enabled, Inv, Continues;
      StepKeepsInv(state, e);
      OneMoreEvent(s0, state, e);
      state := Apply(state, e);
    }

    /** What the others do while call t, which works for the Acquire call h, is between two steps. */
    method Others(t: nat, h: nat, events: seq<Event>, ghost s0: State)
      requires Inv(state) && Continues(s0, state) && t < |state.calls| && h < |state.calls|
      requires state.calls[h].process == state.calls[t].process
      modifies this`state
      ensures Inv(state) && Continues(s0, state) && t < |state.calls| && state.calls[t] == old(state.calls[t])
      ensures h < |state.calls| && state.calls[h].process == state.calls[t].process
      ensures Kept(old(state), state, h)
    {
      hide Apply, Enabled, Continues, Inv, GivenUp;
      for k := 0 to |events|
        invariant Inv(state) && Continues(s0, state) && t < |state.calls| && state.calls[t] == old(state.calls[t])
        invariant h < |state.calls| && state.calls[h].process == state.calls[t].process
        invariant Kept(old(state), state, h)
      {
        if Foreign(state, events[k], t) && Enabled(state, events[k]) {
          ForeignEvent(state, events[k], t, h);
          Do(events[k], s0);
        }
      }
    }

    /** The next step of call t, after whatever the others do; `found` is the state that the step finds. */
    method Next(t: nat, h: nat, at: PC, ghost s0: State) returns (r: Status, ghost found: State)
      requires Inv(state) && Continues(s0, state) && Working(state, t, h, at) && !Finished(at)
      modifies this
      ensures Inv(state) && Continues(s0, state) && h < |old(state).calls| && h < |state.calls|
      ensures Working(state, t, h, match r case Ok => Onward(at) case Failed => OnFailure(at) case Waits => at)
      ensures old(state).calls[h].pc.AHeld? ==> state.calls[h].pc.AHeld?
      ensures GivenUp(old(state), h) ==> GivenUp(state, h)
      ensures t < |old(state).calls| && t < |state.calls| && state.calls[t].key == old(state).calls[t].key
      ensures r.Waits? ==> IsFlock(at) && !CanStep(state, t, Succeeds)
      ensures AllSucceed(old(turns)) ==> AllSucceed(turns)
      ensures r.Failed? ==> Onward(at) != OnFailure(at)
      ensures at.AUnlockDir? ==> Holder(state, t)
      ensures (at.RUnlockRead? || at.RFailRead?) && state.calls[h].pc.AHeld? ==> GivenUp(state, h)
      ensures AllSucceed(old(turns)) && IsAcquire(at) && Paths.ValidComponent(state.calls[t].key) ==> !r.Failed?
      ensures at.AMakeRoot? && !Paths.ValidComponent(state.calls[t].key) ==> r.Failed?
      ensures Continues(s0, found) && Continues(found, state)
      ensures AllSucceed(old(turns)) && !r.Waits? ==> Finds(found, state, t, at)
      ensures AllSucceed(old(turns)) && !IsAcquire(at) && r.Failed? ==> AtTest(found, t)
    {
      hide Apply, Inv, Continues, GivenUp, Holder, Onward, OnFailure, MayFail, CanStep, AllSucceed, AtTest;
      var outcome := Succeeds;
      if turns != [] {
        Others(t, h, turns[0].others, s0);
        outcome := turns[0].outcome;
        AllButTheFirst(turns);
        turns := turns[1..];
      }
      if !MayFail(at, outcome) { outcome := Succeeds; }
      SucceedsIsAllowed(at);
      found := state;
      Nowhere(found);
      if CanStep(state, t, outcome) {
        if outcome.Succeeds? && IsAcquire(at) && Paths.ValidComponent(state.calls[t].key) { AcquireGoesOn(state, t); }
        if outcome.Succeeds? && !IsAcquire(at) { ReleaseGoesOn(state, t); }
        if at.AMakeRoot? { InvalidKeyFails(state, t, outcome); }
        OwnStep(state, t, outcome, h);
        OneMoreEvent(found, found, Step(t, outcome));
        Do(Step(t, outcome), s0);
        r := if state.calls[t].pc == Onward(at) then Ok else Failed;
      } else {
        OnlyDirectoriesWait(state, t, outcome);
        r := Waits;
      }
    }

    /** A step that can neither fail nor wait. */
    method Go(t: nat, h: nat, at: PC, ghost s0: State)
      requires Inv(state) && Continues(s0, state) && Working(state, t, h, at) && !Finished(at) && IsSure(at)
      modifies this
      ensures Inv(state) && Continues(s0, state) && h < |old(state).calls| && h < |state.calls|
      ensures Working(state, t, h, Onward(at))
      ensures AllSucceed(old(turns)) ==> AllSucceed(turns)
      ensures old(state).calls[h].pc.AHeld? ==> state.calls[h].pc.AHeld?
      ensures GivenUp(old(state), h) ==> GivenUp(state, h)
      ensures t < |old(state).calls| && t < |state.calls| && state.calls[t].key == old(state).calls[t].key
      ensures at.AUnlockDir? ==> Holder(state, t)
      ensures (at.RUnlockRead? || at.RFailRead?) && state.calls[h].pc.AHeld? ==> GivenUp(state, h)
    {
      hide Inv, Continues, GivenUp, Holder, Onward, OnFailure, Working, AllSucceed, CanStep;
      ghost var found;
      var r;
      r, found := Next(t, h, at, s0);
    }

    /** platformLock: open, then flock. */
    method PlatformLock(t: nat, h: nat, open: PC, ghost s0: State) returns (r: Status, ghost found: State)
      requires Inv(state) && Continues(s0, state) && Working(state, t, h, open)
      requires IsOpen(open)
      modifies this
      ensures Inv(state) && Continues(s0, state) && h < |old(state).calls| && h < |state.calls|
      ensures Working(state, t, h, match r case Ok => Onward(Onward(open))
                                           case Failed => OnFailure(open)
                                           case Waits => Onward(open))
      ensures old(state).calls[h].pc.AHeld? ==> state.calls[h].pc.AHeld?
      ensures GivenUp(old(state), h) ==> GivenUp(state, h)
      ensures t < |old(state).calls| && t < |state.calls| && state.calls[t].key == old(state).calls[t].key
      ensures r.Waits? ==> IsFlock(Onward(open)) && !CanStep(state, t, Succeeds)
      ensures AllSucceed(old(turns)) ==> AllSucceed(turns)
      ensures AllSucceed(old(turns)) && IsAcquire(open) && Paths.ValidComponent(state.calls[t].key) ==> !r.Failed?
      ensures Continues(s0, found) && Continues(found, state)
      ensures AllSucceed(old(turns)) && !IsAcquire(open) && r.Failed? ==> NothingToTest(found, t)
    {
      hide Inv, Continues, GivenUp, Holder, Working, AllSucceed, CanStep, AtTest, NothingToTest, Finds;
      OpenThenFlock(open);
      hide Onward, OnFailure, IsFlock, IsOpen, Finished;
      r, found := Next(t, h, open, s0);
      if AllSucceed(old(turns)) && r.Failed? { FoundAt(found, state, t, open); }
      if r.Ok? {
        r, found := Next(t, h, Onward(open), s0);
        if AllSucceed(old(turns)) && r.Failed? { FoundAt(found, state, t, Onward(open)); }
      }
    }

    /** refcounted.go:59. When it returns a release function, the caller is a holder and finds at the path of the entry
        the very directory and lock file that were locked; when it fails, it keeps no lock. */
    method Acquire(process: nat, key: Key) returns (t: nat, r: Status)
      requires Inv(state)
      modifies this
      ensures Inv(state) && Continues(old(state), state)
      ensures t == |old(state).calls| < |state.calls| && state.calls[t].key == key
      ensures r.Ok? ==> Holder(state, t) && AtPath(state, t)
      ensures r.Failed? ==> state.calls[t].pc.AFailed? && forall f | f in state.table :: f.owner != t
      ensures !Paths.ValidComponent(key) ==> r.Failed?
      ensures r.Failed? && AllSucceed(old(turns)) ==> !Paths.ValidComponent(key)
      ensures r.Waits? ==> state.calls[t].pc.AFlockRoot? || state.calls[t].pc.AFlockDir?
      ensures r.Waits? ==> !CanStep(state, t, Succeeds)
    {
      hide Inv, Continues, GivenUp, Holder, AtPath, Kept, Apply, AllSucceed, CanStep;
      ghost var s0 := state;
      Nowhere(s0);
      t := |state.calls|;
      NewAcquire(state, process, key);
      Do(CallAcquire(process, key), s0);
      r := Enter(t, s0);
      if r.Ok? { r := Prepare(t, s0); }
      if r.Ok? { HolderIsAtPath(state, t); }
      if r.Failed? { NothingHeld(state, t); }
    }

    /** Steps 1 to 3: from the check of the key to the lock on the entry's directory. */
    method Enter(t: nat, ghost s0: State) returns (r: Status)
      requires Inv(state) && Continues(s0, state) && Working(state, t, t, AMakeRoot)
      modifies this
      ensures Inv(state) && Continues(s0, state)
      ensures t < |old(state).calls| && t < |state.calls| && state.calls[t].key == old(state).calls[t].key
      ensures r.Ok? ==> Working(state, t, t, ATouch)
      ensures AllSucceed(old(turns)) ==> AllSucceed(turns)
      ensures AllSucceed(old(turns)) && Paths.ValidComponent(state.calls[t].key) ==> !r.Failed?
      ensures r.Waits? ==> !CanStep(state, t, Succeeds)
      ensures !Paths.ValidComponent(state.calls[t].key) ==> r.Failed?
      ensures r.Failed? ==> Working(state, t, t, AFailed)
      ensures r.Waits? ==> Working(state, t, t, AFlockRoot) || Working(state, t, t, AFlockDir)
    {
      hide Inv, Continues, GivenUp, Holder, Working, AllSucceed, CanStep, Finds, Kept, AtTest, Paths.ValidComponent;
      ghost var found;
      r, found := Next(t, t, AMakeRoot, s0);
      if r.Failed? { return; }
      r, found := PlatformLock(t, t, AOpenRoot, s0);
      if r.Ok? { r := EnterEntry(t, s0); }
    }

    /** Steps 2 and 3, with the global lock held. */
    method EnterEntry(t: nat, ghost s0: State) returns (r: Status)
      requires Inv(state) && Continues(s0, state) && Working(state, t, t, AMakeDir)
      modifies this
      ensures Inv(state) && Continues(s0, state)
      ensures t < |old(state).calls| && t < |state.calls| && state.calls[t].key == old(state).calls[t].key
      ensures r.Ok? ==> Working(state, t, t, ATouch)
      ensures AllSucceed(old(turns)) ==> AllSucceed(turns)
      ensures AllSucceed(old(turns)) && Paths.ValidComponent(state.calls[t].key) ==> !r.Failed?
      ensures r.Waits? ==> !CanStep(state, t, Succeeds)
      ensures r.Failed? ==> Working(state, t, t, AFailed)
      ensures r.Waits? ==> Working(state, t, t, AFlockDir)
    {
      hide Inv, Continues, GivenUp, Holder, Working, AllSucceed, CanStep, Finds, Kept, AtTest, Paths.ValidComponent;
      ghost var found;
      r, found := Next(t, t, AMakeDir, s0);
      if r.Ok? { r, found := PlatformLock(t, t, AOpenDir, s0); }
      if r.Failed? { Go(t, t, AFailRoot, s0); }
      if r.Ok? { Go(t, t, AUnlockRoot, s0); }
    }

    /** Steps 4 to 6: the lock file, the read lock on it, and the factory. None of them waits. */
    method Prepare(t: nat, ghost s0: State) returns (r: Status)
      requires Inv(state) && Continues(s0, state) && Working(state, t, t, ATouch)
      modifies this
      ensures Inv(state) && Continues(s0, state)
      ensures t < |old(state).calls| && t < |state.calls| && state.calls[t].key == old(state).calls[t].key
      ensures r.Ok? ==> Holder(state, t)
      ensures AllSucceed(old(turns)) ==> AllSucceed(turns)
      ensures AllSucceed(old(turns)) && Paths.ValidComponent(state.calls[t].key) ==> !r.Failed?
      ensures r.Failed? ==> Working(state, t, t, AFailed)
      ensures !r.Waits?
    {
      hide Inv, Continues, GivenUp, Holder, Working, AllSucceed, CanStep, Finds, Kept, AtTest, Paths.ValidComponent;
      ghost var found;
      r, found := Next(t, t, ATouch, s0);
      if r.Ok? { r, found := PlatformLock(t, t, AOpenLock, s0); }
      if r.Failed? { Go(t, t, AFailDir, s0); }
      if r.Ok? { r := Create(t, s0); }
    }

    /** The factory, with the directory locked and the read lock held. */
    method Create(t: nat, ghost s0: State) returns (r: Status)
      requires Inv(state) && Continues(s0, state) && Working(state, t, t, AFactory)
      modifies this
      ensures Inv(state) && Continues(s0, state)
      ensures t < |old(state).calls| && t < |state.calls| && state.calls[t].key == old(state).calls[t].key
      ensures r.Ok? ==> Holder(state, t)
      ensures AllSucceed(old(turns)) ==> AllSucceed(turns)
      ensures AllSucceed(old(turns)) && Paths.ValidComponent(state.calls[t].key) ==> !r.Failed?
      ensures r.Failed? ==> Working(state, t, t, AFailed)
      ensures !r.Waits?
    {
      hide Inv, Continues, GivenUp, Holder, Working, AllSucceed, CanStep, Finds, Kept, AtTest, Paths.ValidComponent;
      ghost var found;
      r, found := Next(t, t, AFactory, s0);
      if r.Failed? {
        Go(t, t, AFailRead, s0);
        Go(t, t, AFailDir, s0);
      } else {
        Go(t, t, AUnlockDir, s0);
      }
    }

    /** refcounted.go:128, the function that Acquire call h returned. It may be called more than once. However it ends,
        the read lock of h is given up and no lock is kept. Unless one of its steps fails, it gets to its test (in the
        state `test`), and when it unlocks the directory (in the state `end`) the entry is gone if nobody held the key
        at the test, and untouched otherwise. */
    method Release(h: nat) returns (t: nat, waits: bool, ghost test: State, ghost end: State)
      requires Inv(state) && h < |state.calls| && state.calls[h].pc.AHeld?
      modifies this
      ensures Inv(state) && Continues(old(state), state)
      ensures t == |old(state).calls| < |state.calls|
      ensures waits ==> state.calls[t].pc.RFlockRoot? || state.calls[t].pc.RFlockDir?
      ensures waits ==> !CanStep(state, t, Succeeds)
      ensures !waits ==> state.calls[t].pc.RDone? && GivenUp(state, h) && forall f | f in state.table :: f.owner != t
      ensures !waits ==> Continues(old(state), test) && Continues(test, end) && Continues(end, state)
      ensures !waits && AllSucceed(old(turns)) ==> AtTest(test, t) && Decided(test, end, t)
    {
      hide Inv, Continues, GivenUp, Holder, Apply, AllSucceed, CanStep, AtTest, Decided;
      ghost var s0 := state;
      Nowhere(s0);
      t := |state.calls|;
      NewRelease(state, h);
      Do(CallRelease(h), s0);
      waits, test, end := GiveUp(t, h, s0);
      if !waits { NothingHeld(state, t); }
    }

    /** The body of the release function. */
    method GiveUp(t: nat, h: nat, ghost s0: State) returns (waits: bool, ghost test: State, ghost end: State)
      requires Inv(state) && Continues(s0, state) && Working(state, t, h, ROpenRoot) && state.calls[h].pc.AHeld?
      modifies this
      ensures Inv(state) && Continues(s0, state)
      ensures waits ==> Working(state, t, h, RFlockRoot) || Working(state, t, h, RFlockDir)
      ensures waits ==> !CanStep(state, t, Succeeds)
      ensures !waits ==> Working(state, t, h, RDone) && GivenUp(state, h)
      ensures !waits ==> Continues(s0, test) && Continues(test, end) && Continues(end, state)
      ensures !waits && AllSucceed(old(turns)) ==> AtTest(test, t) && Decided(test, end, t)
    {
      hide Inv, Continues, GivenUp, Holder, Working, AllSucceed, CanStep, AtTest, NothingToTest, Decided;
      var r;
      r, test := LockBoth(t, h, s0);
      end, waits := state, r.Waits?;
      if waits { return; }
      if r.Failed? {
        Go(t, h, RFailRead, test);
        ThenOn(s0, test, state);
        end := state;
        Nowhere(end);
        if AllSucceed(old(turns)) { NothingIsDecided(test, end, t); }
      } else {
        test, end := LastHolder(t, h, s0);
      }
    }

    /** Steps 1 and 2: the global lock, then the lock on the entry's directory. */
    method LockBoth(t: nat, h: nat, ghost s0: State) returns (r: Status, ghost test: State)
      requires Inv(state) && Continues(s0, state) && Working(state, t, h, ROpenRoot) && state.calls[h].pc.AHeld?
      modifies this
      ensures Inv(state) && Continues(s0, state) && h < |state.calls| && state.calls[h].pc.AHeld?
      ensures r.Ok? ==> Working(state, t, h, RUnlockRead)
      ensures r.Failed? ==> Working(state, t, h, RFailRead)
      ensures r.Waits? ==> Working(state, t, h, RFlockRoot) || Working(state, t, h, RFlockDir)
      ensures r.Waits? ==> !CanStep(state, t, Succeeds)
      ensures AllSucceed(old(turns)) ==> AllSucceed(turns)
      ensures Continues(s0, test) && Continues(test, state)
      ensures AllSucceed(old(turns)) && r.Failed? ==> NothingToTest(test, t)
    {
      hide Inv, Continues, GivenUp, Holder, Working, AllSucceed, CanStep, AtTest, NothingToTest, Finds, Kept;
      r, test := PlatformLock(t, h, ROpenRoot, s0);
      if r.Ok? {
        r, test := PlatformLock(t, h, ROpenDir, s0);
        if r.Failed? {
          Go(t, h, RFailRoot, test);
          ThenOn(s0, test, state);
        }
      }
    }

    /** Under both locks: give up the read lock, and clean up and remove the entry if nobody else holds it. */
    method LastHolder(t: nat, h: nat, ghost s0: State) returns (ghost test: State, ghost end: State)
      requires Inv(state) && Continues(s0, state) && Working(state, t, h, RUnlockRead) && state.calls[h].pc.AHeld?
      modifies this
      ensures Inv(state) && Continues(s0, state) && Working(state, t, h, RDone)
      ensures GivenUp(state, h)
      ensures Continues(s0, test) && Continues(test, end) && Continues(end, state)
      ensures AllSucceed(old(turns)) ==> AtTest(test, t) && Decided(test, end, t)
    {
      hide Inv, Continues, GivenUp, Holder, Working, AllSucceed, CanStep, AtTest, Decided, Finds;
      Go(t, h, RUnlockRead, s0);
      test, end := Test(t, h, s0);
      ThenOn(s0, test, end);
      Nowhere(end);
      UnlockBoth(t, h, end);
      ThenOn(s0, end, state);
    }

    /** The try-lock, and what follows from it. */
    method Test(t: nat, h: nat, ghost s0: State) returns (ghost test: State, ghost end: State)
      requires Inv(state) && Continues(s0, state) && Working(state, t, h, RTryOpen) && GivenUp(state, h)
      modifies this
      ensures Inv(state) && Continues(s0, state) && Working(state, t, h, RUnlockDir) && GivenUp(state, h)
      ensures Continues(s0, test) && Continues(test, end) && end == state
      ensures AllSucceed(old(turns)) ==> AtTest(test, t) && Decided(test, end, t)
    {
      hide Inv, Continues, GivenUp, Holder, AllSucceed, CanStep, AtTest, NothingToTest, Decided, Finds;
      var r;
      r, test := Next(t, h, RTryOpen, s0);
      if r.Failed? {
        if AllSucceed(old(turns)) {
          FoundAt(test, state, t, RTryOpen);
          NothingIsDecided(test, state, t);
        }
        end := state;
        Nowhere(end);
        return;
      }
      r, test := Next(t, h, RTryFlock, s0);
      if AllSucceed(old(turns)) { TestDecides(test, state, t); }
      if r.Ok? {
        Remove(t, h, test);
        ThenOn(s0, test, state);
        if AllSucceed(old(turns)) { RemovalDecides(test, state, t); }
      }
      end := state;
      Nowhere(end);
    }

    /** The exclusive lock is held: clean up, give it back and remove the directory. */
    method Remove(t: nat, h: nat, ghost s0: State)
      requires Inv(state) && Continues(s0, state) && Working(state, t, h, RCleanup) && GivenUp(state, h)
      modifies this
      ensures Inv(state) && Continues(s0, state) && Working(state, t, h, RUnlockDir) && GivenUp(state, h)
      ensures t < |old(state).calls| && state.calls[t].key == old(state).calls[t].key
      ensures AllSucceed(old(turns)) ==> state.calls[t].key !in state.dirs
    {
      hide Inv, Continues, GivenUp, Holder, Working, AllSucceed, CanStep;
      Go(t, h, RCleanup, s0);
      Go(t, h, RUnlockExclusive, s0);
      RemoveAll(t, h, s0);
    }

    /** The lock file, then the directory; the removal may stop at any point. */
    method RemoveAll(t: nat, h: nat, ghost s0: State)
      requires Inv(state) && Continues(s0, state) && Working(state, t, h, RUnlink) && GivenUp(state, h)
      modifies this
      ensures Inv(state) && Continues(s0, state) && Working(state, t, h, RUnlockDir) && GivenUp(state, h)
      ensures t < |old(state).calls| && t < |state.calls| && state.calls[t].key == old(state).calls[t].key
      ensures AllSucceed(old(turns)) ==> state.calls[t].key !in state.dirs
    {
      hide Inv, Continues, GivenUp, Holder, Working, AllSucceed, CanStep;
      ghost var found;
      var r;
      r, found := Next(t, h, RUnlink, s0);
      if AllSucceed(old(turns)) && r.Failed? { UnlinkSucceeds(found, t); }
      if r.Ok? {
        r, found := Next(t, h, RRemoveDir, s0);
        if AllSucceed(old(turns)) { DirectoryIsGone(found, state, t); }
      }
    }

    method UnlockBoth(t: nat, h: nat, ghost s0: State)
      requires Inv(state) && Continues(s0, state) && Working(state, t, h, RUnlockDir) && GivenUp(state, h)
      modifies this
      ensures Inv(state) && Continues(s0, state) && Working(state, t, h, RDone) && GivenUp(state, h)
    {
      hide Inv, Continues, GivenUp, Holder, Working, AllSucceed, CanStep;
      Go(t, h, RUnlockDir, s0);
      Go(t, h, RUnlockRoot, s0);
    }
  }

  lemma NewAcquire(s: State, process: nat, key: Key)
    ensures
      var e := CallAcquire(process, key);
      Enabled(s, e) && Working(Apply(s, e), |s.calls|, |s.calls|, AMakeRoot) && Apply(s, e).calls[|s.calls|].key == key
  {
  }

  lemma NewRelease(s: State, h: nat)
    requires h < |s.calls| && s.calls[h].pc.AHeld?
    ensures
      var e := CallRelease(h);
      Enabled(s, e) && Working(Apply(s, e), |s.calls|, h, ROpenRoot) && Apply(s, e).calls[h] == s.calls[h]
  {
  }

  lemma HolderIsAtPath(s: State, t: nat)
    requires Inv(s) && Holder(s, t)
    ensures AtPath(s, t)
  {
    assert Placed(s, t);
  }

  lemma SucceedsIsAllowed(pc: PC)
    ensures MayFail(pc, Succeeds)
  {
  }
}
