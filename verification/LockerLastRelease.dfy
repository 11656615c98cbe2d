/** Over whole runs without crash and system failure: the cleanup runs at the last release of a key, at no other, and
    once. */
module LockerLastRelease {
  import opened LockTable
  import opened Locker
  import opened LockerInvariant
  import opened LockerTheorems
  import opened LockerRefinement
  import opened LockerQuiescence

  /** The release has given up its read lock and has not tried the lock file yet. */
  predicate Trying(s: State, t: nat) { t < |s.calls| && (s.calls[t].pc.RTryOpen? || s.calls[t].pc.RTryFlock?) }

  predicate At(s: State, t: nat, pc: PC) { t < |s.calls| && s.calls[t].pc == pc }

  /** At some moment of the run the call is at the program point. */
  ghost predicate Happens(s: State, run: seq<Event>, t: nat, pc: PC)
    requires ValidRun(s, run)
    decreases |run|
  {
    At(s, t, pc) || (run != [] && Happens(Apply(s, run[0]), run[1..], t, pc))
  }

  /** At some moment of the run the release is about to unlock the directory, and the entry is gone. */
  ghost predicate Empties(s: State, run: seq<Event>, t: nat)
    requires ValidRun(s, run)
    decreases |run|
  {
    (At(s, t, RUnlockDir) && s.calls[t].key !in s.dirs) || (run != [] && Empties(Apply(s, run[0]), run[1..], t))
  }

  // ---------- Nobody comes or goes while a release is trying ----------

  lemma ReaderStays(s: State, orphans: set<Key>, t: nat, v: nat, o: Outcome, u: nat)
    requires Tidy(s, orphans) && Trying(s, t) && CanStep(s, v, o) && OnlyFactoriesFail(s, Step(v, o))
    requires u < |s.calls| && s.calls[u].key == s.calls[t].key
    ensures Reads(Apply(s, Step(v, o)), u) <==> Reads(s, u)
  {
    ReadSlotAfter(s, v, o, u);
    assert Handled(s, v) && Ready(s, v) && Handled(s, t);
    OneInside(s, t, v);
    OneGlobal(s, t, v);
    hide Apply, Inv, Answered, Filled, EffectOf;
  }

  lemma ReadersStay(s: State, orphans: set<Key>, e: Event, t: nat)
    requires Tidy(s, orphans) && Trying(s, t) && Enabled(s, e) && OnlyFactoriesFail(s, e)
    ensures NoReaders(Apply(s, e), s.calls[t].key) <==> NoReaders(s, s.calls[t].key)
  {
    if e.Step? {
      ReadersStayOnStep(s, orphans, e.call, e.outcome, t);
    } else {
      ReadersStayOnCall(s, e, s.calls[t].key);
    }
  }

  lemma ReadersStayOnStep(s: State, orphans: set<Key>, v: nat, o: Outcome, t: nat)
    requires Tidy(s, orphans) && Trying(s, t) && CanStep(s, v, o) && OnlyFactoriesFail(s, Step(v, o))
    ensures NoReaders(Apply(s, Step(v, o)), s.calls[t].key) <==> NoReaders(s, s.calls[t].key)
  {
    var s', k := Apply(s, Step(v, o)), s.calls[t].key;
    forall u: nat | u < |s.calls|
      ensures |s'.calls| == |s.calls| && s'.calls[u].key == s.calls[u].key
      ensures s.calls[u].key == k ==> (Reads(s', u) <==> Reads(s, u))
    {
      StepKeepsCalls(s, v, o, u);
      if s.calls[u].key == k { ReaderStays(s, orphans, t, v, o, u); }
    }
    hide Tidy, Apply, CanStep, Reads;
    StepKeepsCalls(s, v, o, t);
  }

  lemma ReadersStayOnCall(s: State, e: Event, k: Key)
    requires Inv(s) && Enabled(s, e) && (e.CallAcquire? || e.CallRelease?)
    ensures NoReaders(Apply(s, e), k) <==> NoReaders(s, k)
  {
    var s' := Apply(s, e);
    assert s'.table == s.table && |s'.calls| == |s.calls| + 1;
    assert !Reads(s', |s.calls|);
    assert forall u | 0 <= u < |s.calls| :: s'.calls[u] == s.calls[u];
    hide Inv, Apply, Enabled;
  }

  // ---------- The course of a release that was the last ----------

  /** Nothing moves a call but its own step. */
  lemma OthersLeaveIt(s: State, e: Event, t: nat)
    requires Enabled(s, e) && t < |s.calls| && !e.Crash? && (e.Step? ==> e.call != t)
    ensures t < |Apply(s, e).calls| && Apply(s, e).calls[t] == s.calls[t]
  {
    if e.Step? {
      StepKeepsCalls(s, e.call, e.outcome, t);
      hide EffectOf;
    }
  }

  /** From the try-lock that finds nobody to the removal of the directory. */
  ghost predicate Leaving(s: State, t: nat) {
    (Trying(s, t) && NoReaders(s, s.calls[t].key)) || (t < |s.calls| && Alone(s.calls[t].pc))
  }

  /** A release that tries and finds nobody goes on to the cleanup. */
  lemma TryingGoesOn(s: State, orphans: set<Key>, e: Event, t: nat)
    requires Tidy(s, orphans) && Enabled(s, e) && OnlyFactoriesFail(s, e)
    requires Trying(s, t) && NoReaders(s, s.calls[t].key)
    ensures var s' := Apply(s, e); (Trying(s', t) && NoReaders(s', s'.calls[t].key)) || At(s', t, RCleanup)
  {
    ReadersStay(s, orphans, e, t);
    if e.Step? && e.call == t {
      OwnTry(s, orphans, t, e.outcome);
    } else {
      OthersLeaveIt(s, e, t);
      hide Tidy, Apply, Enabled;
    }
  }

  lemma OwnTry(s: State, orphans: set<Key>, t: nat, o: Outcome)
    requires Tidy(s, orphans) && CanStep(s, t, o) && OnlyFactoriesFail(s, Step(t, o)) && Trying(s, t)
    ensures var s' := Apply(s, Step(t, o));
            && t < |s'.calls| && s'.calls[t].key == s.calls[t].key
            && s'.calls[t].pc == (if s.calls[t].pc.RTryOpen? then RTryFlock
                                  else if NoReaders(s, s.calls[t].key) then RCleanup else RUnlockDir)
  {
    assert Placed(s, t) && Ready(s, t);
    if s.calls[t].pc.RTryFlock? { LastHolderIsAlone(s, t); }
    hide Tidy, Inv, Grantable;
  }

  /** Once it has cleaned up, it goes on to the empty directory and removes it. */
  lemma LeavingGoesOn(s: State, orphans: set<Key>, e: Event, t: nat)
    requires Tidy(s, orphans) && Enabled(s, e) && OnlyFactoriesFail(s, e)
    requires t < |s.calls| && Alone(s.calls[t].pc)
    ensures var s' := Apply(s, e);
            t < |s'.calls| && (Alone(s'.calls[t].pc) || (s'.calls[t].pc.RUnlockDir? && s'.calls[t].key !in s'.dirs))
  {
    if e.Step? && e.call == t {
      assert Placed(s, t);
      hide Tidy, Inv;
    } else {
      OthersLeaveIt(s, e, t);
      hide Tidy, Apply, Enabled;
    }
  }

  lemma {:induction false} LastReleaseCleansUp(s: State, orphans: set<Key>, run: seq<Event>, t: nat)
    requires Tidy(s, orphans) && ValidRun(s, run) && QuietRun(s, run)
    requires Trying(s, t) && NoReaders(s, s.calls[t].key)
    requires t < |After(s, run).calls| && Finished(After(s, run).calls[t].pc)
    ensures Happens(s, run, t, RCleanup)
    decreases |run|
  {
    hide Tidy, Apply, Enabled, NoReaders;
    var s', rest := Apply(s, run[0]), run[1..];
    TryingGoesOn(s, orphans, run[0], t);
    StepKeepsTidy(s, run[0], orphans);
    if Trying(s', t) { LastReleaseCleansUp(s', Orphan(s, run[0], orphans), rest, t); }
  }

  lemma {:induction false} LastReleaseEmpties(s: State, orphans: set<Key>, run: seq<Event>, t: nat)
    requires Tidy(s, orphans) && ValidRun(s, run) && QuietRun(s, run) && Leaving(s, t)
    requires t < |After(s, run).calls| && Finished(After(s, run).calls[t].pc)
    ensures Empties(s, run, t)
    decreases |run|
  {
    hide Tidy, Apply, Enabled, NoReaders, Orphan;
    var s', rest := Apply(s, run[0]), run[1..];
    if Trying(s, t) { TryingGoesOn(s, orphans, run[0], t); } else { LeavingGoesOn(s, orphans, run[0], t); }
    StepKeepsTidy(s, run[0], orphans);
    if Leaving(s', t) { LastReleaseEmpties(s', Orphan(s, run[0], orphans), rest, t); }
  }

  // ---------- A release that was not the last ----------

  predicate Past(s: State, t: nat) {
    t < |s.calls| && (s.calls[t].pc.RUnlockDir? || s.calls[t].pc.RUnlockRoot? || s.calls[t].pc.RDone?)
  }

  lemma PastStaysPast(s: State, e: Event, t: nat)
    requires Enabled(s, e) && !e.Crash? && Past(s, t)
    ensures Past(Apply(s, e), t)
  {
    if !(e.Step? && e.call == t) {
      OthersLeaveIt(s, e, t);
      hide Apply, Enabled;
    }
  }

  lemma {:induction false} NoCleanupAfterwards(s: State, run: seq<Event>, t: nat)
    requires ValidRun(s, run) && QuietRun(s, run) && Past(s, t)
    ensures !Happens(s, run, t, RCleanup)
    decreases |run|
  {
    hide Apply, Enabled;
    if run != [] {
      PastStaysPast(s, run[0], t);
      NoCleanupAfterwards(Apply(s, run[0]), run[1..], t);
    }
  }

  lemma {:induction false} OtherReleasesDoNotCleanUp(s: State, orphans: set<Key>, run: seq<Event>, t: nat)
    requires Tidy(s, orphans) && ValidRun(s, run) && QuietRun(s, run)
    requires Trying(s, t) && !NoReaders(s, s.calls[t].key)
    ensures !Happens(s, run, t, RCleanup)
    decreases |run|
  {
    hide Tidy, Apply, Enabled, NoReaders, Orphan;
    if run != [] {
      var e, s' := run[0], Apply(s, run[0]);
      ReadersStay(s, orphans, e, t);
      StepKeepsTidy(s, e, orphans);
      if e.Step? && e.call == t {
        StepIsEnabled(s, e);
        OwnTry(s, orphans, t, e.outcome);
      } else {
        OthersLeaveIt(s, e, t);
      }
      if Trying(s', t) {
        OtherReleasesDoNotCleanUp(s', Orphan(s, e, orphans), run[1..], t);
      } else {
        NoCleanupAfterwards(s', run[1..], t);
      }
    }
  }

  lemma StepIsEnabled(s: State, e: Event)
    requires Enabled(s, e) && e.Step?
    ensures CanStep(s, e.call, e.outcome)
  {
  }

  /** In a run without crash and system failure, take a release that has just given up its read lock and that comes to
      its end: it runs the cleanup if and only if nobody else held the key, and then the entry is gone when it
      unlocks. */
  lemma CleanupIffLast(before: seq<Event>, s: State, run: seq<Event>, t: nat)
    requires Reaches(before, s) && QuietRun(INITIAL, before)
    requires ValidRun(s, run) && QuietRun(s, run)
    requires Trying(s, t) && t < |After(s, run).calls| && Finished(After(s, run).calls[t].pc)
    ensures Happens(s, run, t, RCleanup) <==> NoReaders(s, s.calls[t].key)
    ensures NoReaders(s, s.calls[t].key) ==> Empties(s, run, t)
  {
    hide After, NoReaders;
    RunKeepsTidy(INITIAL, before, {});
    var orphans := Orphans(INITIAL, before, {});
    if NoReaders(s, s.calls[t].key) {
      LastReleaseCleansUp(s, orphans, run, t);
      LastReleaseEmpties(s, orphans, run, t);
    } else {
      OtherReleasesDoNotCleanUp(s, orphans, run, t);
    }
  }

  // ---------- One cleanup for each time a key is held ----------

  /** The event lets an Acquire of the key have its read lock. */
  predicate Joins(s: State, e: Event, k: Key) {
    e.Step? && e.call < |s.calls| && s.calls[e.call].pc.AFlockLock? && s.calls[e.call].key == k && e.outcome.Succeeds?
  }

  ghost predicate NobodyJoins(s: State, run: seq<Event>, k: Key)
    requires ValidRun(s, run)
    decreases |run|
  {
    run == [] || (!Joins(s, run[0], k) && NobodyJoins(Apply(s, run[0]), run[1..], k))
  }

  /** An Acquire has made sure of the directory and does not hold the key yet. */
  predicate Entering(s: State, v: nat, k: Key) { v < |s.calls| && s.calls[v].key == k && WillHold(s.calls[v].pc) }

  /** Since t cleaned up, nobody has held the key: t is removing the entry, or it is gone, or a new one is being
      entered. */
  ghost predicate Vacant(s: State, k: Key, t: nat) {
    || (t < |s.calls| && s.calls[t].key == k && Alone(s.calls[t].pc))
    || k !in s.dirs
    || exists v: nat :: Entering(s, v, k)
  }

  lemma EnteringGoesOn(s: State, e: Event, k: Key, v: nat)
    requires Inv(s) && Enabled(s, e) && OnlyFactoriesFail(s, e) && !Joins(s, e, k) && Entering(s, v, k)
    ensures Entering(Apply(s, e), v, k)
  {
    if e.Step? && e.call == v {
      AcquireGoesOn(s, v);
      StepKeepsCalls(s, v, e.outcome, v);
      hide Apply, Inv;
    } else {
      OthersLeaveIt(s, e, v);
      hide Apply, Enabled, Inv;
    }
  }

  /** Whoever makes the directory of the key anew enters it. */
  lemma MakerEnters(s: State, e: Event, k: Key)
    requires Inv(s) && Enabled(s, e) && OnlyFactoriesFail(s, e) && k !in s.dirs && k in Apply(s, e).dirs
    ensures e.Step? && Entering(Apply(s, e), e.call, k)
  {
    if e.Step? {
      StepEntries(s, e.call, e.outcome);
      hide Inv;
    }
  }

  lemma VacantGoesOn(s: State, orphans: set<Key>, e: Event, k: Key, t: nat)
    requires Tidy(s, orphans) && Enabled(s, e) && OnlyFactoriesFail(s, e) && !Joins(s, e, k) && Vacant(s, k, t)
    ensures Vacant(Apply(s, e), k, t)
  {
    hide Apply, Enabled, Inv, Answered, Filled;
    if t < |s.calls| && s.calls[t].key == k && Alone(s.calls[t].pc) {
      LeavingGoesOn(s, orphans, e, t);
      KeyStays(s, e, t);
    } else if k !in s.dirs {
      if k in Apply(s, e).dirs { MakerEnters(s, e, k); }
    } else {
      var v: nat :| Entering(s, v, k);
      EnteringGoesOn(s, e, k, v);
    }
  }

  lemma KeyStays(s: State, e: Event, t: nat)
    requires Enabled(s, e) && t < |s.calls| && !e.Crash?
    ensures t < |Apply(s, e).calls| && Apply(s, e).calls[t].key == s.calls[t].key
  {
    if e.Step? {
      StepKeepsCalls(s, e.call, e.outcome, t);
      hide EffectOf;
    }
  }

  lemma {:induction false} StaysVacant(s: State, orphans: set<Key>, run: seq<Event>, k: Key, t: nat)
    requires Tidy(s, orphans) && ValidRun(s, run) && QuietRun(s, run) && NobodyJoins(s, run, k) && Vacant(s, k, t)
    ensures Inv(After(s, run)) && Vacant(After(s, run), k, t)
    decreases |run|
  {
    hide Apply, Enabled, Inv, Answered, Filled, Vacant, Joins, Orphan;
    if run != [] {
      VacantGoesOn(s, orphans, run[0], k, t);
      StepKeepsTidy(s, run[0], orphans);
      StaysVacant(Apply(s, run[0]), Orphan(s, run[0], orphans), run[1..], k, t);
    }
  }

  lemma OnlyTheCleaner(s: State, k: Key, t: nat, u: nat)
    requires Inv(s) && Vacant(s, k, t) && InCleanup(s, u) && s.calls[u].key == k
    ensures u == t
  {
    assert Placed(s, u);
    if t < |s.calls| && s.calls[t].key == k && Alone(s.calls[t].pc) {
      OneGlobal(s, t, u);
    } else {
      var v: nat :| Entering(s, v, k);
      OneGlobal(s, u, v);
      OneInside(s, u, v);
    }
  }

  /** In a run without crash and system failure, from a cleanup until somebody acquires the key again no other release
      runs a cleanup for it. */
  lemma OneCleanupPerHolding(before: seq<Event>, s: State, run: seq<Event>, t: nat, u: nat)
    requires Reaches(before, s) && QuietRun(INITIAL, before)
    requires ValidRun(s, run) && QuietRun(s, run)
    requires InCleanup(s, t) && NobodyJoins(s, run, s.calls[t].key)
    requires InCleanup(After(s, run), u) && After(s, run).calls[u].key == s.calls[t].key
    ensures u == t
  {
    RunKeepsTidy(INITIAL, before, {});
    hide Inv, NobodyJoins, QuietRun;
    StaysVacant(s, Orphans(INITIAL, before, {}), run, s.calls[t].key, t);
    OnlyTheCleaner(After(s, run), s.calls[t].key, t, u);
  }
}
