/** Which entry directories are left when no call is under way. */
module LockerQuiescence {
  import opened LockTable
  import opened Locker
  import opened LockerInvariant
  import opened LockerTheorems
  import opened LockerRefinement
  import opened LockerProgress
  import Paths

  /** Every system call succeeds and no process dies; only factories may report an error. */
  predicate OnlyFactoriesFail(s: State, e: Event) {
    match e
    case Step(t, o) => o.Succeeds? || (o.Fails? && t < |s.calls| && s.calls[t].pc.AFactory?)
    case Crash(_) => false
    case _ => true
  }

  ghost predicate QuietRun(s: State, run: seq<Event>)
    requires ValidRun(s, run)
    decreases |run|
  {
    run == [] || (OnlyFactoriesFail(s, run[0]) && QuietRun(Apply(s, run[0]), run[1..]))
  }

  /** The keys whose last holder so far was a call whose factory failed: it unlocks its read lock
      without the last-holder test, so nobody deletes the entry. A later release that removes the entry clears the
      key. */
  function Orphan(s: State, e: Event, orphans: set<Key>): set<Key>
    requires Enabled(s, e)
  {
    if !e.Step? then orphans
    else
      var t := e.call;
      var c := s.calls[t];
      if c.pc.AFailRead?
         && forall u | 0 <= u < |s.calls| && u != t && s.calls[u].key == c.key :: File(u, ReadSlot) !in s.table
      then orphans + {c.key}
      else if c.pc.RRemoveDir? && e.outcome.Succeeds? then orphans - {c.key}
      else orphans
  }

  function Orphans(s: State, run: seq<Event>, orphans: set<Key>): set<Key>
    requires ValidRun(s, run)
    decreases |run|
  {
    if run == [] then orphans else Orphans(Apply(s, run[0]), run[1..], Orphan(s, run[0], orphans))
  }

  // ---------- Somebody answers for every entry ----------

  /** This Acquire has made sure of the directory and will hold the key. */
  predicate WillHold(pc: PC) {
    pc.AOpenDir? || pc.AFlockDir? || pc.AUnlockRoot? || pc.ATouch? || pc.AOpenLock? || pc.AFlockLock?
  }

  /** This release has given up its read lock and will remove the entry if it was the last. */
  predicate WillTest(pc: PC) {
    pc.RTryOpen? || pc.RTryFlock? || Alone(pc)
  }

  ghost predicate AnswersFor(s: State, t: nat, k: Key) {
    && t < |s.calls| && s.calls[t].key == k
    && (Reads(s, t) || WillHold(s.calls[t].pc) || WillTest(s.calls[t].pc))
  }

  /** This call is about to put the lock file into the directory, or to remove the directory that lost it. */
  ghost predicate Fills(s: State, t: nat, k: Key) {
    && t < |s.calls| && s.calls[t].key == k
    && (s.calls[t].pc.AOpenDir? || s.calls[t].pc.AFlockDir? || s.calls[t].pc.AUnlockRoot? || s.calls[t].pc.ATouch?
        || s.calls[t].pc.RRemoveDir?)
  }

  ghost predicate Answered(s: State, orphans: set<Key>) {
    forall k | k in s.dirs :: k in orphans || exists t: nat :: AnswersFor(s, t, k)
  }

  ghost predicate Filled(s: State) {
    forall k | k in s.dirs :: s.dirs[k] in s.lockFiles || exists t: nat :: Fills(s, t, k)
  }

  /** The release gave up because the entry was gone, so its handle holds nothing any more. */
  predicate GaveUp(pc: PC) { pc.RFailRoot? || pc.RFailRead? }

  ghost predicate Ready(s: State, t: nat)
    requires t < |s.calls|
  {
    && (s.calls[t].pc.RUnlockRead? || s.calls[t].pc.RTryOpen? ==> s.calls[t].dir in s.lockFiles)
    && (GaveUp(s.calls[t].pc) ==> !Reads(s, s.calls[t].handle))
  }

  ghost predicate Tidy(s: State, orphans: set<Key>) {
    && Inv(s)
    && orphans <= s.dirs.Keys
    && Answered(s, orphans)
    && Filled(s)
    && (forall t | 0 <= t < |s.calls| :: Ready(s, t))
  }

  // ---------- The file system after a step ----------

  /** Entries that stay keep their directory; only touching adds a lock file and only unlinking removes one. */
  ghost predicate NamesAfter(s: State, c: Call, e: Effect, o: Outcome) {
    && (forall k | k in s.dirs && k in e.dirs :: e.dirs[k] == s.dirs[k])
    && e.lockFiles.Keys == (if c.pc.ATouch? && !o.Fails? && c.key in s.dirs then s.lockFiles.Keys + {s.dirs[c.key]}
                            else if c.pc.RUnlink? && o.Succeeds? && c.key in s.dirs
                            then s.lockFiles.Keys - {s.dirs[c.key]}
                            else s.lockFiles.Keys)
  }

  lemma AcquireNames(s: State, t: nat, o: Outcome)
    requires CanStep(s, t, o) && IsAcquire(s.calls[t].pc)
    ensures NamesAfter(s, s.calls[t], EffectOf(s, t, o), o)
  {
  }

  lemma ReleaseNames(s: State, t: nat, o: Outcome)
    requires CanStep(s, t, o) && !IsAcquire(s.calls[t].pc)
    ensures NamesAfter(s, s.calls[t], EffectOf(s, t, o), o)
  {
  }

  lemma StepNames(s: State, t: nat, o: Outcome)
    requires CanStep(s, t, o)
    ensures NamesAfter(s, s.calls[t], EffectOf(s, t, o), o)
  {
    if IsAcquire(s.calls[t].pc) { AcquireNames(s, t, o); } else { ReleaseNames(s, t, o); }
  }

  // ---------- Steps keep the store tidy ----------

  /** Another call's answer stands, or the call that takes its read lock away answers in its place. */
  lemma OthersStillAnswer(s: State, t: nat, o: Outcome, orphans: set<Key>, w: nat, k: Key)
    requires Tidy(s, orphans) && CanStep(s, t, o) && OnlyFactoriesFail(s, Step(t, o))
    requires AnswersFor(s, w, k) && w != t
    ensures AnswersFor(Apply(s, Step(t, o)), w, k) || AnswersFor(Apply(s, Step(t, o)), t, k)
  {
    StepKeepsCalls(s, t, o, w);
    StepKeepsCalls(s, t, o, t);
    ReadSlotAfter(s, t, o, w);
    assert Handled(s, t) && Ready(s, t);
  }

  /** The call that moves keeps answering, finds another holder, leaves an orphan, or has removed the entry. */
  lemma OwnAnswer(s: State, t: nat, o: Outcome, orphans: set<Key>)
    requires Tidy(s, orphans) && CanStep(s, t, o) && OnlyFactoriesFail(s, Step(t, o))
    requires AnswersFor(s, t, s.calls[t].key)
    ensures var k := s.calls[t].key;
            var s' := Apply(s, Step(t, o));
            k !in s'.dirs || k in Orphan(s, Step(t, o), orphans) || AnswersFor(s', t, k)
            || exists u: nat :: u != t && Reads(s, u) && u < |s.calls| && s.calls[u].key == k
  {
    StepKeepsCalls(s, t, o, t);
    ReadSlotAfter(s, t, o, t);
    assert Placed(s, t) && Ready(s, t) && Owns(s, t);
    if s.calls[t].pc.RTryFlock? {
      LastHolderIsAlone(s, t);
    } else if s.calls[t].pc.RRemoveDir? {
      StepEntries(s, t, o);
    } else if IsAcquire(s.calls[t].pc) {
      OwnAcquireAnswer(s, t, o);
    } else {
      OwnReleaseAnswer(s, t, o);
    }
  }

  lemma OwnAcquireAnswer(s: State, t: nat, o: Outcome)
    requires CanStep(s, t, o) && OnlyFactoriesFail(s, Step(t, o)) && Placed(s, t) && Owns(s, t)
    requires IsAcquire(s.calls[t].pc) && AnswersFor(s, t, s.calls[t].key)
    ensures s.calls[t].pc.AFailRead? || AnswersFor(Apply(s, Step(t, o)), t, s.calls[t].key)
  {
  }

  lemma OwnReleaseAnswer(s: State, t: nat, o: Outcome)
    requires CanStep(s, t, o) && OnlyFactoriesFail(s, Step(t, o)) && Placed(s, t) && Ready(s, t)
    requires WillTest(s.calls[t].pc) && !s.calls[t].pc.RTryFlock? && !s.calls[t].pc.RRemoveDir?
    ensures AnswersFor(Apply(s, Step(t, o)), t, s.calls[t].key)
  {
  }

  lemma SomebodyStillAnswers(s: State, t: nat, o: Outcome, orphans: set<Key>, k: Key, w: nat) returns (u: nat)
    requires Tidy(s, orphans) && CanStep(s, t, o) && OnlyFactoriesFail(s, Step(t, o))
    requires AnswersFor(s, w, k)
    requires k in Apply(s, Step(t, o)).dirs && k !in Orphan(s, Step(t, o), orphans)
    ensures AnswersFor(Apply(s, Step(t, o)), u, k)
  {
    if w == t { OwnAnswer(s, t, o, orphans); }
    if AnswersFor(Apply(s, Step(t, o)), t, k) {
      u := t;
    } else {
      u := w;
      if w == t { u :| u != t && Reads(s, u) && u < |s.calls| && s.calls[u].key == k; }
      OthersStillAnswer(s, t, o, orphans, u, k);
    }
  }

  lemma MakerAnswers(s: State, t: nat, o: Outcome, k: Key)
    requires Inv(s) && CanStep(s, t, o) && k !in s.dirs && k in Apply(s, Step(t, o)).dirs
    ensures AnswersFor(Apply(s, Step(t, o)), t, k)
  {
    StepEntries(s, t, o);
    StepKeepsCalls(s, t, o, t);
  }

  lemma StepKeepsAnswered(s: State, t: nat, o: Outcome, orphans: set<Key>)
    requires Tidy(s, orphans) && CanStep(s, t, o) && OnlyFactoriesFail(s, Step(t, o))
    ensures Answered(Apply(s, Step(t, o)), Orphan(s, Step(t, o), orphans))
  {
    var s' := Apply(s, Step(t, o));
    var orphans' := Orphan(s, Step(t, o), orphans);
    forall k | k in s'.dirs && k !in orphans' ensures exists u: nat :: AnswersFor(s', u, k) {
      if k !in s.dirs {
        MakerAnswers(s, t, o, k);
      } else {
        assert k !in orphans by { StepEntries(s, t, o); assert Placed(s, t); }
        var w: nat :| AnswersFor(s, w, k);
        var u := SomebodyStillAnswers(s, t, o, orphans, k, w);
      }
    }
  }

  lemma StepKeepsFilled(s: State, t: nat, o: Outcome, orphans: set<Key>)
    requires Tidy(s, orphans) && CanStep(s, t, o) && OnlyFactoriesFail(s, Step(t, o))
    ensures Filled(Apply(s, Step(t, o)))
  {
    var s' := Apply(s, Step(t, o));
    StepEntries(s, t, o);
    StepNames(s, t, o);
    StepKeepsCalls(s, t, o, t);
    assert Placed(s, t);
    forall k | k in s'.dirs && s'.dirs[k] !in s'.lockFiles ensures exists u: nat :: Fills(s', u, k) {
      if k !in s.dirs || s.dirs[k] in s.lockFiles {
        NewFiller(s, t, o, k);
        assert Fills(s', t, k);
      } else {
        var w: nat :| Fills(s, w, k);
        if w == t { SameFiller(s, t, o); } else { StepKeepsCalls(s, t, o, w); }
        assert Fills(s', w, k);
      }
    }
  }

  /** The directory was just made, or it just lost its lock file: the call that did it goes on to deal with it. */
  lemma NewFiller(s: State, t: nat, o: Outcome, k: Key)
    requires Inv(s) && CanStep(s, t, o) && OnlyFactoriesFail(s, Step(t, o))
    requires var s' := Apply(s, Step(t, o)); k in s'.dirs && s'.dirs[k] !in s'.lockFiles
    requires k !in s.dirs || s.dirs[k] in s.lockFiles
    ensures Fills(Apply(s, Step(t, o)), t, k)
  {
    StepEntries(s, t, o);
    StepNames(s, t, o);
    StepKeepsCalls(s, t, o, t);
    assert Placed(s, t);
  }

  lemma SameFiller(s: State, t: nat, o: Outcome)
    requires Inv(s) && CanStep(s, t, o) && OnlyFactoriesFail(s, Step(t, o)) && Fills(s, t, s.calls[t].key)
    ensures var s' := Apply(s, Step(t, o));
            var k := s.calls[t].key;
            k in s'.dirs && s'.dirs[k] !in s'.lockFiles ==> Fills(s', t, k)
  {
    StepEntries(s, t, o);
    StepNames(s, t, o);
    StepKeepsCalls(s, t, o, t);
    assert Placed(s, t);
  }

  /** While the directory lock is free and the global lock is ours, nobody is about to fill or remove the directory. */
  lemma NobodyFills(s: State, t: nat, w: nat)
    requires Inv(s) && CanStep(s, t, Succeeds) && s.calls[t].pc.RFlockDir?
    ensures !Fills(s, w, s.calls[t].key)
  {
    if w < |s.calls| {
      assert Placed(s, t) && Owns(s, w) && Placed(s, w);
      OneGlobal(s, t, w);
      assert Lock(Directory(s.calls[t].dir), true) in Wanted(s.calls[t]);
    }
  }

  /** A release that has just been granted the directory lock finds a lock file in the directory. */
  lemma GrantedDirectoryIsFilled(s: State, t: nat, orphans: set<Key>)
    requires Tidy(s, orphans) && CanStep(s, t, Succeeds) && s.calls[t].pc.RFlockDir?
    ensures s.calls[t].dir in s.lockFiles
  {
    assert Placed(s, t);
    if s.calls[t].dir !in s.lockFiles {
      var w: nat :| Fills(s, w, s.calls[t].key);
      NobodyFills(s, t, w);
    }
  }

  lemma OwnReadyAfterStep(s: State, t: nat, o: Outcome)
    requires CanStep(s, t, o) && OnlyFactoriesFail(s, Step(t, o)) && Ready(s, t) && Placed(s, t)
    requires !IsAcquire(s.calls[t].pc) ==> s.calls[t].handle != t
    requires s.calls[t].pc.RFlockDir? ==> s.calls[t].dir in s.lockFiles
    requires s.calls[t].pc.ROpenDir? && s.calls[t].key !in s.dirs ==> !Reads(s, s.calls[t].handle)
    ensures Ready(Apply(s, Step(t, o)), t)
  {
    match s.calls[t].pc
    case ROpenDir => case RFlockDir => case RUnlockRead => case RTryOpen => case RFailRoot => case RFailRead =>
    case _ =>
      ReadyElsewhere(s, t, o);
      hide EffectOf;
  }

  /** Steps from all other program points lead neither to the test nor to giving up. */
  lemma ReadyElsewhere(s: State, t: nat, o: Outcome)
    requires CanStep(s, t, o) && OnlyFactoriesFail(s, Step(t, o)) && Ready(s, t)
    requires var pc := s.calls[t].pc;
             !pc.ROpenDir? && !pc.RFlockDir? && !pc.RUnlockRead? && !pc.RTryOpen? && !GaveUp(pc)
    ensures var pc := EffectOf(s, t, o).call.pc; !pc.RUnlockRead? && !pc.RTryOpen? && !GaveUp(pc)
  {
    var c := s.calls[t];
    if IsAcquire(c.pc) { AcquireStaysAcquire(s, t, c, o.Succeeds?, o.FailsLate?); }
    else { ReleaseElsewhere(s, t, c); }
  }

  lemma AcquireStaysAcquire(s: State, t: nat, c: Call, ok: bool, late: bool)
    requires IsAcquire(c.pc)
    ensures IsAcquire(StepAcquire(s, t, c, ok, late).call.pc)
  {
    match c.pc
    case AMakeRoot => case AOpenRoot => case AFlockRoot => case AMakeDir => case AOpenDir => case AFlockDir =>
    case AUnlockRoot => case ATouch => case AOpenLock => case AFlockLock => case AFactory => case AUnlockDir =>
    case AFailRoot => case AFailRead => case AFailDir => case _ =>
  }

  lemma ReleaseElsewhere(s: State, t: nat, c: Call)
    requires !IsAcquire(c.pc) && !c.pc.Dead?
    requires !c.pc.ROpenDir? && !c.pc.RFlockDir? && !c.pc.RUnlockRead? && !c.pc.RTryOpen? && !GaveUp(c.pc)
    ensures var pc := StepRelease(s, t, c, true).call.pc; !pc.RUnlockRead? && !pc.RTryOpen? && !GaveUp(pc)
  {
    match c.pc
    case ROpenRoot => case RFlockRoot => case ROpenDir => case RFlockDir => case RUnlockRead => case RTryOpen =>
    case RTryFlock => case RCleanup => case RUnlockExclusive => case RUnlink => case RRemoveDir => case RUnlockDir =>
    case RUnlockRoot => case RFailRoot => case RFailRead => case _ =>
  }

  lemma OwnReady(s: State, t: nat, o: Outcome, orphans: set<Key>)
    requires Tidy(s, orphans) && CanStep(s, t, o) && OnlyFactoriesFail(s, Step(t, o))
    ensures Ready(Apply(s, Step(t, o)), t)
  {
    assert Ready(s, t) && Handled(s, t) && Placed(s, t);
    assert !IsAcquire(s.calls[t].pc) ==> Placed(s, s.calls[t].handle);
    if s.calls[t].pc.RFlockDir? { GrantedDirectoryIsFilled(s, t, orphans); }
    OwnReadyAfterStep(s, t, o);
  }

  lemma OthersReady(s: State, t: nat, o: Outcome, u: nat)
    requires Inv(s) && CanStep(s, t, o) && u < |s.calls| && u != t && Ready(s, u)
    ensures Ready(Apply(s, Step(t, o)), u)
  {
    StepKeepsCalls(s, t, o, u);
    StepNames(s, t, o);
    ReadSlotAfter(s, t, o, s.calls[u].handle);
    assert Handled(s, u) && Placed(s, u) && Placed(s, t) && Handled(s, t);
    OneGlobal(s, t, u);
  }

  lemma StepKeepsTidy(s: State, e: Event, orphans: set<Key>)
    requires Tidy(s, orphans) && Enabled(s, e) && OnlyFactoriesFail(s, e)
    ensures Tidy(Apply(s, e), Orphan(s, e, orphans))
  {
    StepKeepsInv(s, e);
    match e
    case Step(t, o) =>
      StepKeepsAnswered(s, t, o, orphans);
      StepKeepsFilled(s, t, o, orphans);
      forall u | 0 <= u < |s.calls| ensures Ready(Apply(s, e), u) {
        if u == t { OwnReady(s, t, o, orphans); } else { OthersReady(s, t, o, u); }
      }
      StepEntries(s, t, o);
      assert Placed(s, t) && Owns(s, t);
    case CallAcquire(_, _) => CallKeepsTidy(s, e, orphans);
    case CallRelease(_) => CallKeepsTidy(s, e, orphans);
  }

  lemma CallKeepsTidy(s: State, e: Event, orphans: set<Key>)
    requires Tidy(s, orphans) && Enabled(s, e) && (e.CallAcquire? || e.CallRelease?) && Inv(Apply(s, e))
    ensures Tidy(Apply(s, e), orphans)
  {
    var s' := Apply(s, e);
    forall k | k in s'.dirs && k !in orphans ensures exists t: nat :: AnswersFor(s', t, k) {
      var t: nat :| AnswersFor(s, t, k);
      assert AnswersFor(s', t, k);
    }
    forall k | k in s'.dirs && s'.dirs[k] !in s'.lockFiles ensures exists t: nat :: Fills(s', t, k) {
      var t: nat :| Fills(s, t, k);
      assert Fills(s', t, k);
    }
    forall u | 0 <= u < |s'.calls| ensures Ready(s', u) {
      if u < |s.calls| { assert Ready(s, u); }
    }
  }

  lemma {:induction false} RunKeepsTidy(s: State, run: seq<Event>, orphans: set<Key>)
    requires Tidy(s, orphans) && ValidRun(s, run) && QuietRun(s, run)
    ensures Tidy(After(s, run), Orphans(s, run, orphans))
    decreases |run|
  {
    if run != [] {
      StepKeepsTidy(s, run[0], orphans);
      RunKeepsTidy(Apply(s, run[0]), run[1..], Orphan(s, run[0], orphans));
    }
  }

  // ---------- Which entries are left ----------

  function HeldKeys(s: State): set<Key> { set h | h in HoldersOf(s) :: h.0 }

  lemma HeldKeysAreEntries(s: State)
    requires Inv(s)
    ensures HeldKeys(s) <= s.dirs.Keys
  {
    forall h | h in HoldersOf(s) ensures h.0 in s.dirs {
      HoldersWhere(s, h.0, h.1);
      assert Placed(s, h.1);
    }
  }

  lemma AnsweredAtRest(s: State, orphans: set<Key>, k: Key)
    requires Answered(s, orphans) && Quiescent(s) && k in s.dirs && k !in orphans
    ensures k in HeldKeys(s)
  {
    var t: nat :| AnswersFor(s, t, k);
    assert Finished(s.calls[t].pc);
    assert (k, t) in HoldersOf(s);
  }

  /** In runs without crash or system failure, when no call is under way the entry directories are exactly
      those of the keys somebody holds and of the keys orphaned by a failing factory. */
  lemma EntriesAtRest(run: seq<Event>, s: State)
    requires Reaches(run, s) && QuietRun(INITIAL, run) && Quiescent(s)
    ensures s.dirs.Keys == HeldKeys(s) + Orphans(INITIAL, run, {})
  {
    RunKeepsTidy(INITIAL, run, {});
    var orphans := Orphans(INITIAL, run, {});
    HeldKeysAreEntries(s);
    forall k | k in s.dirs && k !in orphans ensures k in HeldKeys(s) { AnsweredAtRest(s, orphans, k); }
  }

  /** An entry is left behind exactly when its last holder was a call whose factory failed. */
  lemma EntryIsLeakedIffOrphaned(run: seq<Event>, s: State, k: Key)
    requires Reaches(run, s) && QuietRun(INITIAL, run) && Quiescent(s) && k !in HeldKeys(s)
    ensures k in s.dirs <==> k in Orphans(INITIAL, run, {})
  {
    EntriesAtRest(run, s);
  }

  // ---------- Runs in which factories succeed too ----------

  predicate Succeeding(run: seq<Event>) {
    forall e | e in run :: !e.Crash? && (e.Step? ==> e.outcome.Succeeds?)
  }

  ghost predicate NoFactoryFailed(s: State) {
    forall t | 0 <= t < |s.calls| :: !s.calls[t].pc.AFailRead?
  }

  lemma {:induction false} SucceedingRunIsQuiet(s: State, run: seq<Event>, orphans: set<Key>)
    requires ValidRun(s, run) && Succeeding(run) && NoFactoryFailed(s)
    ensures QuietRun(s, run)
    ensures Orphans(s, run, orphans) <= orphans
    decreases |run|
  {
    if run != [] {
      var s' := Apply(s, run[0]);
      assert run[0] in run;
      assert NoFactoryFailed(s') by {
        forall t | 0 <= t < |s'.calls| ensures !s'.calls[t].pc.AFailRead? {
          if run[0].Step? { StepKeepsCalls(s, run[0].call, run[0].outcome, t); NoSuddenFailure(s, run[0].call); }
        }
      }
      SucceedingRunIsQuiet(s', run[1..], Orphan(s, run[0], orphans));
    }
  }

  lemma NoSuddenFailure(s: State, t: nat)
    requires t < |s.calls| && !Finished(s.calls[t].pc) && !s.calls[t].pc.AFailRead?
    ensures !EffectOf(s, t, Succeeds).call.pc.AFailRead?
  {
  }

  /** Without crashes and failures the store holds at rest an entry for exactly the keys that have a holder. */
  lemma NothingIsLeftBehind(run: seq<Event>, s: State)
    requires Reaches(run, s) && Succeeding(run) && Quiescent(s)
    ensures s.dirs.Keys == HeldKeys(s)
  {
    SucceedingRunIsQuiet(INITIAL, run, {});
    EntriesAtRest(run, s);
  }

  // ---------- A failing factory ----------

  lemma {:induction false} RunExtends(s: State, run: seq<Event>, e: Event)
    requires ValidRun(s, run) && Enabled(After(s, run), e)
    ensures ValidRun(s, run + [e]) && After(s, run + [e]) == Apply(After(s, run), e)
    decreases |run|
  {
    if run == [] {
      assert [] + [e] == [e];
    } else {
      RunExtends(Apply(s, run[0]), run[1..], e);
      assert (run + [e])[1..] == run[1..] + [e];
    }
  }

  lemma StepOn(run: seq<Event>, s: State, o: Outcome) returns (run': seq<Event>, s': State)
    requires Reaches(run, s) && CanStep(s, 0, o)
    ensures run' == run + [Step(0, o)] && s' == Apply(s, Step(0, o)) && Reaches(run', s')
  {
    run' := run + [Step(0, o)];
    s' := Apply(s, Step(0, o));
    RunExtends(INITIAL, run, Step(0, o));
  }

  lemma ToTheGlobalLock(k: Key) returns (run: seq<Event>, s: State)
    requires Paths.ValidComponent(k)
    ensures Reaches(run, s)
    ensures s == State([Call(0, k, 0, AMakeDir, 0, 0)], map[File(0, GlobalSlot) := Lock(Root, true)], map[], map[], 0)
  {
    RunExtends(INITIAL, [], CallAcquire(0, k));
    run, s := [CallAcquire(0, k)], Apply(INITIAL, CallAcquire(0, k));
    assert [] + run == run;
    run, s := StepOn(run, s, Succeeds);
    run, s := StepOn(run, s, Succeeds);
    run, s := StepOn(run, s, Succeeds);
  }

  lemma ToTheDirectory(k: Key) returns (run: seq<Event>, s: State)
    requires Paths.ValidComponent(k)
    ensures Reaches(run, s)
    ensures s == State([Call(0, k, 0, AFlockDir, 0, 0)], map[File(0, GlobalSlot) := Lock(Root, true)], map[k := 0],
                       map[], 1)
  {
    run, s := ToTheGlobalLock(k);
    hide Reaches;
    run, s := StepOn(run, s, Succeeds);
    run, s := StepOn(run, s, Succeeds);
  }

  lemma ToTheDirectoryLock(k: Key) returns (run: seq<Event>, s: State)
    requires Paths.ValidComponent(k)
    ensures Reaches(run, s)
    ensures s == State([Call(0, k, 0, AUnlockRoot, 0, 0)],
                       map[File(0, GlobalSlot) := Lock(Root, true), File(0, DirectorySlot) := Lock(Directory(0), true)],
                       map[k := 0], map[], 1)
  {
    run, s := ToTheDirectory(k);
    hide Reaches;
    run, s := StepOn(run, s, Succeeds);
  }

  lemma ToTheLockFile(k: Key) returns (run: seq<Event>, s: State)
    requires Paths.ValidComponent(k)
    ensures Reaches(run, s)
    ensures s == State([Call(0, k, 0, AOpenLock, 0, 0)], map[File(0, DirectorySlot) := Lock(Directory(0), true)],
                       map[k := 0], map[0 := 1], 2)
  {
    run, s := ToTheDirectoryLock(k);
    run, s := StepOn(run, s, Succeeds);
    run, s := StepOn(run, s, Succeeds);
  }

  lemma ToTheFactory(k: Key) returns (run: seq<Event>, s: State)
    requires Paths.ValidComponent(k)
    ensures Reaches(run, s)
    ensures s == State([Call(0, k, 0, AFactory, 0, 1)],
                       map[File(0, DirectorySlot) := Lock(Directory(0), true),
                           File(0, ReadSlot) := Lock(LockFile(1), false)],
                       map[k := 0], map[0 := 1], 2)
  {
    run, s := ToTheLockFile(k);
    run, s := StepOn(run, s, Succeeds);
    run, s := StepOn(run, s, Succeeds);
  }

  lemma ToTheFailure(k: Key) returns (run: seq<Event>, s: State)
    requires Paths.ValidComponent(k)
    ensures Reaches(run, s)
    ensures s == State([Call(0, k, 0, AFailDir, 0, 1)], map[File(0, DirectorySlot) := Lock(Directory(0), true)],
                       map[k := 0], map[0 := 1], 2)
  {
    run, s := ToTheFactory(k);
    hide Reaches;
    run, s := StepOn(run, s, Fails);
    run, s := StepOn(run, s, Succeeds);
  }

  /** One Acquire whose factory fails leaves the entry directory behind although nobody holds the key. */
  lemma FailingFactoryLeavesEntry(k: Key) returns (run: seq<Event>, s: State)
    requires Paths.ValidComponent(k)
    ensures Reaches(run, s) && Quiescent(s)
    ensures HeldKeys(s) == {} && k in s.dirs
  {
    run, s := ToTheFailure(k);
    hide Reaches;
    run, s := StepOn(run, s, Succeeds);
    assert s == State([Call(0, k, 0, AFailed, 0, 1)], map[], map[k := 0], map[0 := 1], 2);
  }
}
