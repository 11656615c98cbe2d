/** The reference-counted Locker as a transition system over any number of calls, processes and keys.
    Every system call is a step of its own; a lock is an open (path to inode) and a later flock. */
module Locker {
  import opened LockTable
  import Paths

  type Key = Paths.Text

  /** Program points. A..: Acquire, R..: the release function. Each is named after the step it is about to take. */
  datatype PC =
    // Acquire
    | AMakeRoot       // validate the key, MkdirAll(root)
    | AOpenRoot       // Lock(root): open
    | AFlockRoot      // Lock(root): flock, may wait
    | AMakeDir        // MkdirAll(dir)
    | AOpenDir        // Lock(dir): open
    | AFlockDir       // Lock(dir): flock, may wait
    | AUnlockRoot
    | ATouch          // create the lock file if it is missing
    | AOpenLock       // ReadOnlyLock(lock file): open
    | AFlockLock      // ReadOnlyLock(lock file): flock, may wait
    | AFactory        // inside the factory
    | AUnlockDir
    | AHeld           // Acquire returned a release function
    | AFailRoot       // failed with the global lock held: unlock it
    | AFailRead       // the factory failed: unlock the read lock
    | AFailDir        // failed with the directory lock held: unlock it
    | AFailed         // Acquire returned an error
    // release
    | ROpenRoot
    | RFlockRoot
    | ROpenDir
    | RFlockDir
    | RUnlockRead
    | RTryOpen        // TryLock(lock file): open
    | RTryFlock       // TryLock(lock file): flock without waiting
    | RCleanup        // last holder: inside the cleanup function
    | RUnlockExclusive
    | RUnlink         // RemoveAll(dir): the lock file goes
    | RRemoveDir      // RemoveAll(dir): the directory goes
    | RUnlockDir
    | RUnlockRoot
    | RFailRoot       // could not lock the directory: unlock global
    | RFailRead       // could not lock: only give up the read lock
    | RDone
    // either
    | Dead            // the process crashed

  /** One call. A call to Acquire is its own handle; a call to the release function names the Acquire it came from.
      `dir` and `file` are the inodes this call has opened. */
  datatype Call = Call(process: nat, key: Key, handle: nat, pc: PC, dir: nat, file: nat)

  /** `dirs`: which directory inode lies at the path of each entry; `lockFiles`: which lock file lies in a directory;
      `next`: inode numbers from here on have never been used. */
  datatype State = State(calls: seq<Call>, table: Table, dirs: map<Key, nat>, lockFiles: map<nat, nat>, next: nat)

  /** What the environment lets a system call, the factory or RemoveAll do.
      FailsLate: touching the lock file created it, but closing it reported an error. */
  datatype Outcome = Succeeds | Fails | FailsLate

  datatype Event =
    | CallAcquire(process: nat, key: Key)
    | CallRelease(handle: nat)
    | Step(call: nat, outcome: Outcome)
    | Crash(process: nat)

  const INITIAL := State([], map[], map[], map[], 0)

  // ---------- Program points ----------

  predicate Finished(pc: PC) { pc.AHeld? || pc.AFailed? || pc.RDone? || pc.Dead? }

  predicate IsAcquire(pc: PC) {
    || pc.AMakeRoot? || pc.AOpenRoot? || pc.AFlockRoot? || pc.AMakeDir? || pc.AOpenDir? || pc.AFlockDir?
    || pc.AUnlockRoot? || pc.ATouch? || pc.AOpenLock? || pc.AFlockLock? || pc.AFactory? || pc.AUnlockDir?
    || pc.AHeld? || pc.AFailRoot? || pc.AFailRead? || pc.AFailDir? || pc.AFailed?
  }

  predicate HoldsRoot(pc: PC) {
    || pc.AMakeDir? || pc.AOpenDir? || pc.AFlockDir? || pc.AUnlockRoot? || pc.AFailRoot?
    || pc.ROpenDir? || pc.RFlockDir? || pc.RUnlockRead? || pc.RTryOpen? || pc.RTryFlock? || pc.RCleanup?
    || pc.RUnlockExclusive? || pc.RUnlink? || pc.RRemoveDir? || pc.RUnlockDir? || pc.RUnlockRoot?
    || pc.RFailRoot?
  }

  predicate HoldsDir(pc: PC) {
    || pc.AUnlockRoot? || pc.ATouch? || pc.AOpenLock? || pc.AFlockLock? || pc.AFactory? || pc.AUnlockDir?
    || pc.AFailRead? || pc.AFailDir?
    || pc.RUnlockRead? || pc.RTryOpen? || pc.RTryFlock? || pc.RCleanup? || pc.RUnlockExclusive? || pc.RUnlink?
    || pc.RRemoveDir? || pc.RUnlockDir?
  }

  predicate HoldsExclusive(pc: PC) { pc.RCleanup? || pc.RUnlockExclusive? }

  /** The flock this step waits for, if it is a blocking one. */
  function Wanted(call: Call): (want: seq<Lock>)
    ensures |want| <= 1
  {
    match call.pc
    case AFlockRoot | RFlockRoot => [Lock(Root, true)]
    case AFlockDir | RFlockDir => [Lock(Directory(call.dir), true)]
    case AFlockLock => [Lock(LockFile(call.file), false)]
    case _ => []
  }

  /** Steps that may report an error: all but unlocking, whose error the code ignores, and running cleanup. */
  predicate MayFail(pc: PC, outcome: Outcome) {
    match outcome
    case Succeeds => true
    case Fails => !(pc in {AUnlockRoot, AUnlockDir, AFailRoot, AFailRead, AFailDir, RUnlockRead, RCleanup,
                           RUnlockExclusive, RUnlockDir, RUnlockRoot, RFailRoot, RFailRead})
    case FailsLate => pc.ATouch?
  }

  // ---------- Steps ----------

  predicate CanStep(s: State, t: nat, outcome: Outcome) {
    && t < |s.calls|
    && !Finished(s.calls[t].pc)
    && MayFail(s.calls[t].pc, outcome)
    && (outcome.Succeeds? ==> forall want | want in Wanted(s.calls[t]) :: Grantable(s.table, want))
  }

  predicate Enabled(s: State, e: Event) {
    match e
    case CallAcquire(_, _) => true
    case CallRelease(h) => h < |s.calls| && s.calls[h].pc.AHeld?
    case Step(t, outcome) => CanStep(s, t, outcome)
    case Crash(p) => exists t :: 0 <= t < |s.calls| && s.calls[t].process == p && !s.calls[t].pc.Dead?
  }

  /** What a step makes of the call itself and of everything it shares with the others. */
  datatype Effect = Effect(call: Call, table: Table, dirs: map<Key, nat>, lockFiles: map<nat, nat>, next: nat)

  function Move(s: State, c: Call): Effect { Effect(c, s.table, s.dirs, s.lockFiles, s.next) }

  function Taking(s: State, f: File, lock: Lock, c: Call): Effect {
    Effect(c, Grant(s.table, f, lock), s.dirs, s.lockFiles, s.next)
  }

  function Dropping(s: State, f: File, c: Call): Effect {
    Effect(c, Unlock(s.table, f), s.dirs, s.lockFiles, s.next)
  }

  /** MkdirAll(dir): a new directory, unless there is one. */
  function MakingDir(s: State, c: Call): Effect {
    if c.key in s.dirs then Move(s, c)
    else Effect(c, s.table, s.dirs[c.key := s.next], s.lockFiles, s.next + 1)
  }

  /** Opening the lock file with O_CREATE: a new lock file in the directory at the path, unless there is one. */
  function Touching(s: State, c: Call): Effect
    requires c.key in s.dirs
  {
    if s.dirs[c.key] in s.lockFiles then Move(s, c)
    else Effect(c, s.table, s.dirs, s.lockFiles[s.dirs[c.key] := s.next], s.next + 1)
  }

  /** The same call, at another program point. */
  function At(c: Call, pc: PC): Call { Call(c.process, c.key, c.handle, pc, c.dir, c.file) }

  function StepAcquire(s: State, t: nat, c: Call, ok: bool, late: bool): Effect {
    match c.pc
    case AMakeRoot => Move(s, At(c, if Paths.ValidComponent(c.key) && ok then AOpenRoot else AFailed))
    case AOpenRoot => Move(s, At(c, if ok then AFlockRoot else AFailed))
    case AFlockRoot =>
      if ok then Taking(s, File(t, GlobalSlot), Lock(Root, true), At(c, AMakeDir)) else Move(s, At(c, AFailed))
    case AMakeDir => if ok then MakingDir(s, At(c, AOpenDir)) else Move(s, At(c, AFailRoot))
    case AOpenDir =>
      if ok && c.key in s.dirs then Move(s, Call(c.process, c.key, c.handle, AFlockDir, s.dirs[c.key], c.file))
      else Move(s, At(c, AFailRoot))
    case AFlockDir =>
      if ok then Taking(s, File(t, DirectorySlot), Lock(Directory(c.dir), true), At(c, AUnlockRoot))
      else Move(s, At(c, AFailRoot))
    case AUnlockRoot => Dropping(s, File(t, GlobalSlot), At(c, ATouch))
    case ATouch =>
      if (ok || late) && c.key in s.dirs then Touching(s, At(c, if late then AFailDir else AOpenLock))
      else Move(s, At(c, AFailDir))
    case AOpenLock =>
      if ok && c.key in s.dirs && s.dirs[c.key] in s.lockFiles
      then Move(s, Call(c.process, c.key, c.handle, AFlockLock, c.dir, s.lockFiles[s.dirs[c.key]]))
      else Move(s, At(c, AFailDir))
    case AFlockLock =>
      if ok then Taking(s, File(t, ReadSlot), Lock(LockFile(c.file), false), At(c, AFactory))
      else Move(s, At(c, AFailDir))
    case AFactory => Move(s, At(c, if ok then AUnlockDir else AFailRead))
    case AUnlockDir => Dropping(s, File(t, DirectorySlot), At(c, AHeld))
    case AFailRoot => Dropping(s, File(t, GlobalSlot), At(c, AFailed))
    case AFailRead => Dropping(s, File(t, ReadSlot), At(c, AFailDir))
    case AFailDir => Dropping(s, File(t, DirectorySlot), At(c, AFailed))
    case _ => Move(s, c)
  }

  function StepRelease(s: State, t: nat, c: Call, ok: bool): Effect {
    match c.pc
    case ROpenRoot => Move(s, At(c, if ok then RFlockRoot else RFailRead))
    case RFlockRoot =>
      if ok then Taking(s, File(t, GlobalSlot), Lock(Root, true), At(c, ROpenDir)) else Move(s, At(c, RFailRead))
    case ROpenDir =>
      if ok && c.key in s.dirs then Move(s, Call(c.process, c.key, c.handle, RFlockDir, s.dirs[c.key], c.file))
      else Move(s, At(c, RFailRoot))
    case RFlockDir =>
      if ok then Taking(s, File(t, DirectorySlot), Lock(Directory(c.dir), true), At(c, RUnlockRead))
      else Move(s, At(c, RFailRoot))
    case RUnlockRead => Dropping(s, File(c.handle, ReadSlot), At(c, RTryOpen))
    case RTryOpen =>
      if ok && c.key in s.dirs && s.dirs[c.key] in s.lockFiles
      then Move(s, Call(c.process, c.key, c.handle, RTryFlock, c.dir, s.lockFiles[s.dirs[c.key]]))
      else Move(s, At(c, RUnlockDir))
    case RTryFlock =>
      if ok && Grantable(s.table, Lock(LockFile(c.file), true))
      then Taking(s, File(t, ExclusiveSlot), Lock(LockFile(c.file), true), At(c, RCleanup))
      else Move(s, At(c, RUnlockDir))
    case RCleanup => Move(s, At(c, RUnlockExclusive))
    case RUnlockExclusive => Dropping(s, File(t, ExclusiveSlot), At(c, RUnlink))
    case RUnlink =>
      if !ok then Move(s, At(c, RUnlockDir))
      else if c.key in s.dirs
      then Effect(At(c, RRemoveDir), s.table, s.dirs, s.lockFiles - {s.dirs[c.key]}, s.next)
      else Move(s, At(c, RRemoveDir))
    case RRemoveDir =>
      if ok && c.key in s.dirs && s.dirs[c.key] !in s.lockFiles
      then Effect(At(c, RUnlockDir), s.table, s.dirs - {c.key}, s.lockFiles, s.next)
      else Move(s, At(c, RUnlockDir))
    case RUnlockDir => Dropping(s, File(t, DirectorySlot), At(c, RUnlockRoot))
    case RUnlockRoot => Dropping(s, File(t, GlobalSlot), At(c, RDone))
    case RFailRoot => Dropping(s, File(t, GlobalSlot), At(c, RFailRead))
    case RFailRead => Dropping(s, File(c.handle, ReadSlot), At(c, RDone))
    case _ => Move(s, c)
  }

  function EffectOf(s: State, t: nat, o: Outcome): Effect
    requires t < |s.calls|
  {
    if IsAcquire(s.calls[t].pc) then StepAcquire(s, t, s.calls[t], o.Succeeds?, o.FailsLate?)
    else StepRelease(s, t, s.calls[t], o.Succeeds?)
  }

  function Commit(s: State, t: nat, e: Effect): State
    requires t < |s.calls|
  {
    State(s.calls[t := e.call], e.table, e.dirs, e.lockFiles, e.next)
  }

  function CallsOf(s: State, p: nat): set<nat> {
    set t | 0 <= t < |s.calls| && s.calls[t].process == p
  }

  function Kill(s: State, p: nat): State {
    s.(calls := seq(|s.calls|, t requires 0 <= t < |s.calls| =>
                    if s.calls[t].process == p then s.calls[t].(pc := Dead) else s.calls[t]),
       table := Release(s.table, CallsOf(s, p)))
  }

  function Apply(s: State, e: Event): State
    requires Enabled(s, e)
  {
    match e
    case CallAcquire(p, k) => s.(calls := s.calls + [Call(p, k, |s.calls|, AMakeRoot, 0, 0)])
    case CallRelease(h) => s.(calls := s.calls + [Call(s.calls[h].process, s.calls[h].key, h, ROpenRoot, 0, 0)])
    case Step(t, o) => Commit(s, t, EffectOf(s, t, o))
    case Crash(p) => Kill(s, p)
  }

  // ---------- Where steps lead ----------

  /** Where a step may lead: on, or into the handling of a failure. */
  function Onward(pc: PC): PC {
    match pc
    case AMakeRoot => AOpenRoot
    case AOpenRoot => AFlockRoot
    case AFlockRoot => AMakeDir
    case AMakeDir => AOpenDir
    case AOpenDir => AFlockDir
    case AFlockDir => AUnlockRoot
    case AUnlockRoot => ATouch
    case ATouch => AOpenLock
    case AOpenLock => AFlockLock
    case AFlockLock => AFactory
    case AFactory => AUnlockDir
    case AUnlockDir => AHeld
    case AFailRoot => AFailed
    case AFailRead => AFailDir
    case AFailDir => AFailed
    case ROpenRoot => RFlockRoot
    case RFlockRoot => ROpenDir
    case ROpenDir => RFlockDir
    case RFlockDir => RUnlockRead
    case RUnlockRead => RTryOpen
    case RTryOpen => RTryFlock
    case RTryFlock => RCleanup
    case RCleanup => RUnlockExclusive
    case RUnlockExclusive => RUnlink
    case RUnlink => RRemoveDir
    case RRemoveDir => RUnlockDir
    case RUnlockDir => RUnlockRoot
    case RUnlockRoot => RDone
    case RFailRoot => RFailRead
    case RFailRead => RDone
    case _ => pc
  }

  function OnFailure(pc: PC): PC {
    match pc
    case AMakeRoot | AOpenRoot | AFlockRoot => AFailed
    case AMakeDir | AOpenDir | AFlockDir => AFailRoot
    case ATouch | AOpenLock | AFlockLock => AFailDir
    case AFactory => AFailRead
    case ROpenRoot | RFlockRoot => RFailRead
    case ROpenDir | RFlockDir => RFailRoot
    case RTryOpen | RTryFlock | RUnlink => RUnlockDir
    case _ => Onward(pc)
  }

  lemma AcquireMoves(s: State, t: nat, c: Call, ok: bool, late: bool)
    requires IsAcquire(c.pc)
    ensures var pc := StepAcquire(s, t, c, ok, late).call.pc; (ok && pc == Onward(c.pc)) || pc == OnFailure(c.pc)
  {
    match c.pc
    case AMakeRoot => case AOpenRoot => case AFlockRoot => case AMakeDir => case AOpenDir => case AFlockDir =>
    case AUnlockRoot => case ATouch => case AOpenLock => case AFlockLock => case AFactory => case AUnlockDir =>
    case AFailRoot => case AFailRead => case AFailDir => case _ =>
  }

  lemma ReleaseMoves(s: State, t: nat, c: Call, ok: bool)
    requires !IsAcquire(c.pc)
    ensures var pc := StepRelease(s, t, c, ok).call.pc; (ok && pc == Onward(c.pc)) || pc == OnFailure(c.pc)
  {
    match c.pc
    case ROpenRoot => case RFlockRoot => case ROpenDir => case RFlockDir => case RUnlockRead => case RTryOpen =>
    case RTryFlock => case RCleanup => case RUnlockExclusive => case RUnlink => case RRemoveDir => case RUnlockDir =>
    case RUnlockRoot => case RFailRoot => case RFailRead => case _ =>
  }

  // ---------- Runs ----------

  ghost predicate ValidRun(s: State, run: seq<Event>)
    decreases |run|
  {
    run == [] || (Enabled(s, run[0]) && ValidRun(Apply(s, run[0]), run[1..]))
  }

  ghost function After(s: State, run: seq<Event>): State
    requires ValidRun(s, run)
    decreases |run|
  {
    if run == [] then s else After(Apply(s, run[0]), run[1..])
  }
}
