/** What every reachable state of the Locker satisfies. */
module LockerInvariant {
  import opened LockTable
  import opened Locker

  /** Between opening the directory and unlocking it (or, for the last holder, removing it),
      the call's directory inode is the one at the path. */
  predicate KnowsDir(pc: PC) {
    pc.AFlockDir? || pc.RFlockDir? || (HoldsDir(pc) && !pc.RUnlockDir?)
  }

  /** The call's lock-file inode is the one in its directory. */
  predicate KnowsFile(pc: PC) {
    || pc.AFlockLock? || pc.AFactory? || pc.AUnlockDir? || pc.AFailRead? || pc.RTryFlock? || pc.RCleanup?
    || pc.RUnlockExclusive? || pc.RUnlink?
  }

  predicate MustHoldRead(pc: PC) { pc.AFactory? || pc.AUnlockDir? || pc.AFailRead? }

  /** The last holder, from the moment its try-lock succeeded until the directory is gone. */
  predicate Alone(pc: PC) { pc.RCleanup? || pc.RUnlockExclusive? || pc.RUnlink? || pc.RRemoveDir? }

  ghost predicate Reads(s: State, t: nat) { File(t, ReadSlot) in s.table }

  /** The table lists a file of a call exactly when the code of that call believes it holds that lock. */
  ghost predicate Owns(s: State, t: nat)
    requires t < |s.calls|
  {
    var c := s.calls[t];
    && (File(t, GlobalSlot) in s.table <==> HoldsRoot(c.pc))
    && (HoldsRoot(c.pc) ==> s.table[File(t, GlobalSlot)] == Lock(Root, true))
    && (File(t, DirectorySlot) in s.table <==> HoldsDir(c.pc))
    && (HoldsDir(c.pc) ==> s.table[File(t, DirectorySlot)] == Lock(Directory(c.dir), true))
    && (File(t, ExclusiveSlot) in s.table <==> HoldsExclusive(c.pc))
    && (HoldsExclusive(c.pc) ==> s.table[File(t, ExclusiveSlot)] == Lock(LockFile(c.file), true))
    && (MustHoldRead(c.pc) ==> Reads(s, t))
    && (Reads(s, t) ==> MustHoldRead(c.pc) || c.pc.AHeld?)
    && (Reads(s, t) ==> s.table[File(t, ReadSlot)] == Lock(LockFile(c.file), false))
  }

  /** The call finds at the path the very directory inode and lock-file inode it has opened. */
  ghost predicate AtPath(s: State, t: nat)
    requires t < |s.calls|
  {
    var c := s.calls[t];
    && c.key in s.dirs && s.dirs[c.key] == c.dir
    && c.dir in s.lockFiles && s.lockFiles[c.dir] == c.file
  }

  ghost predicate Placed(s: State, t: nat)
    requires t < |s.calls|
  {
    var c := s.calls[t];
    && (KnowsDir(c.pc) ==> c.key in s.dirs && s.dirs[c.key] == c.dir)
    && (KnowsFile(c.pc) ==> c.dir in s.lockFiles && s.lockFiles[c.dir] == c.file)
    && (c.pc.AOpenDir? ==> c.key in s.dirs)
    && (c.pc.AOpenLock? ==> c.dir in s.lockFiles)
    && (c.pc.RRemoveDir? ==> c.dir !in s.lockFiles)
    && (Reads(s, t) ==> AtPath(s, t))
    && (Alone(c.pc) ==> forall u | 0 <= u < |s.calls| :: Reads(s, u) ==> s.calls[u].key != c.key)
  }

  /** An Acquire call is its own handle; a release call belongs to an Acquire call of the same process and key. */
  ghost predicate Handled(s: State, t: nat)
    requires t < |s.calls|
  {
    var c := s.calls[t];
    && (IsAcquire(c.pc) ==> c.handle == t)
    && (c.handle != t ==>
          && c.handle < t
          && s.calls[c.handle].handle == c.handle
          && s.calls[c.handle].process == c.process
          && s.calls[c.handle].key == c.key
          && (s.calls[c.handle].pc.AHeld? || s.calls[c.handle].pc.Dead?))
    && (!IsAcquire(c.pc) && !c.pc.Dead? ==> c.handle != t)
  }

  /** Names in the file system are distinct inodes, all of them already used. */
  ghost predicate FileSystem(s: State) {
    && (forall k | k in s.dirs :: s.dirs[k] < s.next)
    && (forall d | d in s.lockFiles :: d < s.next && s.lockFiles[d] < s.next)
    && (forall k, l | k in s.dirs && l in s.dirs && k != l :: s.dirs[k] != s.dirs[l])
    && (forall d, e | d in s.lockFiles && e in s.lockFiles && d != e :: s.lockFiles[d] != s.lockFiles[e])
  }

  ghost predicate Inv(s: State) {
    && Consistent(s.table)
    && FileSystem(s)
    && (forall f | f in s.table :: f.owner < |s.calls|)
    && (forall t | 0 <= t < |s.calls| :: Owns(s, t) && Placed(s, t) && Handled(s, t))
  }

  // ---------- Exclusion ----------

  /** The call has locked the entry's directory and has not removed it. */
  predicate AtWork(s: State, t: nat)
    requires t < |s.calls|
  {
    HoldsDir(s.calls[t].pc) && KnowsDir(s.calls[t].pc)
  }

  /** The call knows the inode that now lies at the path of its entry. */
  ghost predicate Attached(s: State, t: nat)
    requires t < |s.calls|
  {
    KnowsDir(s.calls[t].pc) || Reads(s, t)
  }

  /** A directory lock on an entry's current directory shuts out every other call that is at work on that entry. */
  lemma OneInside(s: State, t: nat, u: nat)
    requires Inv(s) && t < |s.calls| && u < |s.calls|
    ensures AtWork(s, t) && AtWork(s, u) && s.calls[t].key == s.calls[u].key ==> t == u
  {
    assert Owns(s, t) && Owns(s, u) && Placed(s, t) && Placed(s, u);
    var f, g := File(t, DirectorySlot), File(u, DirectorySlot);
    assert f in s.table && g in s.table && s.table[f].inode == s.table[g].inode && s.table[f].exclusive ==> f == g;
  }

  /** At most one call holds the global lock. */
  lemma OneGlobal(s: State, t: nat, u: nat)
    requires Inv(s) && t < |s.calls| && u < |s.calls|
    ensures HoldsRoot(s.calls[t].pc) && HoldsRoot(s.calls[u].pc) ==> t == u
  {
    assert Owns(s, t) && Owns(s, u);
    var f, g := File(t, GlobalSlot), File(u, GlobalSlot);
    assert f in s.table && g in s.table && s.table[f].inode == s.table[g].inode && s.table[f].exclusive ==> f == g;
  }

  lemma SameDirSameKey(s: State, t: nat, u: nat)
    requires Inv(s) && t < |s.calls| && u < |s.calls|
    ensures Attached(s, t) && Attached(s, u) && s.calls[t].dir == s.calls[u].dir ==> s.calls[t].key == s.calls[u].key
  {
    assert Placed(s, t) && Placed(s, u);
  }

  /** While the last holder removes an entry, no other call knows a name in it. */
  lemma NobodyElse(s: State, t: nat, u: nat)
    requires Inv(s) && t < |s.calls| && u < |s.calls|
    requires Alone(s.calls[t].pc) && s.calls[t].key == s.calls[u].key
    ensures Attached(s, u) ==> t == u
  {
    assert Placed(s, t);
    OneInside(s, t, u);
    OneGlobal(s, t, u);
  }

  // ---------- What a step leaves alone ----------

  ghost predicate SameFiles(s: State, s': State, u: nat) {
    forall slot: Slot ::
      && (File(u, slot) in s.table <==> File(u, slot) in s'.table)
      && (File(u, slot) in s.table ==> s.table[File(u, slot)] == s'.table[File(u, slot)])
  }

  /** The names that call u has opened are still where they were. */
  ghost predicate SameNames(s: State, s': State, u: nat)
    requires u < |s.calls|
  {
    var c := s.calls[u];
    && (c.key in s.dirs && s.dirs[c.key] == c.dir ==> c.key in s'.dirs && s'.dirs[c.key] == c.dir)
    && (c.dir in s.lockFiles ==> c.dir in s'.lockFiles && s'.lockFiles[c.dir] == s.lockFiles[c.dir])
  }

  lemma OwnsFrame(s: State, s': State, u: nat)
    requires u < |s.calls| && u < |s'.calls| && s.calls[u] == s'.calls[u] && SameFiles(s, s', u)
    requires Owns(s, u)
    ensures Owns(s', u)
  {
    assert forall slot: Slot :: File(u, slot) in s.table <==> File(u, slot) in s'.table;
  }

  lemma PlacedFrame(s: State, s': State, u: nat)
    requires u < |s.calls| && u < |s'.calls| && s.calls[u] == s'.calls[u]
    requires Placed(s, u)
    requires Reads(s', u) ==> Reads(s, u)
    requires KnowsDir(s.calls[u].pc) || Reads(s', u) ==> SameNames(s, s', u)
    requires s.calls[u].pc.AOpenDir? ==> s.calls[u].key in s'.dirs
    requires s.calls[u].pc.RRemoveDir? ==> s.calls[u].dir !in s'.lockFiles
    requires Alone(s.calls[u].pc) ==>
               forall v | 0 <= v < |s'.calls| :: Reads(s', v) ==> s'.calls[v].key != s.calls[u].key
    ensures Placed(s', u)
  {
  }

  function With(s: State, t: nat, c: Call): State
    requires t < |s.calls|
  {
    Commit(s, t, Move(s, c))
  }

  function Take(s: State, t: nat, slot: Slot, lock: Lock, pc: PC): State
    requires t < |s.calls|
  {
    Commit(s, t, Taking(s, File(t, slot), lock, s.calls[t].(pc := pc)))
  }

  function Drop(s: State, t: nat, f: File, pc: PC): State
    requires t < |s.calls|
  {
    Commit(s, t, Dropping(s, f, s.calls[t].(pc := pc)))
  }

  /** The call c may stand at index t of s after a step of the call that stood there. */
  ghost predicate Follows(s: State, t: nat, c: Call)
    requires t < |s.calls|
  {
    var b := s.calls[t];
    && !Finished(b.pc) && !c.pc.Dead? && IsAcquire(b.pc) == IsAcquire(c.pc)
    && c.key == b.key && c.process == b.process && c.handle == b.handle
  }

  lemma HandlesStay(s: State, s': State, t: nat)
    requires forall u | 0 <= u < |s.calls| :: Handled(s, u)
    requires t < |s.calls| && |s'.calls| == |s.calls| && s'.calls == s.calls[t := s'.calls[t]]
    requires Follows(s, t, s'.calls[t])
    ensures forall u | 0 <= u < |s.calls| :: Handled(s', u)
  {
    forall u | 0 <= u < |s.calls| ensures Handled(s', u) {
      assert Handled(s, u) && Handled(s, t);
    }
  }

  /** A step of call t that only changes what belongs to t: it may take locks for t and give up locks of t
      or of the Acquire call whose release function it runs. */
  ghost predicate Local(s: State, s': State, t: nat) {
    && t < |s.calls| && |s'.calls| == |s.calls| && s'.calls == s.calls[t := s'.calls[t]]
    && Follows(s, t, s'.calls[t])
    && s'.dirs == s.dirs && s'.lockFiles == s.lockFiles && s'.next == s.next
    && (forall f | f in s'.table :: f.owner < |s.calls|)
    && Consistent(s'.table)
    && (forall u | 0 <= u < |s.calls| && u != t && u != s.calls[t].handle :: SameFiles(s, s', u))
  }

  lemma LocalKeepsInv(s: State, s': State, t: nat)
    requires Inv(s) && Local(s, s', t)
    requires Owns(s', t) && Placed(s', t)
    requires var h := s.calls[t].handle; h != t ==> h < |s.calls| && Owns(s', h) && (Reads(s', h) ==> Reads(s, h))
    requires Reads(s', t) && !Reads(s, t) ==> AtWork(s, t)
    ensures Inv(s')
  {
    HandlesStay(s, s', t);
    assert Handled(s, t);
    forall u | 0 <= u < |s.calls| ensures Owns(s', u) && Placed(s', u) {
      if u != t {
        if u != s.calls[t].handle {
          assert SameFiles(s, s', u);
          OwnsFrame(s, s', u);
          assert Reads(s', u) == Reads(s, u);
        }
        assert Placed(s, u);
        LocalOthers(s, s', t, u);
        PlacedFrame(s, s', u);
      }
    }
  }

  /** A new reader does not appear on an entry whose last holder is at work. */
  lemma LocalOthers(s: State, s': State, t: nat, u: nat)
    requires Inv(s) && Local(s, s', t) && u < |s.calls| && u != t
    requires var h := s.calls[t].handle; h != t ==> (Reads(s', h) ==> Reads(s, h))
    requires Reads(s', t) && !Reads(s, t) ==> AtWork(s, t)
    ensures Alone(s.calls[u].pc) ==>
              forall v | 0 <= v < |s'.calls| :: Reads(s', v) ==> s'.calls[v].key != s.calls[u].key
  {
    assert Placed(s, u);
    OneInside(s, t, u);
    forall v | 0 <= v < |s'.calls| && Reads(s', v) && v != t ensures Reads(s, v) {
      if v != s.calls[t].handle { assert SameFiles(s, s', v); }
    }
  }

  // ---------- One kind of step at a time ----------

  /** The call only moves on, perhaps noting an inode it has opened. */
  lemma MoveKeepsInv(s: State, t: nat, c: Call)
    requires Inv(s) && t < |s.calls| && Follows(s, t, c)
    requires Owns(With(s, t, c), t) && Placed(With(s, t, c), t)
    ensures Inv(With(s, t, c))
  {
    var s' := With(s, t, c);
    var h := s.calls[t].handle;
    assert Handled(s, t);
    if h != t { assert Owns(s, h); OwnsFrame(s, s', h); }
    LocalKeepsInv(s, s', t);
  }

  lemma TakeIsLocal(s: State, t: nat, slot: Slot, lock: Lock, pc: PC)
    requires t < |s.calls| && Follows(s, t, s.calls[t].(pc := pc))
    requires Consistent(s.table) && (forall f | f in s.table :: f.owner < |s.calls|)
    requires File(t, slot) !in s.table && Grantable(s.table, lock)
    ensures Local(s, Take(s, t, slot, lock, pc), t)
    ensures forall u | u != t :: SameFiles(s, Take(s, t, slot, lock, pc), u)
  {
    GrantKeepsConsistent(s.table, File(t, slot), lock);
  }

  lemma TakeKeepsInv(s: State, t: nat, slot: Slot, lock: Lock, pc: PC)
    requires Inv(s) && t < |s.calls| && Follows(s, t, s.calls[t].(pc := pc))
    requires File(t, slot) !in s.table && Grantable(s.table, lock)
    requires Owns(Take(s, t, slot, lock, pc), t) && Placed(Take(s, t, slot, lock, pc), t)
    requires slot.ReadSlot? ==> AtWork(s, t)
    ensures Inv(Take(s, t, slot, lock, pc))
  {
    var s' := Take(s, t, slot, lock, pc);
    TakeIsLocal(s, t, slot, lock, pc);
    var h := s.calls[t].handle;
    assert Handled(s, t);
    if h != t {
      assert SameFiles(s, s', h);
      assert Owns(s, h);
      OwnsFrame(s, s', h);
    }
    LocalKeepsInv(s, s', t);
  }

  lemma DropIsLocal(s: State, t: nat, f: File, pc: PC)
    requires t < |s.calls| && Follows(s, t, s.calls[t].(pc := pc))
    requires Consistent(s.table) && (forall f | f in s.table :: f.owner < |s.calls|)
    requires f.owner == t || f.owner == s.calls[t].handle
    ensures Local(s, Drop(s, t, f, pc), t)
  {
  }

  /** The Acquire call whose release function runs loses its read lock, and nothing else. */
  lemma HandleLosesRead(s: State, t: nat, f: File, pc: PC)
    requires t < |s.calls| && s.calls[t].handle < |s.calls| && s.calls[t].handle != t
    requires f.owner == t || f == File(s.calls[t].handle, ReadSlot)
    requires Owns(s, s.calls[t].handle)
    requires var h := s.calls[t].handle; !MustHoldRead(s.calls[h].pc)
    ensures Owns(Drop(s, t, f, pc), s.calls[t].handle)
  {
  }

  lemma DropKeepsInv(s: State, t: nat, f: File, pc: PC)
    requires Inv(s) && t < |s.calls| && Follows(s, t, s.calls[t].(pc := pc))
    requires f.owner == t || f == File(s.calls[t].handle, ReadSlot)
    requires Owns(Drop(s, t, f, pc), t) && Placed(Drop(s, t, f, pc), t)
    ensures Inv(Drop(s, t, f, pc))
  {
    DropIsLocal(s, t, f, pc);
    var h := s.calls[t].handle;
    assert Handled(s, t);
    if h != t {
      assert Owns(s, h);
      HandleLosesRead(s, t, f, pc);
    }
    LocalKeepsInv(s, Drop(s, t, f, pc), t);
  }

  ghost predicate Fits(s: State, s': State, t: nat)
    requires t < |s.calls| && t < |s'.calls|
  {
    Follows(s, t, s'.calls[t]) && Owns(s', t) && Placed(s', t)
  }

  lemma MakeDirFits(s: State, t: nat)
    requires t < |s.calls| && s.calls[t].pc.AMakeDir? && s.calls[t].key !in s.dirs && Owns(s, t) && Placed(s, t)
    ensures Fits(s, Commit(s, t, EffectOf(s, t, Succeeds)), t)
  {
  }

  lemma TouchFits(s: State, t: nat, o: Outcome)
    requires t < |s.calls| && s.calls[t].pc.ATouch? && !o.Fails? && Owns(s, t) && Placed(s, t)
    ensures Fits(s, Commit(s, t, EffectOf(s, t, o)), t)
  {
  }

  lemma UnlinkFits(s: State, t: nat)
    requires t < |s.calls| && s.calls[t].pc.RUnlink? && Owns(s, t) && Placed(s, t)
    ensures Fits(s, Commit(s, t, EffectOf(s, t, Succeeds)), t)
  {
  }

  lemma RemoveDirFits(s: State, t: nat)
    requires t < |s.calls| && s.calls[t].pc.RRemoveDir? && Owns(s, t) && Placed(s, t)
    ensures Fits(s, Commit(s, t, EffectOf(s, t, Succeeds)), t)
  {
  }

  /** A new directory appears at the path of an entry that had none. */
  lemma MakeDirKeepsInv(s: State, t: nat)
    requires Inv(s) && t < |s.calls| && s.calls[t].pc.AMakeDir? && s.calls[t].key !in s.dirs
    ensures Inv(Commit(s, t, EffectOf(s, t, Succeeds)))
  {
    var s' := Commit(s, t, EffectOf(s, t, Succeeds));
    assert Owns(s, t) && Placed(s, t);
    MakeDirFits(s, t);
    HandlesStay(s, s', t);
    forall u | 0 <= u < |s.calls| ensures Owns(s', u) && Placed(s', u) {
      assert Owns(s, u) && Placed(s, u);
      if u != t {
        OwnsFrame(s, s', u);
        PlacedFrame(s, s', u);
      }
    }
  }

  /** A lock file appears in a directory that had none. */
  lemma TouchKeepsInv(s: State, t: nat, o: Outcome)
    requires Inv(s) && t < |s.calls| && !o.Fails? && s.calls[t].pc.ATouch? && s.calls[t].dir !in s.lockFiles
    ensures Inv(Commit(s, t, EffectOf(s, t, o)))
  {
    var s' := Commit(s, t, EffectOf(s, t, o));
    assert Owns(s, t) && Placed(s, t);
    TouchFits(s, t, o);
    HandlesStay(s, s', t);
    hide Owns;
    forall u | 0 <= u < |s.calls| ensures Owns(s', u) && Placed(s', u) {
      assert Owns(s, u) && Placed(s, u);
      if u != t { TouchOther(s, t, o, u); }
    }
  }

  lemma TouchOther(s: State, t: nat, o: Outcome, u: nat)
    requires Inv(s) && t < |s.calls| && u < |s.calls| && t != u
    requires Owns(s, t) && Placed(s, t) && Owns(s, u) && Placed(s, u)
    requires !o.Fails? && s.calls[t].pc.ATouch? && s.calls[t].dir !in s.lockFiles
    ensures var s' := Commit(s, t, EffectOf(s, t, o)); Owns(s', u) && Placed(s', u)
  {
    hide Inv;
    var s' := Commit(s, t, EffectOf(s, t, o));
    SameDirSameKey(s, t, u);
    OneInside(s, t, u);
    OwnsFrame(s, s', u);
    PlacedFrame(s, s', u);
  }

  lemma UnlinkKeepsInv(s: State, t: nat)
    requires Inv(s) && t < |s.calls| && s.calls[t].pc.RUnlink?
    ensures Inv(Commit(s, t, EffectOf(s, t, Succeeds)))
  {
    var s' := Commit(s, t, EffectOf(s, t, Succeeds));
    assert Owns(s, t) && Placed(s, t);
    UnlinkFits(s, t);
    HandlesStay(s, s', t);
    hide Owns;
    forall u | 0 <= u < |s.calls| ensures Owns(s', u) && Placed(s', u) {
      assert Owns(s, u) && Placed(s, u);
      if u != t { UnlinkOther(s, t, u); }
    }
  }

  lemma UnlinkOther(s: State, t: nat, u: nat)
    requires Inv(s) && t < |s.calls| && u < |s.calls| && t != u && s.calls[t].pc.RUnlink?
    requires Placed(s, t) && Owns(s, u) && Placed(s, u)
    ensures var s' := Commit(s, t, EffectOf(s, t, Succeeds)); Owns(s', u) && Placed(s', u)
  {
    hide Inv;
    var s' := Commit(s, t, EffectOf(s, t, Succeeds));
    SameDirSameKey(s, t, u);
    if s.calls[u].key == s.calls[t].key { NobodyElse(s, t, u); }
    OwnsFrame(s, s', u);
    PlacedFrame(s, s', u);
  }

  lemma RemoveDirKeepsInv(s: State, t: nat)
    requires Inv(s) && t < |s.calls| && s.calls[t].pc.RRemoveDir?
    ensures Inv(Commit(s, t, EffectOf(s, t, Succeeds)))
  {
    var s' := Commit(s, t, EffectOf(s, t, Succeeds));
    assert Owns(s, t) && Placed(s, t);
    RemoveDirFits(s, t);
    HandlesStay(s, s', t);
    hide Owns;
    forall u | 0 <= u < |s.calls| ensures Owns(s', u) && Placed(s', u) {
      assert Owns(s, u) && Placed(s, u);
      if u != t { RemoveDirOther(s, t, u); }
    }
  }

  lemma RemoveDirOther(s: State, t: nat, u: nat)
    requires Inv(s) && t < |s.calls| && u < |s.calls| && t != u && s.calls[t].pc.RRemoveDir?
    requires Placed(s, t) && Owns(s, u) && Placed(s, u)
    ensures var s' := Commit(s, t, EffectOf(s, t, Succeeds)); Owns(s', u) && Placed(s', u)
  {
    hide Inv;
    var s' := Commit(s, t, EffectOf(s, t, Succeeds));
    if s.calls[u].key == s.calls[t].key { NobodyElse(s, t, u); }
    OneGlobal(s, t, u);
    OwnsFrame(s, s', u);
    PlacedFrame(s, s', u);
  }

  lemma CrashFits(s: State, p: nat, u: nat)
    requires u < |s.calls| && Owns(s, u) && Placed(s, u)
    ensures Owns(Kill(s, p), u) && Placed(Kill(s, p), u)
  {
    CrashOwns(s, p, u);
    CrashPlaced(s, p, u);
  }

  lemma CrashOwns(s: State, p: nat, u: nat)
    requires u < |s.calls| && Owns(s, u)
    ensures Owns(Kill(s, p), u)
  {
    if s.calls[u].process != p { assert SameFiles(s, Kill(s, p), u); }
  }

  lemma CrashPlaced(s: State, p: nat, u: nat)
    requires u < |s.calls| && Placed(s, u)
    ensures Placed(Kill(s, p), u)
  {
  }

  lemma CrashKeepsInv(s: State, p: nat)
    requires Inv(s)
    ensures Inv(Kill(s, p))
  {
    var s' := Kill(s, p);
    forall u | 0 <= u < |s.calls| ensures Owns(s', u) && Placed(s', u) && Handled(s', u) {
      assert Owns(s, u) && Placed(s, u) && Handled(s, u);
      CrashFits(s, p, u);
    }
  }

  lemma CallKeepsInv(s: State, c: Call)
    requires Inv(s) && (c.pc.AMakeRoot? || c.pc.ROpenRoot?)
    requires c.pc.AMakeRoot? ==> c.handle == |s.calls|
    requires c.pc.ROpenRoot? ==>
               c.handle < |s.calls|
               && var h := s.calls[c.handle]; h.pc.AHeld? && h.process == c.process && h.key == c.key
    ensures Inv(s.(calls := s.calls + [c]))
  {
    var s' := s.(calls := s.calls + [c]);
    forall u | 0 <= u < |s'.calls| ensures Owns(s', u) && Placed(s', u) && Handled(s', u) {
      if u < |s.calls| {
        assert Owns(s, u) && Placed(s, u) && Handled(s, u);
        OldCallStays(s, c, u);
      } else {
        if c.pc.ROpenRoot? { assert Handled(s, c.handle); }
        NewCallFits(s, c);
      }
    }
    hide Owns, Placed, Handled;
  }

  lemma OldCallStays(s: State, c: Call, u: nat)
    requires u < |s.calls| && Owns(s, u) && Placed(s, u) && Handled(s, u) && File(|s.calls|, ReadSlot) !in s.table
    ensures var s' := s.(calls := s.calls + [c]); Owns(s', u) && Placed(s', u) && Handled(s', u)
  {
    var s' := s.(calls := s.calls + [c]);
    OwnsFrame(s, s', u);
    PlacedFrame(s, s', u);
  }

  lemma NewCallFits(s: State, c: Call)
    requires forall f | f in s.table :: f.owner < |s.calls|
    requires c.pc.AMakeRoot? || c.pc.ROpenRoot?
    requires c.pc.AMakeRoot? ==> c.handle == |s.calls|
    requires c.pc.ROpenRoot? ==>
               c.handle < |s.calls| && Handled(s, c.handle)
               && var h := s.calls[c.handle]; h.pc.AHeld? && h.process == c.process && h.key == c.key
    ensures var s' := s.(calls := s.calls + [c]); var t := |s.calls|; Owns(s', t) && Placed(s', t) && Handled(s', t)
  {
  }

  // ---------- Every step ----------

  /** Which slot a blocking flock fills, and where the call stands once it is granted. */
  function GrantedSlot(pc: PC): Slot {
    if pc.AFlockRoot? || pc.RFlockRoot? then GlobalSlot
    else if pc.AFlockLock? then ReadSlot
    else DirectorySlot
  }

  function GrantedPC(pc: PC): PC {
    match pc
    case AFlockRoot => AMakeDir
    case RFlockRoot => ROpenDir
    case AFlockDir => AUnlockRoot
    case RFlockDir => RUnlockRead
    case _ => AFactory
  }

  lemma GrantFits(s: State, t: nat)
    requires CanStep(s, t, Succeeds) && Wanted(s.calls[t]) != [] && Owns(s, t) && Placed(s, t)
    ensures var c := s.calls[t];
            var s' := Take(s, t, GrantedSlot(c.pc), Wanted(c)[0], GrantedPC(c.pc));
            && Apply(s, Step(t, Succeeds)) == s'
            && Follows(s, t, c.(pc := GrantedPC(c.pc)))
            && File(t, GrantedSlot(c.pc)) !in s.table && Grantable(s.table, Wanted(c)[0])
            && Owns(s', t) && Placed(s', t)
            && (GrantedSlot(c.pc).ReadSlot? ==> AtWork(s, t))
  {
    assert Wanted(s.calls[t])[0] in Wanted(s.calls[t]);
  }

  /** A flock that the call waited for is granted. */
  lemma GrantKeepsInv(s: State, t: nat)
    requires Inv(s) && CanStep(s, t, Succeeds) && Wanted(s.calls[t]) != []
    ensures Inv(Apply(s, Step(t, Succeeds)))
  {
    var c := s.calls[t];
    GrantFits(s, t);
    TakeKeepsInv(s, t, GrantedSlot(c.pc), Wanted(c)[0], GrantedPC(c.pc));
  }

  predicate Unlocks(pc: PC) {
    || pc.AUnlockRoot? || pc.AUnlockDir? || pc.AFailRoot? || pc.AFailRead? || pc.AFailDir?
    || pc.RUnlockRead? || pc.RUnlockExclusive? || pc.RUnlockDir? || pc.RUnlockRoot? || pc.RFailRoot?
    || pc.RFailRead?
  }

  /** What an unlocking step closes, and where the call stands afterwards. */
  function Unlocked(c: Call, t: nat): (File, PC) {
    match c.pc
    case AUnlockRoot => (File(t, GlobalSlot), ATouch)
    case AUnlockDir => (File(t, DirectorySlot), AHeld)
    case AFailRoot => (File(t, GlobalSlot), AFailed)
    case AFailRead => (File(t, ReadSlot), AFailDir)
    case AFailDir => (File(t, DirectorySlot), AFailed)
    case RUnlockRead => (File(c.handle, ReadSlot), RTryOpen)
    case RUnlockExclusive => (File(t, ExclusiveSlot), RUnlink)
    case RUnlockDir => (File(t, DirectorySlot), RUnlockRoot)
    case RUnlockRoot => (File(t, GlobalSlot), RDone)
    case RFailRoot => (File(t, GlobalSlot), RFailRead)
    case _ => (File(c.handle, ReadSlot), RDone)
  }

  /** What an unlocking step leaves. */
  function AfterUnlock(s: State, t: nat): State
    requires t < |s.calls|
  {
    Drop(s, t, Unlocked(s.calls[t], t).0, Unlocked(s.calls[t], t).1)
  }

  lemma AcquireUnlocks(s: State, t: nat, c: Call)
    requires Unlocks(c.pc) && IsAcquire(c.pc)
    ensures StepAcquire(s, t, c, true, false) == Dropping(s, Unlocked(c, t).0, At(c, Unlocked(c, t).1))
    ensures IsAcquire(Unlocked(c, t).1) && Unlocked(c, t).0.owner == t
  {
    match c.pc
    case AUnlockRoot => case AUnlockDir => case AFailRoot => case AFailRead => case AFailDir =>
  }

  lemma ReleaseUnlocks(s: State, t: nat, c: Call)
    requires Unlocks(c.pc) && !IsAcquire(c.pc)
    ensures StepRelease(s, t, c, true) == Dropping(s, Unlocked(c, t).0, At(c, Unlocked(c, t).1))
    ensures !IsAcquire(Unlocked(c, t).1) && !Unlocked(c, t).1.Dead?
    ensures Unlocked(c, t).0.owner == t || Unlocked(c, t).0 == File(c.handle, ReadSlot)
  {
    match c.pc
    case RUnlockRead => case RUnlockExclusive => case RUnlockDir => case RUnlockRoot => case RFailRoot =>
    case RFailRead =>
  }

  lemma UnlockEffect(s: State, t: nat)
    requires CanStep(s, t, Succeeds) && Unlocks(s.calls[t].pc)
    ensures Apply(s, Step(t, Succeeds)) == AfterUnlock(s, t)
    ensures Follows(s, t, s.calls[t].(pc := Unlocked(s.calls[t], t).1))
    ensures var f := Unlocked(s.calls[t], t).0; f.owner == t || f == File(s.calls[t].handle, ReadSlot)
  {
    hide StepAcquire, StepRelease, Unlocks, Unlocked;
    if IsAcquire(s.calls[t].pc) { AcquireUnlocks(s, t, s.calls[t]); } else { ReleaseUnlocks(s, t, s.calls[t]); }
  }

  lemma AcquireUnlockOwns(s: State, t: nat)
    requires t < |s.calls| && Unlocks(s.calls[t].pc) && IsAcquire(s.calls[t].pc) && Owns(s, t)
    ensures Owns(AfterUnlock(s, t), t)
  {
    match s.calls[t].pc
    case AUnlockRoot => case AUnlockDir => case AFailRoot => case AFailRead => case AFailDir =>
  }

  lemma ReleaseUnlockOwns(s: State, t: nat)
    requires t < |s.calls| && Unlocks(s.calls[t].pc) && !IsAcquire(s.calls[t].pc) && Owns(s, t) && Handled(s, t)
    ensures Owns(AfterUnlock(s, t), t)
  {
    assert !Reads(s, t) && s.calls[t].handle != t;
    hide Handled;
    match s.calls[t].pc
    case RUnlockRead => case RUnlockExclusive => case RUnlockDir => case RUnlockRoot => case RFailRoot =>
    case RFailRead =>
  }

  lemma UnlockPlaced(s: State, t: nat)
    requires t < |s.calls| && Unlocks(s.calls[t].pc) && Placed(s, t)
    ensures Placed(AfterUnlock(s, t), t)
  {
    match s.calls[t].pc
    case AUnlockRoot => case AUnlockDir => case AFailRoot => case AFailRead => case AFailDir =>
    case RUnlockRead => case RUnlockExclusive => case RUnlockDir => case RUnlockRoot => case RFailRoot =>
    case RFailRead =>
  }

  lemma UnlockKeepsInv(s: State, t: nat)
    requires Inv(s) && CanStep(s, t, Succeeds) && Unlocks(s.calls[t].pc)
    ensures Inv(Apply(s, Step(t, Succeeds)))
  {
    assert Owns(s, t) && Placed(s, t) && Handled(s, t);
    hide Inv, Unlocks, Unlocked;
    UnlockEffect(s, t);
    if IsAcquire(s.calls[t].pc) { AcquireUnlockOwns(s, t); } else { ReleaseUnlockOwns(s, t); }
    UnlockPlaced(s, t);
    DropKeepsInv(s, t, Unlocked(s.calls[t], t).0, Unlocked(s.calls[t], t).1);
  }

  /** A step that changes neither the lock table nor the file system. */
  ghost predicate OnlyMoves(s: State, s': State, t: nat) {
    t < |s.calls| && t < |s'.calls| && s' == With(s, t, s'.calls[t])
  }

  /** A step that neither takes nor gives up a lock and does not touch the file system. */
  ghost predicate PlainMove(s: State, t: nat, o: Outcome) {
    && CanStep(s, t, o)
    && OnlyMoves(s, Apply(s, Step(t, o)), t)
    && !Unlocks(s.calls[t].pc)
    && (Wanted(s.calls[t]) == [] || o.Fails?)
    && (s.calls[t].pc.RRemoveDir? ==> o.Fails?)
  }

  /** Moving from b to c changes none of the locks the call should hold. */
  predicate SameLocks(b: Call, c: Call) {
    && HoldsRoot(b.pc) == HoldsRoot(c.pc)
    && HoldsDir(b.pc) == HoldsDir(c.pc)
    && HoldsExclusive(b.pc) == HoldsExclusive(c.pc)
    && MustHoldRead(b.pc) == MustHoldRead(c.pc)
    && b.pc.AHeld? == c.pc.AHeld?
    && (HoldsDir(b.pc) ==> b.dir == c.dir)
    && (HoldsExclusive(b.pc) || MustHoldRead(b.pc) ==> b.file == c.file)
  }

  lemma MoveOwns(s: State, t: nat, c: Call)
    requires t < |s.calls| && Owns(s, t) && SameLocks(s.calls[t], c) && !s.calls[t].pc.AHeld?
    ensures Owns(With(s, t, c), t)
  {
  }

  /** Where a call stands does not change what it should hold. */
  predicate SamePoint(p: PC, q: PC) {
    && HoldsRoot(p) == HoldsRoot(q) && HoldsDir(p) == HoldsDir(q) && HoldsExclusive(p) == HoldsExclusive(q)
    && MustHoldRead(p) == MustHoldRead(q) && p.AHeld? == q.AHeld?
  }

  lemma AcquirePoints(pc: PC)
    requires IsAcquire(pc) && !Finished(pc) && !Unlocks(pc)
    ensures SamePoint(pc, OnFailure(pc))
    ensures pc.AFlockRoot? || pc.AFlockDir? || pc.AFlockLock? || SamePoint(pc, Onward(pc))
  {
    match pc
    case AMakeRoot => case AOpenRoot => case AFlockRoot => case AMakeDir => case AOpenDir => case AFlockDir =>
    case ATouch => case AOpenLock => case AFlockLock => case AFactory =>
  }

  lemma ReleasePoints(pc: PC)
    requires !IsAcquire(pc) && !Finished(pc) && !Unlocks(pc)
    ensures SamePoint(pc, OnFailure(pc))
    ensures pc.RFlockRoot? || pc.RFlockDir? || pc.RTryFlock? || SamePoint(pc, Onward(pc))
  {
    match pc
    case ROpenRoot => case RFlockRoot => case ROpenDir => case RFlockDir => case RTryOpen => case RTryFlock =>
    case RCleanup => case RUnlink => case RRemoveDir =>
  }

  lemma AcquireSameLocks(s: State, t: nat, c: Call, ok: bool, late: bool)
    requires IsAcquire(c.pc) && !Finished(c.pc) && !Unlocks(c.pc)
    requires c.pc.AFlockRoot? || c.pc.AFlockDir? || c.pc.AFlockLock? ==> !ok
    ensures SameLocks(c, StepAcquire(s, t, c, ok, late).call)
  {
    AcquirePoints(c.pc);
    AcquireMoves(s, t, c, ok, late);
    AcquireKeepsNames(s, t, c, ok, late);
    hide StepAcquire, Onward, OnFailure;
  }

  /** The inodes of the locks that the call holds are not forgotten. */
  lemma AcquireKeepsNames(s: State, t: nat, c: Call, ok: bool, late: bool)
    ensures var d := StepAcquire(s, t, c, ok, late).call;
            (HoldsDir(c.pc) ==> c.dir == d.dir) && (HoldsExclusive(c.pc) || MustHoldRead(c.pc) ==> c.file == d.file)
  {
  }

  lemma ReleaseKeepsNames(s: State, t: nat, c: Call, ok: bool)
    ensures var d := StepRelease(s, t, c, ok).call;
            (HoldsDir(c.pc) ==> c.dir == d.dir) && (HoldsExclusive(c.pc) || MustHoldRead(c.pc) ==> c.file == d.file)
  {
  }

  lemma ReleaseSameLocks(s: State, t: nat, c: Call, ok: bool)
    requires !IsAcquire(c.pc) && !Finished(c.pc) && !Unlocks(c.pc)
    requires c.pc.RFlockRoot? || c.pc.RFlockDir? ==> !ok
    requires c.pc.RTryFlock? ==> !StepRelease(s, t, c, ok).call.pc.RCleanup?
    ensures SameLocks(c, StepRelease(s, t, c, ok).call)
  {
    ReleasePoints(c.pc);
    ReleaseMoves(s, t, c, ok);
    ReleaseKeepsNames(s, t, c, ok);
    hide StepRelease;
  }

  lemma AcquireMoveFits(s: State, t: nat, o: Outcome)
    requires PlainMove(s, t, o) && IsAcquire(s.calls[t].pc) && Owns(s, t) && Placed(s, t)
    ensures Fits(s, Apply(s, Step(t, o)), t)
  {
    var c := Apply(s, Step(t, o)).calls[t];
    AcquireSameLocks(s, t, s.calls[t], o.Succeeds?, o.FailsLate?);
    MoveOwns(s, t, c);
    assert Reads(s, t) ==> MustHoldRead(s.calls[t].pc);
    hide Owns;
    match s.calls[t].pc
    case AMakeRoot => case AOpenRoot => case AFlockRoot => case AMakeDir => case AOpenDir => case AFlockDir =>
    case ATouch => case AOpenLock => case AFlockLock => case AFactory =>
  }

  lemma ReleaseMoveFits(s: State, t: nat, o: Outcome)
    requires PlainMove(s, t, o) && !IsAcquire(s.calls[t].pc) && Owns(s, t) && Placed(s, t)
    ensures Fits(s, Apply(s, Step(t, o)), t)
  {
    var c := Apply(s, Step(t, o)).calls[t];
    assert s.calls[t].pc.RTryFlock? ==> !c.pc.RCleanup? by {
      assert File(t, ExclusiveSlot) !in s.table || !s.calls[t].pc.RTryFlock?;
    }
    ReleaseSameLocks(s, t, s.calls[t], o.Succeeds?);
    MoveOwns(s, t, c);
    assert !Reads(s, t);
    hide Owns;
    match s.calls[t].pc
    case ROpenRoot => case RFlockRoot => case ROpenDir => case RFlockDir => case RTryOpen => case RTryFlock =>
    case RCleanup => case RUnlink => case RRemoveDir =>
  }

  lemma PlainMoveKeepsInv(s: State, t: nat, o: Outcome)
    requires Inv(s) && PlainMove(s, t, o)
    ensures Inv(Apply(s, Step(t, o)))
  {
    if IsAcquire(s.calls[t].pc) { AcquireMoveFits(s, t, o); } else { ReleaseMoveFits(s, t, o); }
    MoveKeepsInv(s, t, Apply(s, Step(t, o)).calls[t]);
  }

  /** The try-lock of a release succeeds exactly when nobody else holds a read lock on the entry. */
  lemma LastHolderIsAlone(s: State, t: nat)
    requires Inv(s) && t < |s.calls| && s.calls[t].pc.RTryFlock?
    ensures Grantable(s.table, Lock(LockFile(s.calls[t].file), true)) <==>
            forall u | 0 <= u < |s.calls| :: Reads(s, u) ==> s.calls[u].key != s.calls[t].key
  {
    var c := s.calls[t];
    assert Placed(s, t) && Owns(s, t);
    forall u | 0 <= u < |s.calls| && Reads(s, u) && s.calls[u].key == c.key
      ensures s.table[File(u, ReadSlot)].inode == LockFile(c.file)
    {
      assert Placed(s, u) && Owns(s, u);
    }
    forall f | f in s.table && s.table[f].inode == LockFile(c.file)
      ensures Reads(s, f.owner) && s.calls[f.owner].key == c.key
    {
      LockFileIsRead(s, t, f);
    }
    hide Owns, Placed;
  }

  /** Whoever has locked the lock file that a release is about to try reads the same key. */
  lemma LockFileIsRead(s: State, t: nat, f: File)
    requires Inv(s) && t < |s.calls| && s.calls[t].pc.RTryFlock?
    requires f in s.table && s.table[f].inode == LockFile(s.calls[t].file)
    ensures f.owner < |s.calls| && f == File(f.owner, ReadSlot) && s.calls[f.owner].key == s.calls[t].key
  {
    LockFileSlots(s, f);
    assert Placed(s, t) && Owns(s, t) && Owns(s, f.owner) && Placed(s, f.owner);
    SameDirSameKey(s, t, f.owner);
    OneInside(s, t, f.owner);
  }

  /** A lock file is locked for reading, or exclusively by a last holder. */
  lemma LockFileSlots(s: State, f: File)
    requires Inv(s) && f in s.table && s.table[f].inode.LockFile?
    ensures f.owner < |s.calls| && (f == File(f.owner, ReadSlot) || f == File(f.owner, ExclusiveSlot))
    ensures f.slot.ReadSlot? ==> s.table[f] == Lock(LockFile(s.calls[f.owner].file), false)
    ensures f.slot.ExclusiveSlot? ==>
              HoldsExclusive(s.calls[f.owner].pc) && s.table[f] == Lock(LockFile(s.calls[f.owner].file), true)
  {
    assert Owns(s, f.owner);
    assert f.slot.GlobalSlot? ==> f == File(f.owner, GlobalSlot);
    assert f.slot.DirectorySlot? ==> f == File(f.owner, DirectorySlot);
    assert f.slot.ReadSlot? ==> f == File(f.owner, ReadSlot);
    assert f.slot.ExclusiveSlot? ==> f == File(f.owner, ExclusiveSlot);
  }

  lemma TryLockKeepsInv(s: State, t: nat)
    requires Inv(s) && t < |s.calls| && s.calls[t].pc.RTryFlock?
    requires Grantable(s.table, Lock(LockFile(s.calls[t].file), true))
    ensures Inv(Commit(s, t, EffectOf(s, t, Succeeds)))
  {
    assert Owns(s, t) && Placed(s, t);
    LastHolderIsAlone(s, t);
    TryLockFits(s, t);
    hide Inv, Owns, Placed;
    TakeKeepsInv(s, t, ExclusiveSlot, Lock(LockFile(s.calls[t].file), true), RCleanup);
  }

  lemma TryLockFits(s: State, t: nat)
    requires t < |s.calls| && s.calls[t].pc.RTryFlock? && Owns(s, t) && Placed(s, t)
    requires Grantable(s.table, Lock(LockFile(s.calls[t].file), true))
    requires forall u | 0 <= u < |s.calls| :: Reads(s, u) ==> s.calls[u].key != s.calls[t].key
    ensures var s' := Take(s, t, ExclusiveSlot, Lock(LockFile(s.calls[t].file), true), RCleanup);
            && Commit(s, t, EffectOf(s, t, Succeeds)) == s'
            && Follows(s, t, s.calls[t].(pc := RCleanup)) && File(t, ExclusiveSlot) !in s.table
            && Owns(s', t) && Placed(s', t)
  {
  }

  lemma AcquireStepKeepsInv(s: State, t: nat, o: Outcome)
    requires Inv(s) && CanStep(s, t, o) && IsAcquire(s.calls[t].pc)
    ensures Inv(Apply(s, Step(t, o)))
  {
    var c := s.calls[t];
    assert Placed(s, t);
    if o.Succeeds? && Wanted(c) != [] { GrantKeepsInv(s, t); }
    else if Unlocks(c.pc) { UnlockKeepsInv(s, t); }
    else if c.pc.AMakeDir? && o.Succeeds? && c.key !in s.dirs { MakeDirKeepsInv(s, t); }
    else if c.pc.ATouch? && !o.Fails? && c.dir !in s.lockFiles { TouchKeepsInv(s, t, o); }
    else { PlainMoveKeepsInv(s, t, o); }
  }

  lemma ReleaseStepKeepsInv(s: State, t: nat, o: Outcome)
    requires Inv(s) && CanStep(s, t, o) && !IsAcquire(s.calls[t].pc)
    ensures Inv(Apply(s, Step(t, o)))
  {
    var c := s.calls[t];
    assert Placed(s, t);
    if o.Succeeds? && Wanted(c) != [] { GrantKeepsInv(s, t); }
    else if Unlocks(c.pc) { UnlockKeepsInv(s, t); }
    else if c.pc.RUnlink? && o.Succeeds? { UnlinkKeepsInv(s, t); }
    else if c.pc.RRemoveDir? && o.Succeeds? { RemoveDirKeepsInv(s, t); }
    else if c.pc.RTryFlock? && o.Succeeds? && Grantable(s.table, Lock(LockFile(c.file), true)) {
      TryLockKeepsInv(s, t);
    }
    else { PlainMoveKeepsInv(s, t, o); }
  }

  lemma StepKeepsInv(s: State, e: Event)
    requires Inv(s) && Enabled(s, e)
    ensures Inv(Apply(s, e))
  {
    match e
    case CallAcquire(p, k) => CallKeepsInv(s, Call(p, k, |s.calls|, AMakeRoot, 0, 0));
    case CallRelease(h) => CallKeepsInv(s, Call(s.calls[h].process, s.calls[h].key, h, ROpenRoot, 0, 0));
    case Crash(p) => CrashKeepsInv(s, p);
    case Step(t, o) =>
      if IsAcquire(s.calls[t].pc) {
        AcquireStepKeepsInv(s, t, o);
      } else {
        ReleaseStepKeepsInv(s, t, o);
      }
  }

  lemma {:induction false} RunKeepsInv(s: State, run: seq<Event>)
    requires Inv(s) && ValidRun(s, run)
    ensures Inv(After(s, run))
    decreases |run|
  {
    if run != [] {
      StepKeepsInv(s, run[0]);
      RunKeepsInv(Apply(s, run[0]), run[1..]);
    }
  }
}
