/** The abstract machine a user of the Locker has in mind, one set of holders for each key, and the proof
    that every step of the protocol is a step of that machine. */
module LockerRefinement {
  import opened LockTable
  import opened Locker
  import opened LockerInvariant

  /** The keys that have an entry directory, and who holds which key. */
  datatype RefCount = RefCount(entries: set<Key>, holders: set<(Key, nat)>)

  datatype Operation =
    | Nothing
    | Create(key: Key)
    | Join(key: Key, who: nat)
    | Leave(gone: set<(Key, nat)>)
    | Delete(key: Key)

  ghost predicate HasHolder(c: RefCount, k: Key) { exists who :: (k, who) in c.holders }

  /** An entry is there before anybody holds it, and only an entry without holders is deleted. */
  ghost predicate Allowed(c: RefCount, op: Operation) {
    match op
    case Nothing => true
    case Create(k) => k !in c.entries
    case Join(k, who) => k in c.entries && (k, who) !in c.holders
    case Leave(gone) => gone <= c.holders
    case Delete(k) => k in c.entries && !HasHolder(c, k)
  }

  function Perform(c: RefCount, op: Operation): RefCount {
    match op
    case Nothing => c
    case Create(k) => c.(entries := c.entries + {k})
    case Join(k, who) => c.(holders := c.holders + {(k, who)})
    case Leave(gone) => c.(holders := c.holders - gone)
    case Delete(k) => c.(entries := c.entries - {k})
  }

  function HoldersOf(s: State): set<(Key, nat)> {
    set t | 0 <= t < |s.calls| && File(t, ReadSlot) in s.table :: (s.calls[t].key, t)
  }

  function Abstract(s: State): RefCount { RefCount(s.dirs.Keys, HoldersOf(s)) }

  /** What a step of the protocol does to the reference count: an Acquire joins when its read lock is granted,
      a handle leaves when its read lock is unlocked, all handles of a process leave when it dies. */
  function OperationOf(s: State, e: Event): Operation
    requires Enabled(s, e)
  {
    match e
    case Step(t, o) =>
      var c := s.calls[t];
      (match c.pc
       case AMakeDir => if o.Succeeds? && c.key !in s.dirs then Create(c.key) else Nothing
       case AFlockLock => if o.Succeeds? then Join(c.key, t) else Nothing
       case AFailRead => Leave(HoldersOf(s) * {(c.key, t)})
       case RUnlockRead => Leave(HoldersOf(s) * {(c.key, c.handle)})
       case RFailRead => Leave(HoldersOf(s) * {(c.key, c.handle)})
       case RRemoveDir => if o.Succeeds? then Delete(c.key) else Nothing
       case _ => Nothing)
    case Crash(p) => Leave(set h | h in HoldersOf(s) && h.1 in CallsOf(s, p))
    case _ => Nothing
  }

  lemma HoldersWhere(s: State, k: Key, t: nat)
    ensures (k, t) in HoldersOf(s) <==> t < |s.calls| && Reads(s, t) && s.calls[t].key == k
  {
  }

  /** Two abstract states with the same entries and the same holders are equal. */
  lemma SameCount(a: RefCount, b: RefCount)
    requires a.entries == b.entries
    requires forall k, t :: (k, t) in a.holders <==> (k, t) in b.holders
    ensures a == b
  {
    forall h | h in a.holders ensures h in b.holders { assert (h.0, h.1) in a.holders; }
    forall h | h in b.holders ensures h in a.holders { assert (h.0, h.1) in b.holders; }
    assert a.holders == b.holders;
  }

  lemma OperationAllowed(s: State, e: Event)
    requires Inv(s) && Enabled(s, e)
    ensures Allowed(Abstract(s), OperationOf(s, e))
  {
    if e.Step? {
      var t := e.call;
      assert Owns(s, t) && Placed(s, t);
      if s.calls[t].pc.RRemoveDir? && HasHolder(Abstract(s), s.calls[t].key) {
        var u :| (s.calls[t].key, u) in HoldersOf(s);
        HoldersWhere(s, s.calls[t].key, u);
      }
    }
  }

  lemma StepHolders(s: State, t: nat, o: Outcome, k: Key, u: nat)
    requires Inv(s) && CanStep(s, t, o)
    ensures (k, u) in Abstract(Apply(s, Step(t, o))).holders <==>
            (k, u) in Perform(Abstract(s), OperationOf(s, Step(t, o))).holders
  {
    assert Owns(s, t) && Handled(s, t);
    ReadSlotAfter(s, t, o, u);
    StepKeepsCalls(s, t, o, u);
    StepKeepsCalls(s, t, o, t);
    OperationHolders(s, t, o, k, u);
    hide Apply, Inv, CanStep, Owns, Handled, Perform, OperationOf;
    HoldersWhere(s, k, u);
    HoldersWhere(Apply(s, Step(t, o)), k, u);
    if u < |s.calls| && k == s.calls[u].key { HandleHasKey(s, t, u); }
  }

  lemma HandleHasKey(s: State, t: nat, u: nat)
    requires t < |s.calls| && u < |s.calls|
    ensures u == t ==> s.calls[t].key == s.calls[u].key
  {
  }

  /** Who holds what after the operation of a step. */
  lemma OperationHolders(s: State, t: nat, o: Outcome, k: Key, u: nat)
    requires CanStep(s, t, o)
    ensures
      var c := s.calls[t];
      (k, u) in Perform(Abstract(s), OperationOf(s, Step(t, o))).holders <==>
      || (c.pc.AFlockLock? && o.Succeeds? && u == t && k == c.key)
      || ((k, u) in HoldersOf(s) && !(c.pc.AFailRead? && u == t && k == c.key)
          && !((c.pc.RUnlockRead? || c.pc.RFailRead?) && u == c.handle && k == c.key))
  {
    hide HoldersOf;
  }

  /** Which read locks remain, or appear, after a step of call t. */
  ghost predicate ReadsAfter(s: State, t: nat, o: Outcome, u: nat)
    requires t < |s.calls|
  {
    var c := s.calls[t];
    || (c.pc.AFlockLock? && o.Succeeds? && u == t)
    || (Reads(s, u) && !(c.pc.AFailRead? && u == t) && !((c.pc.RUnlockRead? || c.pc.RFailRead?) && u == c.handle))
  }

  lemma ReadSlotAfter(s: State, t: nat, o: Outcome, u: nat)
    requires CanStep(s, t, o)
    ensures Reads(Apply(s, Step(t, o)), u) <==> ReadsAfter(s, t, o, u)
  {
    if IsAcquire(s.calls[t].pc) { AcquireReadSlot(s, t, o, u); } else { ReleaseReadSlot(s, t, o, u); }
  }

  lemma AcquireReadSlot(s: State, t: nat, o: Outcome, u: nat)
    requires CanStep(s, t, o) && IsAcquire(s.calls[t].pc)
    ensures File(u, ReadSlot) in EffectOf(s, t, o).table <==> ReadsAfter(s, t, o, u)
  {
  }

  lemma ReleaseReadSlot(s: State, t: nat, o: Outcome, u: nat)
    requires CanStep(s, t, o) && !IsAcquire(s.calls[t].pc)
    ensures File(u, ReadSlot) in EffectOf(s, t, o).table <==> ReadsAfter(s, t, o, u)
  {
  }

  /** A step of call t changes no other call u, and of t neither key, process nor handle. */
  ghost predicate SameCall(s: State, s': State, t: nat, u: nat) {
    && |s.calls| == |s'.calls|
    && (u < |s.calls| ==>
          && (u != t ==> s'.calls[u] == s.calls[u])
          && s'.calls[u].key == s.calls[u].key
          && s'.calls[u].process == s.calls[u].process
          && s'.calls[u].handle == s.calls[u].handle)
  }

  lemma StepKeepsCalls(s: State, t: nat, o: Outcome, u: nat)
    requires CanStep(s, t, o)
    ensures SameCall(s, Apply(s, Step(t, o)), t, u)
  {
    if IsAcquire(s.calls[t].pc) { AcquireKeepsIdentity(s, t, s.calls[t], o.Succeeds?, o.FailsLate?); }
    else { ReleaseKeepsIdentity(s, t, s.calls[t], o.Succeeds?); }
  }

  predicate SameIdentity(b: Call, c: Call) { c.key == b.key && c.process == b.process && c.handle == b.handle }

  lemma AcquireKeepsIdentity(s: State, t: nat, c: Call, ok: bool, late: bool)
    ensures SameIdentity(c, StepAcquire(s, t, c, ok, late).call)
  {
    match c.pc
    case AMakeRoot => case AOpenRoot => case AFlockRoot => case AMakeDir => case AOpenDir => case AFlockDir =>
    case AUnlockRoot => case ATouch => case AOpenLock => case AFlockLock => case AFactory => case AUnlockDir =>
    case AFailRoot => case AFailRead => case AFailDir => case _ =>
  }

  lemma ReleaseKeepsIdentity(s: State, t: nat, c: Call, ok: bool)
    ensures SameIdentity(c, StepRelease(s, t, c, ok).call)
  {
    match c.pc
    case ROpenRoot => case RFlockRoot => case ROpenDir => case RFlockDir => case RUnlockRead => case RTryOpen =>
    case RTryFlock => case RCleanup => case RUnlockExclusive => case RUnlink => case RRemoveDir => case RUnlockDir =>
    case RUnlockRoot => case RFailRoot => case RFailRead => case _ =>
  }

  /** Which entries a step creates or deletes. */
  function EntriesAfter(s: State, c: Call, o: Outcome): set<Key> {
    if c.pc.AMakeDir? && o.Succeeds? then s.dirs.Keys + {c.key}
    else if c.pc.RRemoveDir? && o.Succeeds? then s.dirs.Keys - {c.key}
    else s.dirs.Keys
  }

  lemma AcquireEntries(s: State, t: nat, o: Outcome)
    requires t < |s.calls| && IsAcquire(s.calls[t].pc)
    ensures EffectOf(s, t, o).dirs.Keys == EntriesAfter(s, s.calls[t], o)
  {
  }

  lemma ReleaseEntries(s: State, t: nat, o: Outcome)
    requires t < |s.calls| && !IsAcquire(s.calls[t].pc) && Placed(s, t)
    ensures EffectOf(s, t, o).dirs.Keys == EntriesAfter(s, s.calls[t], o)
  {
  }

  lemma StepEntries(s: State, t: nat, o: Outcome)
    requires Inv(s) && CanStep(s, t, o)
    ensures Apply(s, Step(t, o)).dirs.Keys == EntriesAfter(s, s.calls[t], o)
    ensures Abstract(Apply(s, Step(t, o))).entries == Perform(Abstract(s), OperationOf(s, Step(t, o))).entries
  {
    assert Placed(s, t);
    if IsAcquire(s.calls[t].pc) { AcquireEntries(s, t, o); } else { ReleaseEntries(s, t, o); }
  }

  /** Every step of the protocol is the step of the reference count it is meant to be. */
  lemma StepRefines(s: State, e: Event)
    requires Inv(s) && Enabled(s, e)
    ensures Allowed(Abstract(s), OperationOf(s, e))
    ensures Abstract(Apply(s, e)) == Perform(Abstract(s), OperationOf(s, e))
  {
    OperationAllowed(s, e);
    var a, b := Abstract(Apply(s, e)), Perform(Abstract(s), OperationOf(s, e));
    match e
    case Step(t, o) =>
      StepEntries(s, t, o);
      forall k, u ensures (k, u) in a.holders <==> (k, u) in b.holders {
        if u >= 0 { StepHolders(s, t, o, k, u); }
      }
      SameCount(a, b);
    case Crash(p) =>
      forall k: Key, u: nat ensures (k, u) in a.holders <==> (k, u) in b.holders {
        HoldersWhere(s, k, u);
        HoldersWhere(Apply(s, e), k, u);
      }
      SameCount(a, b);
    case CallAcquire(_, _) => NewCallHoldsNothing(s, e);
    case CallRelease(_) => NewCallHoldsNothing(s, e);
  }

  lemma NewCallHoldsNothing(s: State, e: Event)
    requires Inv(s) && Enabled(s, e) && (e.CallAcquire? || e.CallRelease?)
    ensures Abstract(Apply(s, e)) == Abstract(s)
  {
    var s' := Apply(s, e);
    forall k: Key, u: nat ensures (k, u) in HoldersOf(s') <==> (k, u) in HoldersOf(s) {
      HoldersWhere(s, k, u);
      HoldersWhere(s', k, u);
    }
    SameCount(Abstract(s'), Abstract(s));
  }

  // ---------- Over whole runs ----------

  function OperationsOf(s: State, run: seq<Event>): seq<Operation>
    requires ValidRun(s, run)
    decreases |run|
  {
    if run == [] then [] else [OperationOf(s, run[0])] + OperationsOf(Apply(s, run[0]), run[1..])
  }

  ghost predicate AllAllowed(c: RefCount, ops: seq<Operation>)
    decreases |ops|
  {
    ops == [] || (Allowed(c, ops[0]) && AllAllowed(Perform(c, ops[0]), ops[1..]))
  }

  function PerformAll(c: RefCount, ops: seq<Operation>): RefCount
    decreases |ops|
  {
    if ops == [] then c else PerformAll(Perform(c, ops[0]), ops[1..])
  }

  /** Every run of the protocol, with any number of calls, failures and crashes, is a run of the reference count. */
  lemma {:induction false} RunRefines(s: State, run: seq<Event>)
    requires Inv(s) && ValidRun(s, run)
    ensures AllAllowed(Abstract(s), OperationsOf(s, run))
    ensures Abstract(After(s, run)) == PerformAll(Abstract(s), OperationsOf(s, run))
    decreases |run|
  {
    if run != [] {
      StepRefines(s, run[0]);
      StepKeepsInv(s, run[0]);
      RunRefines(Apply(s, run[0]), run[1..]);
      assert OperationsOf(s, run)[1..] == OperationsOf(Apply(s, run[0]), run[1..]);
    }
  }

  /** In the reference count, and so in the store, whoever holds a key has an entry for it. */
  lemma {:induction false} HeldKeysHaveEntries(c: RefCount, ops: seq<Operation>)
    requires AllAllowed(c, ops) && forall h | h in c.holders :: h.0 in c.entries
    ensures forall h | h in PerformAll(c, ops).holders :: h.0 in PerformAll(c, ops).entries
    decreases |ops|
  {
    if ops != [] {
      var d := Perform(c, ops[0]);
      forall h | h in d.holders ensures h.0 in d.entries {
        if ops[0].Delete? { assert (h.0, h.1) in c.holders; }
      }
      HeldKeysHaveEntries(d, ops[1..]);
    }
  }
}
