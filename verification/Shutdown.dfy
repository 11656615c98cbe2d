/** The registry of shutdown handlers, under any interleaving of Register and Shutdown calls. Handlers return and do not
    call Shutdown; a handler that calls Register is one more Register call. */
module Shutdown {

  /** G..: Register, S..: Shutdown. Each is named after the step it is about to take. `at` is the place the handler got;
      in the countdown `left` handlers are still to be started. */
  datatype PC =
    | GLock | GAppend | GUnlock(at: nat) | GDone(at: nat)
    | SOnce | SLock | SCopy | SUnlock | SCall(left: nat) | SInside(left: nat) | SDone

  /** A call; `handler` is the argument of Register. */
  datatype Call = Call(pc: PC, handler: nat)

  datatype Mutex = Free | By(owner: nat)

  /** sync.Once: the first caller runs the function, the others wait until it has returned. */
  datatype Once = Fresh | Running(runner: nat) | Done

  datatype Mark = Start(handler: nat) | End(handler: nat)

  /** `log` records when handlers start and end; `snapshot` is the runner's copy of the handlers. */
  datatype State = State(calls: seq<Call>, handlers: seq<nat>, mutex: Mutex, once: Once, snapshot: seq<nat>,
                         log: seq<Mark>)

  datatype Event = CallRegister(handler: nat) | CallShutdown | Step(call: nat)

  const INITIAL := State([], [], Free, Fresh, [], [])

  // ---------- Steps ----------

  predicate Finished(pc: PC) { pc.GDone? || pc.SDone? }

  predicate Enabled(s: State, e: Event) {
    match e
    case CallRegister(_) => true
    case CallShutdown => true
    case Step(t) =>
      && t < |s.calls|
      && !Finished(s.calls[t].pc)
      && (s.calls[t].pc in {GLock, SLock} ==> s.mutex.Free?)
      && (s.calls[t].pc.SOnce? ==> !s.once.Running?)
      && (s.calls[t].pc.SInside? ==> s.calls[t].pc.left < |s.snapshot|)
      && (s.calls[t].pc.SCall? ==> s.calls[t].pc.left <= |s.snapshot|)
  }

  function Go(s: State, t: nat, pc: PC): State
    requires t < |s.calls|
  {
    s.(calls := s.calls[t := s.calls[t].(pc := pc)])
  }

  function Apply(s: State, e: Event): State
    requires Enabled(s, e)
  {
    match e
    case CallRegister(h) => s.(calls := s.calls + [Call(GLock, h)])
    case CallShutdown => s.(calls := s.calls + [Call(SOnce, 0)])
    case Step(t) =>
      match s.calls[t].pc
      case GLock => Go(s, t, GAppend).(mutex := By(t))
      case GAppend => Go(s, t, GUnlock(|s.handlers|)).(handlers := s.handlers + [s.calls[t].handler])
      case GUnlock(at) => Go(s, t, GDone(at)).(mutex := Free)
      case SOnce => if s.once.Done? then Go(s, t, SDone) else Go(s, t, SLock).(once := Running(t))
      case SLock => Go(s, t, SCopy).(mutex := By(t))
      case SCopy => Go(s, t, SUnlock).(snapshot := s.handlers)
      case SUnlock => Go(s, t, SCall(|s.snapshot|)).(mutex := Free)
      case SCall(left) =>
        if left == 0 then Go(s, t, SDone).(once := Done)
        else Go(s, t, SInside(left - 1)).(log := s.log + [Start(s.snapshot[left - 1])])
      case SInside(left) => Go(s, t, SCall(left)).(log := s.log + [End(s.snapshot[left])])
      case _ => s
  }

  ghost predicate ValidRun(s: State, run: seq<Event>)
    decreases |run|
  {
    run == [] || (Enabled(s, run[0]) && ValidRun(Apply(s, run[0]), run[1..]))
  }

  ghost function After(s: State, run: seq<Event>): State
    requires ValidRun(s, run)
    decreases |run|
  {
    if run == [] then s else After(Apply(s, run[0]), run[1..])
  }

  // ---------- What the log should say ----------

  /** One handler after the other, the last one registered first. */
  function Backwards(handlers: seq<nat>): seq<Mark> {
    if handlers == [] then []
    else
      var last := handlers[|handlers| - 1];
      [Start(last), End(last)] + Backwards(handlers[..|handlers| - 1])
  }

  /** The handler at place k of n runs n - 1 - k handlers later than the last one, and nothing runs in between. */
  lemma {:induction false} BackwardsAt(handlers: seq<nat>, k: nat)
    requires k < |handlers|
    ensures |Backwards(handlers)| == 2 * |handlers|
    ensures Backwards(handlers)[2 * (|handlers| - 1 - k)] == Start(handlers[k])
    ensures Backwards(handlers)[2 * (|handlers| - 1 - k) + 1] == End(handlers[k])
  {
    var n := |handlers| - 1;
    if n == 0 {
      assert Backwards(handlers[..0]) == [];
    } else {
      BackwardsAt(handlers[..n], if k < n then k else 0);
    }
  }

  // ---------- Invariant ----------

  predicate InOnce(pc: PC) { pc.SLock? || pc.SCopy? || pc.SUnlock? || pc.SCall? || pc.SInside? }

  predicate HoldsMutex(pc: PC) { pc.GAppend? || pc.GUnlock? || pc.SCopy? || pc.SUnlock? }

  /** The function has taken its copy. */
  predicate Taken(s: State) {
    || s.once.Done?
    || (s.once.Running? && s.once.runner < |s.calls|
        && var pc := s.calls[s.once.runner].pc; pc.SUnlock? || pc.SCall? || pc.SInside?)
  }

  ghost predicate CallOk(s: State, t: nat)
    requires t < |s.calls|
  {
    var c := s.calls[t];
    && (HoldsMutex(c.pc) <==> s.mutex == By(t))
    && (InOnce(c.pc) <==> s.once == Running(t))
    && (c.pc.SDone? ==> s.once.Done?)
    && (c.pc.GUnlock? ==> c.pc.at < |s.handlers| && s.handlers[c.pc.at] == c.handler)
    && (c.pc.GDone? ==> c.pc.at < |s.handlers| && s.handlers[c.pc.at] == c.handler)
  }

  ghost predicate LogOk(s: State) {
    if s.once.Fresh? then s.snapshot == [] && s.log == []
    else if s.once.Done? then s.log == Backwards(s.snapshot)
    else
      && s.once.runner < |s.calls|
      && match s.calls[s.once.runner].pc
         case SLock => s.snapshot == [] && s.log == []
         case SCopy => s.snapshot == [] && s.log == []
         case SUnlock => s.log == []
         case SCall(left) => left <= |s.snapshot| && s.log + Backwards(s.snapshot[..left]) == Backwards(s.snapshot)
         case SInside(left) =>
           && left < |s.snapshot|
           && s.log + [End(s.snapshot[left])] + Backwards(s.snapshot[..left]) == Backwards(s.snapshot)
         case _ => false
  }

  ghost predicate Inv(s: State) {
    && (forall t: nat | t < |s.calls| :: CallOk(s, t))
    && (s.mutex.By? ==> s.mutex.owner < |s.calls|)
    && s.snapshot <= s.handlers
    && LogOk(s)
  }

  lemma StepKeepsCall(s: State, t: nat, u: nat)
    requires t < |s.calls| && u < |s.calls| && CallOk(s, t) && CallOk(s, u) && Enabled(s, Step(t))
    ensures CallOk(Apply(s, Step(t)), u)
  {
    match s.calls[t].pc
    case GLock =>
    case GAppend =>
    case GUnlock(_) =>
    case SOnce =>
    case SLock =>
    case SCopy =>
    case SUnlock =>
    case SCall(_) =>
    case SInside(_) =>
    case GDone(_) =>
    case SDone =>
  }

  lemma NewCallIsOk(s: State, e: Event, u: nat)
    requires Inv(s) && Enabled(s, e) && !e.Step? && u < |Apply(s, e).calls|
    ensures CallOk(Apply(s, e), u)
  {
    hide Backwards;
    if u < |s.calls| { assert CallOk(s, u); }
  }

  lemma StepKeepsLog(s: State, e: Event)
    requires Inv(s) && Enabled(s, e)
    ensures LogOk(Apply(s, e)) && Apply(s, e).snapshot <= Apply(s, e).handlers
  {
    if e.Step? {
      assert CallOk(s, e.call);
      match s.calls[e.call].pc
      case SCopy => CopyKeepsLog(s, e.call);
      case SUnlock => CopyKeepsLog(s, e.call);
      case SCall(_) => CountdownKeepsLog(s, e.call);
      case SInside(_) => CountdownKeepsLog(s, e.call);
      case _ => OtherKeepsLog(s, e);
    } else {
      OtherKeepsLog(s, e);
    }
  }

  lemma CopyKeepsLog(s: State, t: nat)
    requires Inv(s) && Enabled(s, Step(t)) && (s.calls[t].pc.SCopy? || s.calls[t].pc.SUnlock?)
    ensures LogOk(Apply(s, Step(t))) && Apply(s, Step(t)).snapshot <= Apply(s, Step(t)).handlers
  {
    hide Backwards;
    assert CallOk(s, t);
    assert s.snapshot[..|s.snapshot|] == s.snapshot;
  }

  lemma CountdownKeepsLog(s: State, t: nat)
    requires Inv(s) && Enabled(s, Step(t)) && (s.calls[t].pc.SCall? || s.calls[t].pc.SInside?)
    ensures LogOk(Apply(s, Step(t))) && Apply(s, Step(t)).snapshot <= Apply(s, Step(t)).handlers
  {
    hide Backwards;
    assert CallOk(s, t);
    if s.calls[t].pc.SCall? { CountDown(s, s.calls[t].pc.left); }
  }

  lemma OtherKeepsLog(s: State, e: Event)
    requires Inv(s) && Enabled(s, e)
    requires e.Step? ==> var pc := s.calls[e.call].pc; !pc.SCopy? && !pc.SUnlock? && !pc.SCall? && !pc.SInside?
    ensures LogOk(Apply(s, e)) && Apply(s, e).snapshot <= Apply(s, e).handlers
  {
    hide Backwards;
    if e.Step? { assert CallOk(s, e.call); }
  }

  lemma CountDown(s: State, left: nat)
    requires left <= |s.snapshot| && s.log + Backwards(s.snapshot[..left]) == Backwards(s.snapshot)
    ensures left == 0 ==> s.log == Backwards(s.snapshot)
    ensures left > 0 ==>
      var h := s.snapshot[left - 1];
      s.log + [Start(h)] + [End(h)] + Backwards(s.snapshot[..left - 1]) == Backwards(s.snapshot)
  {
    if left > 0 {
      var h := s.snapshot[left - 1];
      assert s.snapshot[..left][..left - 1] == s.snapshot[..left - 1];
      assert Backwards(s.snapshot[..left]) == [Start(h), End(h)] + Backwards(s.snapshot[..left - 1]);
    }
  }

  lemma MutexIsOwned(s: State, e: Event)
    requires Inv(s) && Enabled(s, e)
    ensures Apply(s, e).mutex.By? ==> Apply(s, e).mutex.owner < |Apply(s, e).calls|
    ensures e.Step? ==> e.call < |s.calls| == |Apply(s, e).calls|
  {
    hide LogOk, CallOk;
  }

  lemma StepKeepsInv(s: State, e: Event)
    requires Inv(s) && Enabled(s, e)
    ensures Inv(Apply(s, e))
  {
    hide LogOk, CallOk, Apply, Enabled;
    StepKeepsLog(s, e);
    MutexIsOwned(s, e);
    forall t: nat | t < |Apply(s, e).calls| ensures CallOk(Apply(s, e), t) {
      if e.Step? { StepKeepsCall(s, e.call, t); } else { NewCallIsOk(s, e, t); }
    }
  }

  lemma {:induction false} RunKeepsInv(s: State, run: seq<Event>)
    requires Inv(s) && ValidRun(s, run)
    ensures Inv(After(s, run))
    decreases |run|
  {
    hide Inv, Apply, Enabled;
    if run != [] {
      StepKeepsInv(s, run[0]);
      RunKeepsInv(Apply(s, run[0]), run[1..]);
    }
  }

  // ---------- Runs ----------

  /** What no step undoes: handlers keep their places, and the copy, once taken, stays the same. */
  ghost predicate Later(s: State, s': State) {
    && |s.calls| <= |s'.calls| && s.handlers <= s'.handlers && s.log <= s'.log
    && (Taken(s) ==> Taken(s') && s'.snapshot == s.snapshot)
    && (!Taken(s) && Taken(s') ==> s.handlers <= s'.snapshot)
    && (forall t | 0 <= t < |s.calls| && Finished(s.calls[t].pc) :: s'.calls[t] == s.calls[t])
  }

  lemma StepIsLater(s: State, e: Event)
    requires Inv(s) && Enabled(s, e)
    ensures Later(s, Apply(s, e))
  {
    hide Backwards;
    if e.Step? {
      assert CallOk(s, e.call);
      match s.calls[e.call].pc
      case GLock =>
      case GAppend =>
      case GUnlock(_) =>
      case SOnce =>
      case SLock =>
      case SCopy =>
      case SUnlock =>
      case SCall(_) =>
      case SInside(_) =>
      case GDone(_) =>
      case SDone =>
    }
  }

  lemma {:induction false} RunIsLater(s: State, run: seq<Event>)
    requires Inv(s) && ValidRun(s, run)
    ensures Later(s, After(s, run))
    decreases |run|
  {
    hide Inv, Apply, Enabled, Taken;
    if run != [] {
      StepKeepsInv(s, run[0]);
      StepIsLater(s, run[0]);
      RunIsLater(Apply(s, run[0]), run[1..]);
    }
  }

  lemma InitiallyInv()
    ensures Inv(INITIAL)
  {
  }

  /** At every moment the handlers of the copy have run from the last one on, none of them twice and none skipped, and
      no other; once any Shutdown call has returned, all of them have. */
  lemma HandlersRunBackwards(run: seq<Event>)
    requires ValidRun(INITIAL, run)
    ensures
      var s := After(INITIAL, run);
      && s.log <= Backwards(s.snapshot)
      && (forall t | 0 <= t < |s.calls| && s.calls[t].pc.SDone? :: s.once.Done? && s.log == Backwards(s.snapshot))
  {
    hide Backwards, After, ValidRun;
    InitiallyInv();
    RunKeepsInv(INITIAL, run);
    var s := After(INITIAL, run);
    forall t: nat | t < |s.calls| && s.calls[t].pc.SDone? ensures s.once.Done? { assert CallOk(s, t); }
    if s.once.Running? && s.calls[s.once.runner].pc.SUnlock? {
      assert s.log == [];
    }
  }

  /** If a handler's Register returned before the copy was taken, the handler is in the copy; when a Shutdown has
      returned, it has run, at the moment that its place asks for. */
  lemma RegisteredBeforeRuns(before: seq<Event>, s1: State, after: seq<Event>, s2: State, r: nat, d: nat)
    requires ValidRun(INITIAL, before) && s1 == After(INITIAL, before)
    requires ValidRun(s1, after) && s2 == After(s1, after)
    requires r < |s1.calls| && s1.calls[r].pc.GDone? && !Taken(s1)
    requires d < |s2.calls| && s2.calls[d].pc.SDone?
    ensures
      var at := s1.calls[r].pc.at;
      && at < |s2.snapshot| && s2.snapshot[at] == s1.calls[r].handler
      && |s2.log| == 2 * |s2.snapshot|
      && s2.log[2 * (|s2.snapshot| - 1 - at)] == Start(s1.calls[r].handler)
      && s2.log[2 * (|s2.snapshot| - 1 - at) + 1] == End(s1.calls[r].handler)
  {
    hide Backwards, After, ValidRun, LogOk;
    InitiallyInv();
    RunKeepsInv(INITIAL, before);
    RunKeepsInv(s1, after);
    RunIsLater(s1, after);
    assert CallOk(s1, r) && CallOk(s2, d);
    DoneLog(s2);
    BackwardsAt(s2.snapshot, s1.calls[r].pc.at);
  }

  lemma DoneLog(s: State)
    requires Inv(s) && s.once.Done?
    ensures s.log == Backwards(s.snapshot)
  {
  }

  /** A handler that gets its place after the copy was taken never runs. */
  lemma RegisteredAfterNeverRuns(before: seq<Event>, s1: State, after: seq<Event>, s2: State, r: nat)
    requires ValidRun(INITIAL, before) && s1 == After(INITIAL, before)
    requires ValidRun(s1, after) && s2 == After(s1, after)
    requires Taken(s1) && r < |s2.calls| && s2.calls[r].pc.GDone? && s2.calls[r].pc.at >= |s1.handlers|
    ensures s2.snapshot == s1.snapshot && |s2.snapshot| <= s2.calls[r].pc.at
    ensures s2.log <= Backwards(s1.snapshot)
  {
    hide Backwards, After, ValidRun;
    InitiallyInv();
    RunKeepsInv(INITIAL, before);
    RunKeepsInv(s1, after);
    RunIsLater(s1, after);
    if s2.once.Running? && s2.calls[s2.once.runner].pc.SUnlock? { assert s2.log == []; }
  }

  /** Places are given in order: a Register that returned before another one began has the smaller place, so its
      handler runs later. */
  lemma PlacesFollowTime(before: seq<Event>, s1: State, after: seq<Event>, s2: State, q: nat, r: nat)
    requires ValidRun(INITIAL, before) && s1 == After(INITIAL, before)
    requires ValidRun(s1, after) && s2 == After(s1, after)
    requires q < |s1.calls| && s1.calls[q].pc.GDone?
    requires |s1.calls| <= r < |s2.calls| && s2.calls[r].pc.GDone?
    ensures s2.calls[q] == s1.calls[q] && s2.calls[q].pc.at < s2.calls[r].pc.at
  {
    hide Backwards, After, ValidRun, LogOk;
    InitiallyInv();
    RunKeepsInv(INITIAL, before);
    RunKeepsInv(s1, after);
    RunIsLater(s1, after);
    assert CallOk(s1, q);
    NewPlaces(s1, s1, after, r);
  }

  ghost predicate PlaceFrom(s: State, n: nat, r: nat) {
    && r < |s.calls|
    && (s.calls[r].pc.GUnlock? ==> s.calls[r].pc.at >= n)
    && (s.calls[r].pc.GDone? ==> s.calls[r].pc.at >= n)
  }

  /** A call that had no place yet in s0 gets one behind all the handlers of s0. */
  lemma {:induction false} NewPlaces(s0: State, s: State, run: seq<Event>, r: nat)
    requires Inv(s) && ValidRun(s, run) && |s0.handlers| <= |s.handlers|
    requires r < |s.calls| ==> PlaceFrom(s, |s0.handlers|, r)
    ensures r < |After(s, run).calls| ==> PlaceFrom(After(s, run), |s0.handlers|, r)
    decreases |run|
  {
    hide Inv, Apply, Enabled, PlaceFrom, Taken;
    if run != [] {
      StepKeepsInv(s, run[0]);
      StepIsLater(s, run[0]);
      if r < |Apply(s, run[0]).calls| { StepGivesPlace(s, run[0], |s0.handlers|, r); }
      NewPlaces(s0, Apply(s, run[0]), run[1..], r);
    }
  }

  lemma StepGivesPlace(s: State, e: Event, n: nat, r: nat)
    requires Enabled(s, e) && n <= |s.handlers| && (r < |s.calls| ==> PlaceFrom(s, n, r)) && r < |Apply(s, e).calls|
    ensures PlaceFrom(Apply(s, e), n, r)
  {
  }

  /** As long as some call is not finished, some call can take a step. */
  lemma NoDeadlock(s: State, t: nat) returns (u: nat)
    requires Inv(s) && t < |s.calls| && !Finished(s.calls[t].pc)
    ensures Enabled(s, Step(u))
  {
    hide Backwards;
    assert CallOk(s, t);
    if s.mutex.By? {
      u := s.mutex.owner;
      assert CallOk(s, u);
    } else if s.once.Running? {
      u := s.once.runner;
      assert CallOk(s, u);
    } else {
      u := t;
    }
  }

  // ---------- Every call finishes ----------

  const MAX_RANK: nat := 5

  /** Steps that are left for a call, at most, without those that the handlers take. A Register call has two in hand
      for its handler. */
  function Rank(pc: PC): nat {
    match pc
    case GLock => 5 case GAppend => 4 case GUnlock(_) => 1 case GDone(_) => 0
    case SOnce => 5 case SLock => 4 case SCopy => 3 case SUnlock => 2
    case SCall(left) => 2 * left + 1 case SInside(left) => 2 * left + 2 case SDone => 0
  }

  function TotalRank(calls: seq<Call>): nat {
    if calls == [] then 0 else TotalRank(calls[..|calls| - 1]) + Rank(calls[|calls| - 1].pc)
  }

  /** Steps that the handlers will take and that no call counts yet: those of the list before the copy is taken, those
      of the copy until the countdown begins. */
  function Waiting(s: State): nat {
    match s.once
    case Fresh => 2 * |s.handlers|
    case Done => 0
    case Running(t) =>
      if t >= |s.calls| then 0
      else if s.calls[t].pc.SLock? || s.calls[t].pc.SCopy? then 2 * |s.handlers|
      else if s.calls[t].pc.SUnlock? then 2 * |s.snapshot|
      else 0
  }

  /** Steps that are left, at most. */
  function Left(s: State): nat { TotalRank(s.calls) + Waiting(s) }

  lemma {:induction false} TotalAfterUpdate(calls: seq<Call>, t: nat, c: Call)
    requires t < |calls|
    ensures TotalRank(calls[t := c]) == TotalRank(calls) - Rank(calls[t].pc) + Rank(c.pc)
  {
    var n := |calls| - 1;
    if t == n {
      assert calls[t := c][..n] == calls[..n];
    } else {
      assert calls[t := c][..n] == calls[..n][t := c];
      TotalAfterUpdate(calls[..n], t, c);
    }
  }

  lemma TotalAfterAppend(calls: seq<Call>, c: Call)
    ensures TotalRank(calls + [c]) == TotalRank(calls) + Rank(c.pc)
  {
    assert (calls + [c])[..|calls|] == calls;
  }

  lemma StepLowersLeft(s: State, t: nat)
    requires Inv(s) && Enabled(s, Step(t))
    ensures Left(Apply(s, Step(t))) < Left(s)
  {
    hide Backwards, TotalRank;
    assert CallOk(s, t);
    TotalAfterUpdate(s.calls, t, Apply(s, Step(t)).calls[t]);
    if s.once.Running? && s.once.runner != t { assert CallOk(s, s.once.runner); }
    match s.calls[t].pc
    case GLock =>
    case GAppend =>
    case GUnlock(_) =>
    case SOnce =>
    case SLock =>
    case SCopy =>
    case SUnlock =>
    case SCall(_) =>
    case SInside(_) =>
    case GDone(_) =>
    case SDone =>
  }

  lemma CallRaisesLeft(s: State, e: Event)
    requires Inv(s) && !e.Step?
    ensures Left(Apply(s, e)) == Left(s) + MAX_RANK
  {
    hide Backwards, TotalRank;
    TotalAfterAppend(s.calls, Apply(s, e).calls[|s.calls|]);
  }

  function NewCalls(run: seq<Event>): nat {
    if run == [] then 0 else (if run[0].Step? then 0 else 1) + NewCalls(run[1..])
  }

  /** A run, with all its handlers, has at most 6 events for each call it makes, plus what was left at the start. */
  lemma {:induction false} RunsAreBounded(s: State, run: seq<Event>)
    requires Inv(s) && ValidRun(s, run)
    ensures |run| + Left(After(s, run)) <= Left(s) + 6 * NewCalls(run)
    decreases |run|
  {
    hide Inv, Apply, Enabled, Left;
    if run != [] {
      StepKeepsInv(s, run[0]);
      if run[0].Step? { StepLowersLeft(s, run[0].call); } else { CallRaisesLeft(s, run[0]); }
      RunsAreBounded(Apply(s, run[0]), run[1..]);
    }
  }

  /** The calls under way can always be run to their end. */
  lemma {:induction false} EveryCallFinishes(s: State) returns (run: seq<Event>)
    requires Inv(s)
    ensures ValidRun(s, run) && forall t | 0 <= t < |After(s, run).calls| :: Finished(After(s, run).calls[t].pc)
    ensures forall e | e in run :: e.Step?
    decreases Left(s)
  {
    hide Inv, Apply, Enabled, Left;
    if t :| 0 <= t < |s.calls| && !Finished(s.calls[t].pc) {
      var u := NoDeadlock(s, t);
      StepLowersLeft(s, u);
      StepKeepsInv(s, Step(u));
      var rest := EveryCallFinishes(Apply(s, Step(u)));
      run := [Step(u)] + rest;
      assert run[1..] == rest;
    } else {
      run := [];
    }
  }

  /** Some run leads from s0 to s. */
  ghost predicate Reaches(s0: State, s: State) {
    exists run :: ValidRun(s0, run) && After(s0, run) == s
  }

  lemma Nowhere(s: State)
    ensures Reaches(s, s)
  {
    assert ValidRun(s, []) && After(s, []) == s;
  }

  lemma {:induction false} RunsConcatenate(s: State, run: seq<Event>, more: seq<Event>)
    requires ValidRun(s, run) && ValidRun(After(s, run), more)
    ensures ValidRun(s, run + more) && After(s, run + more) == After(After(s, run), more)
    decreases |run|
  {
    hide Apply, Enabled;
    if run == [] {
      assert run + more == more;
    } else {
      RunsConcatenate(Apply(s, run[0]), run[1..], more);
      assert (run + more)[1..] == run[1..] + more;
    }
  }

  lemma OneMoreStep(s0: State, s: State, e: Event)
    requires Reaches(s0, s) && Enabled(s, e)
    ensures Reaches(s0, Apply(s, e))
  {
    hide Apply, Enabled;
    var run :| ValidRun(s0, run) && After(s0, run) == s;
    assert [e][1..] == [];
    assert ValidRun(Apply(s, e), []);
    assert ValidRun(s, [e]) && After(s, [e]) == Apply(s, e);
    RunsConcatenate(s0, run, [e]);
  }
}
