/** The bodies of Register and Shutdown, with the other calls going on between their steps. */
module ShutdownCalls {
  import opened Shutdown

  predicate MayWait(pc: PC) { pc.GLock? || pc.SOnce? || pc.SLock? }

  lemma OnlyLocksWait(s: State, t: nat)
    requires Inv(s) && t < |s.calls| && !Finished(s.calls[t].pc) && !MayWait(s.calls[t].pc)
    ensures Enabled(s, Step(t))
  {
    hide Backwards;
    assert CallOk(s, t);
  }

  /** What the next step makes of the call itself. */
  predicate Moves(pc: PC, pc': PC) {
    match pc
    case GLock => pc'.GAppend?
    case GAppend => pc'.GUnlock?
    case GUnlock(_) => pc'.GDone?
    case SOnce => pc'.SDone? || pc'.SLock?
    case SLock => pc'.SCopy?
    case SCopy => pc'.SUnlock?
    case SUnlock => pc'.SCall?
    case SCall(left) => if left == 0 then pc'.SDone? else pc' == SInside(left - 1)
    case SInside(left) => pc' == SCall(left)
    case _ => false
  }

  lemma OwnStep(s: State, t: nat)
    requires Enabled(s, Step(t))
    ensures |Apply(s, Step(t)).calls| == |s.calls| && Moves(s.calls[t].pc, Apply(s, Step(t)).calls[t].pc)
    ensures Apply(s, Step(t)).calls[t].handler == s.calls[t].handler
  {
  }

  lemma OthersStep(s: State, e: Event, t: nat)
    requires Enabled(s, e) && e != Step(t) && t < |s.calls|
    ensures t < |Apply(s, e).calls| && Apply(s, e).calls[t] == s.calls[t]
  {
  }

  class Registry {
    var state: State
    var turns: seq<seq<Event>>   // what the others do before each step of a call

    constructor (turns: seq<seq<Event>>)
      ensures state == INITIAL && Inv(state) && this.turns == turns
    {
      InitiallyInv();
      state, this.turns := INITIAL, turns;
    }

    method Do(e: Event, ghost s0: State)
      requires Inv(state) && Reaches(s0, state) && Enabled(state, e)
      modifies this`state
      ensures state == Apply(old(state), e) && Inv(state) && Reaches(s0, state)
    {
      StepKeepsInv(state, e);
      OneMoreStep(s0, state, e);
      state := Apply(state, e);
    }

    method Others(t: nat, events: seq<Event>, ghost s0: State)
      requires Inv(state) && Reaches(s0, state) && t < |state.calls|
      modifies this`state
      ensures Inv(state) && Reaches(s0, state) && t < |state.calls| && state.calls[t] == old(state.calls[t])
    {
      hide Apply, Enabled, Reaches, Inv;
      for k := 0 to |events|
        invariant Inv(state) && Reaches(s0, state) && t < |state.calls| && state.calls[t] == old(state.calls[t])
      {
        if events[k] != Step(t) && Enabled(state, events[k]) {
          OthersStep(state, events[k], t);
          Do(events[k], s0);
        }
      }
    }

    /** The next step of the call t, after whatever the others do.
        Only a lock can keep the call waiting. */
    method Next(t: nat, at: PC, ghost s0: State) returns (waits: bool)
      requires Inv(state) && Reaches(s0, state) && t < |state.calls| && state.calls[t].pc == at && !Finished(at)
      modifies this
      ensures Inv(state) && Reaches(s0, state) && t < |state.calls|
                && state.calls[t].handler == old(state.calls[t].handler)
      ensures waits ==> MayWait(at) && state.calls[t].pc == at && !Enabled(state, Step(t))
      ensures !waits ==> Moves(at, state.calls[t].pc)
    {
      hide Apply, Reaches, Inv, Moves, Enabled;
      if turns != [] {
        Others(t, turns[0], s0);
        turns := turns[1..];
      }
      waits := !Enabled(state, Step(t));
      if waits {
        if !MayWait(at) { OnlyLocksWait(state, t); }
      } else {
        OwnStep(state, t);
        Do(Step(t), s0);
      }
    }

    /** shutdown.go:81 */
    method Register(handler: nat) returns (t: nat, waits: bool)
      requires Inv(state)
      modifies this
      ensures Inv(state) && Reaches(old(state), state)
      ensures t == |old(state).calls| < |state.calls| && state.calls[t].handler == handler
      ensures waits ==> state.calls[t].pc.GLock? && !Enabled(state, Step(t))
      ensures waits || (state.calls[t].pc.GDone? && state.calls[t].pc.at < |state.handlers|
                        && state.handlers[state.calls[t].pc.at] == handler)
    {
      hide Apply, Reaches, Inv, Enabled;
      ghost var s0 := state;
      Nowhere(s0);
      t := |state.calls|;
      NewCall(state, CallRegister(handler));
      Do(CallRegister(handler), s0);
      waits := Next(t, GLock, s0);
      if waits { return; }
      waits := Next(t, GAppend, s0);
      waits := Next(t, state.calls[t].pc, s0);
      DonePlace(state, t);
    }

    /** The copy, taken while the lock is held, and the countdown. */
    method RunHandlers(t: nat, ghost s0: State)
      requires Inv(state) && Reaches(s0, state) && t < |state.calls| && state.calls[t].pc == SCopy
      modifies this
      ensures Inv(state) && Reaches(s0, state) && t < |state.calls| && state.calls[t].pc.SDone?
    {
      hide Reaches, Inv;
      var waits := Next(t, SCopy, s0);
      waits := Next(t, SUnlock, s0);
      var i := state.calls[t].pc.left - 1;
      while i >= 0
        invariant -1 <= i && t < |state.calls| && state.calls[t].pc == SCall(i + 1)
        invariant Inv(state) && Reaches(s0, state)
      {
        waits := Next(t, SCall(i + 1), s0);
        waits := Next(t, SInside(i), s0);
        i := i - 1;
      }
      waits := Next(t, SCall(0), s0);
    }

    /** shutdown.go:90. When the call returns, every handler of the copy has run, in reverse order. */
    method Shutdown() returns (t: nat, waits: bool)
      requires Inv(state)
      modifies this
      ensures Inv(state) && Reaches(old(state), state)
      ensures t == |old(state).calls| < |state.calls|
      ensures waits ==> (state.calls[t].pc.SOnce? || state.calls[t].pc.SLock?) && !Enabled(state, Step(t))
      ensures waits || (state.calls[t].pc.SDone? && state.log == Backwards(state.snapshot))
    {
      hide Apply, Reaches, Inv, Enabled, Backwards;
      ghost var s0 := state;
      Nowhere(s0);
      t := |state.calls|;
      NewCall(state, CallShutdown);
      Do(CallShutdown, s0);
      waits := Next(t, SOnce, s0);
      if waits { return; }
      if state.calls[t].pc.SLock? {
        waits := Next(t, SLock, s0);
        if waits { return; }
        RunHandlers(t, s0);
      }
      DoneCall(state, t);
    }
  }

  lemma NewCall(s: State, e: Event)
    requires !e.Step?
    ensures Enabled(s, e) && |Apply(s, e).calls| == |s.calls| + 1
    ensures e.CallShutdown? ==> Apply(s, e).calls[|s.calls|].pc == SOnce
    ensures e.CallRegister? ==> Apply(s, e).calls[|s.calls|] == Call(GLock, e.handler)
  {
  }

  lemma DonePlace(s: State, t: nat)
    requires Inv(s) && t < |s.calls| && s.calls[t].pc.GDone?
    ensures s.calls[t].pc.at < |s.handlers| && s.handlers[s.calls[t].pc.at] == s.calls[t].handler
  {
    assert CallOk(s, t);
  }

  lemma DoneCall(s: State, t: nat)
    requires Inv(s) && t < |s.calls| && s.calls[t].pc.SDone?
    ensures s.log == Backwards(s.snapshot)
  {
    assert CallOk(s, t);
  }
}
