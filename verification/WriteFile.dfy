/** The body of WriteFile, with the other calls of the run going on between its system calls. */
module WriteFile {
  import opened AtomicWrite
  import Paths

  /** What the others do before the next system call of this one, and how that turns out: `own` is the
      step it takes, Fail for an error. */
  datatype Turn = Turn(others: seq<Event>, own: Action)

  /** What one system call makes of the call c. */
  predicate Takes(c: Call, t: Thread, a: Action, t': Thread) {
    match a
    case CreateTemp(_) => t.phase.Creating? && t'.phase.Permitting? && t'.written == 0
    case Chmod => t.phase.Permitting? && t'.phase.Copying? && t'.written == t.written
    case Write(n) => t.phase.Copying? && t'.phase.Copying? && 0 < n && t'.written == t.written + n <= |c.data|
    case EndCopy =>
      && t.phase.Copying? && t'.written == t.written
      && t'.phase == if t.written < |c.data| then Returning(false) else Syncing
    case Sync => t.phase.Syncing? && t'.phase.Closing?
    case Close => t.phase.Closing? && t'.phase.Renaming?
    case Rename => t.phase.Renaming? && t'.phase == Returning(true)
    case Fail => t'.phase == Returning(false) && t'.written == t.written
    case _ => false
  }

  lemma OwnStep(job: Job, s: State, i: nat, a: Action)
    requires Enabled(job, s, Event(i, a)) && MayFail(s.threads[i].phase) && a != Crash
    ensures |Apply(job, s, Event(i, a)).threads| == |s.threads|
    ensures Takes(job.calls[i], s.threads[i], a, Apply(job, s, Event(i, a)).threads[i])
  {
  }

  lemma OthersStep(job: Job, s: State, e: Event, i: nat)
    requires Enabled(job, s, e) && e.i != i < |s.threads|
    ensures |Apply(job, s, e).threads| == |s.threads| && Apply(job, s, e).threads[i] == s.threads[i]
  {
  }

  /** The call returns an error exactly when one of its system calls has failed. */
  ghost function Failures(ok: bool): nat { if ok then 0 else 1 }

  /** When the call i took effect, at its place in the order, its target became the file with its data and
      permissions. */
  ghost predicate Puts(job: Job, first: map<Paths.Text, File>, lin: seq<nat>, at: nat, i: nat) {
    && at < |lin| && i < |job.calls| && Known(job, lin[..at + 1])
    && job.calls[i].name in Replay(job, first, lin[..at + 1])
    && IsFileOf(job, i, Replay(job, first, lin[..at + 1])[job.calls[i].name])
  }

  class Disk {
    const job: Job
    var state: State
    var turns: seq<Turn>
    ghost var failures: nat   // how many system calls have failed, or ended a copy early

    constructor (job: Job, state: State, turns: seq<Turn>)
      ensures this.job == job && this.state == state && this.turns == turns && failures == 0
    {
      this.job, this.state, this.turns, failures := job, state, turns, 0;
    }

    /** One step, added to the run that began in s0. */
    method Step(e: Event, ghost s0: State)
      requires Reaches(job, s0, state) && Enabled(job, state, e)
      modifies this`state
      ensures state == Apply(job, old(state), e) && Reaches(job, s0, state)
    {
      hide Apply, Enabled, Reaches;
      ghost var s := Do(job, s0, state, e.i, e.action);
      state := Apply(job, state, e);
    }

    /** The steps the others take, as far as they are possible. */
    method Others(i: nat, events: seq<Event>, ghost s0: State)
      requires Reaches(job, s0, state) && i < |state.threads| == |job.calls|
      modifies this`state
      ensures Reaches(job, s0, state) && |state.threads| == |job.calls| && state.threads[i] == old(state.threads[i])
    {
      hide Apply, Enabled, Reaches;
      for k := 0 to |events|
        invariant Reaches(job, s0, state) && |state.threads| == |job.calls| && state.threads[i] == old(state.threads[i])
      {
        if events[k].i != i && Enabled(job, state, events[k]) {
          OthersStep(job, state, events[k], i);
          Step(events[k], s0);
        }
      }
    }

    /** The system call that the call i makes at this point, after whatever the others do. An impossible step counts
        as an error. */
    method Attempt(i: nat, at: Phase, ghost s0: State) returns (taken: Action)
      requires Reaches(job, s0, state) && i < |state.threads| == |job.calls|
      requires state.threads[i].phase == at && MayFail(at)
      modifies this`state, this`turns, this`failures
      ensures Reaches(job, s0, state) && |state.threads| == |job.calls|
      ensures Takes(job.calls[i], old(state.threads[i]), taken, state.threads[i])
      ensures failures == old(failures) + Failures(state.threads[i].phase != Returning(false))
    {
      hide Apply, Reaches, Takes;
      taken := Fail;
      if turns != [] {
        Others(i, turns[0].others, s0);
        if turns[0].own != Crash && Enabled(job, state, Event(i, turns[0].own)) { taken := turns[0].own; }
        turns := turns[1..];
      }
      OwnStep(job, state, i, taken);
      Step(Event(i, taken), s0);
      if state.threads[i].phase == Returning(false) { failures := failures + 1; }
    }

    /** io.Copy: chunk after chunk until the data is written, the copy ends early or there is an error. */
    method Copy(i: nat, ghost s0: State) returns (n: nat, failed: bool)
      requires Reaches(job, s0, state) && i < |state.threads| == |job.calls|
      requires state.threads[i].phase.Copying? && state.threads[i].written == 0
      modifies this`state, this`turns, this`failures
      ensures Reaches(job, s0, state) && |state.threads| == |job.calls|
      ensures n == state.threads[i].written <= |job.calls[i].data|
      ensures state.threads[i].phase == if failed || n < |job.calls[i].data| then Returning(false) else Syncing
      ensures failures == old(failures) + Failures(!failed && n == |job.calls[i].data|)
    {
      hide Reaches;
      n := 0;
      var taken := Attempt(i, Copying, s0);
      while taken.Write?
        invariant Reaches(job, s0, state) && |state.threads| == |job.calls|
        invariant taken.Write? ==> state.threads[i].phase.Copying?
        invariant taken.Write? ==> state.threads[i].written == n + taken.n <= |job.calls[i].data|
        invariant taken.EndCopy? ==>
                  state.threads[i].phase == if n < |job.calls[i].data| then Returning(false) else Syncing
        invariant taken.Fail? ==> state.threads[i].phase == Returning(false)
        invariant taken.Write? ==> taken.n > 0
        invariant !taken.Write? ==> state.threads[i].written == n <= |job.calls[i].data|
        invariant taken.Write? || taken.EndCopy? || taken.Fail?
        invariant failures == old(failures) + Failures(state.threads[i].phase != Returning(false))
        decreases taken.Write?, |job.calls[i].data| - n
      {
        n := n + taken.n;
        taken := Attempt(i, Copying, s0);
      }
      failed := taken.Fail?;
    }

    /** From the temporary file to the rename. */
    method Run(i: nat, ghost s0: State) returns (ok: bool)
      requires Reaches(job, s0, state) && i < |state.threads| == |job.calls| && state.threads[i].phase.Creating?
      modifies this`state, this`turns, this`failures
      ensures Reaches(job, s0, state) && |state.threads| == |job.calls|
      ensures state.threads[i].phase == Returning(ok)
      ensures failures == old(failures) + Failures(ok)
    {
      hide Reaches;
      var dataSize := |job.calls[i].data|;
      var taken := Attempt(i, Creating, s0);
      if taken.Fail? { return false; }
      taken := Attempt(i, Permitting, s0);
      if taken.Fail? { return false; }
      var n, failed := Copy(i, s0);
      if !failed && n < dataSize { return false; }
      if failed { return false; }
      taken := Attempt(i, Syncing, s0);
      if taken.Fail? { return false; }
      taken := Attempt(i, Closing, s0);
      if taken.Fail? { return false; }
      taken := Attempt(i, Renaming, s0);
      if taken.Fail? { return false; }
      return true;
    }

    /** An error is returned exactly when a system call failed. `ok` tells that it is nil: then the call took effect
        once, while it was going on, and otherwise never. */
    method WriteFile(i: nat, ghost s0: State, ghost before: seq<Event>) returns (ok: bool)
      requires Initial(job, s0) && Separate(job) && ValidRun(job, s0, before) && state == After(job, s0, before)
      requires i < |state.threads| == |job.calls| && state.threads[i].phase.NotCalled?
      modifies this`state, this`turns, this`failures
      ensures Reaches(job, old(state), state)
      ensures |state.threads| == |job.calls| && state.threads[i].phase == Returned(ok)
      ensures failures == old(failures) + Failures(ok)
      ensures old(state).lin <= state.lin
      ensures ok ==> exists at | |old(state).lin| <= at < |state.lin| :: state.lin[at] == i
      ensures !ok ==> i !in state.lin
      ensures WellFormed(state) && Known(job, state.lin) && Visible(state) == Replay(job, Visible(s0), state.lin)
      ensures ok ==> exists at | |old(state).lin| <= at < |state.lin| ::
                       state.lin[at] == i && Puts(job, Visible(s0), state.lin, at, i)
    {
      ghost var s1 := state;
      Nowhere(job, s1);
      Step(Event(i, Begin), s1);
      ok := Run(i, s1);
      Step(Event(i, Return), s1);
      Conclude(job, s0, before, s1, state, i, ok);
    }
  }

  lemma Conclude(job: Job, s0: State, before: seq<Event>, s1: State, s2: State, i: nat, ok: bool)
    requires Initial(job, s0) && Separate(job) && ValidRun(job, s0, before) && s1 == After(job, s0, before)
    requires Reaches(job, s1, s2)
    requires i < |s1.threads| && s1.threads[i].phase.NotCalled? && i < |s2.threads|
              && s2.threads[i].phase == Returned(ok)
    ensures s1.lin <= s2.lin
    ensures ok ==> exists at | |s1.lin| <= at < |s2.lin| :: s2.lin[at] == i
    ensures !ok ==> i !in s2.lin
    ensures WellFormed(s2) && Known(job, s2.lin) && Visible(s2) == Replay(job, Visible(s0), s2.lin)
    ensures ok ==> exists at | |s1.lin| <= at < |s2.lin| :: s2.lin[at] == i && Puts(job, Visible(s0), s2.lin, at, i)
  {
    hide Initial, Separate, Visible, Replay, Puts, IsFileOf;
    var during :| ValidRun(job, s1, during) && After(job, s1, during) == s2;
    TakesEffectOnce(job, s0, before, s1, during, s2, i, ok);
    RunsConcatenate(job, s0, before, during);
    DirectoryIsReplay(job, s0, before + during);
    StartsWellFormed(job, s0);
    if ok {
      var at :| |s1.lin| <= at < |s2.lin| && s2.lin[at] == i;
      EffectPuts(job, Visible(s0), s2.lin, at, i);
    }
  }

  lemma EffectPuts(job: Job, first: map<Paths.Text, File>, lin: seq<nat>, at: nat, i: nat)
    requires Known(job, lin) && at < |lin| && lin[at] == i
    ensures Puts(job, first, lin, at, i)
  {
    hide Wanted, IsFileOf;
    assert lin[..at + 1] == lin[..at] + [i];
    ReplayOneMore(job, first, lin[..at], i);
    WantedIsFileOf(job, i);
  }
}
