/** Concurrent WriteFile calls on the files of one directory, as a transition system: every system call is a step of
    its own, and at any point a call may fail, its process may die, and the others may go on. */
module AtomicWrite {
  import opened Paths

  datatype File = File(data: seq<Byte>, mode: bv32)

  /** The arguments of one call; `name` is the last component of the file name. */
  datatype Call = Call(name: Text, data: seq<Byte>, perm: bv32)

  /** The calls of a run, and the file mode creation mask. */
  datatype Job = Job(calls: seq<Call>, mask: bv32)

  /** What a call is about to do. */
  datatype Phase = NotCalled | Creating | Permitting | Copying | Syncing | Closing | Renaming
                 | Returning(ok: bool) | Returned(ok: bool) | Dead

  /** What became of the temporary file: `at` is the place of the call in the order of all renames. */
  datatype Temp = NoTemp | Private(name: Text, inode: nat) | Published(at: nat)

  datatype Thread = Thread(phase: Phase, temp: Temp, written: nat)

  /** `dir`: which inode lies at a name; `files`: the inodes ever made; `lin`: the calls whose rename took place, in
      order. */
  datatype State = State(dir: map<Text, nat>, files: seq<File>, threads: seq<Thread>, lin: seq<nat>)

  datatype Action = Begin | CreateTemp(random: Text) | Chmod | Write(n: nat) | EndCopy | Sync | Close | Rename
                  | Fail | Return | Crash

  datatype Event = Event(i: nat, action: Action)

  // ---------- Names of temporary files ----------

  const PREFIX: Text := [0x2E, 0x74, 0x6D, 0x70, 0x2D]
  const STAR: Byte := 0x2A
  const PRIVATE_MODE: bv32 := 0x180

  function LastStar(s: Text): (k: int)
    ensures -1 <= k < |s|
    ensures k >= 0 ==> s[k] == STAR
    ensures forall j | k < j < |s| :: s[j] != STAR
  {
    if s == [] then -1 else if s[|s| - 1] == STAR then |s| - 1 else LastStar(s[..|s| - 1])
  }

  const ZERO: Byte := 0x30
  const NINE: Byte := 0x39

  /** The number that decimal digits stand for. */
  function Number(digits: Text): int {
    if digits == [] then 0 else 10 * Number(digits[..|digits| - 1]) + (digits[|digits| - 1] - ZERO)
  }

  /** The decimal form of a random 32-bit number. */
  predicate IsRandom(random: Text) {
    && random != [] && (forall b | b in random :: ZERO <= b <= NINE)
    && (random[0] == ZERO ==> |random| == 1)
    && Number(random) < 0x1_0000_0000
  }

  /** os.CreateTemp puts a random number in the place of the last star of the pattern, or behind the pattern. */
  function TempName(name: Text, random: Text): Text {
    var pattern := PREFIX + name;
    var k := LastStar(pattern);
    if k >= 0 then pattern[..k] + random + pattern[k + 1..] else pattern + random
  }

  lemma LastStarIs(s: Text, k: int)
    requires -1 <= k < |s| && (k >= 0 ==> s[k] == STAR) && forall j | k < j < |s| :: s[j] != STAR
    ensures LastStar(s) == k
  {
  }

  /** Names without a star get the number behind them. */
  lemma NumberBehindName(name: Text, random: Text)
    requires STAR !in name
    ensures TempName(name, random) == [0x2E, 0x74, 0x6D, 0x70, 0x2D] + name + random
  {
    var pattern := PREFIX + name;
    forall j | 0 <= j < |pattern| ensures pattern[j] != STAR {
      if j >= |PREFIX| { assert pattern[j] == name[j - |PREFIX|]; }
    }
    LastStarIs(pattern, -1);
  }

  /** In other names it takes the place of the last star. */
  lemma NumberForStar(a: Text, b: Text, random: Text)
    requires 0x2A !in b
    ensures TempName(a + [0x2A] + b, random) == [0x2E, 0x74, 0x6D, 0x70, 0x2D] + a + random + b
  {
    var pattern, star := PREFIX + (a + [STAR] + b), |PREFIX| + |a|;
    assert pattern == (PREFIX + a) + [STAR] + b;
    forall j | star < j < |pattern| ensures pattern[j] != STAR { assert pattern[j] == b[j - star - 1]; }
    LastStarIs(pattern, star);
    hide LastStar;
    assert pattern[..star] == PREFIX + a && pattern[star + 1..] == b;
  }

  /** A name that CreateTemp may choose for a target; file systems refuse longer ones. */
  ghost predicate IsTemp(temp: Text, name: Text) {
    |temp| <= PATH_COMPONENT_MAX_LENGTH && exists random :: IsRandom(random) && temp == TempName(name, random)
  }

  /** The name leaves room for a temporary one. A call on any other name fails at its first system call. */
  ghost predicate Writable(name: Text) { exists temp :: IsTemp(temp, name) }

  lemma TempNames(temp: Text, name: Text)
    requires IsTemp(temp, name)
    ensures |temp| > |name|
    ensures PREFIX <= temp
  {
  }

  // ---------- Steps ----------

  /** The permissions asked for, without those that the mask forbids. */
  function Mode(job: Job, c: Call): bv32 { !job.mask & c.perm }

  /** The file that a call is to leave behind. */
  function Wanted(job: Job, i: nat): File
    requires i < |job.calls|
  {
    File(job.calls[i].data, Mode(job, job.calls[i]))
  }

  /** Between the beginning of a call and its rename. */
  predicate MayFail(phase: Phase) {
    phase.Creating? || phase.Permitting? || phase.Copying? || phase.Syncing? || phase.Closing? || phase.Renaming?
  }

  predicate Enabled(job: Job, s: State, e: Event) {
    && e.i < |s.threads| == |job.calls|
    && var t := s.threads[e.i];
       match e.action
       case Begin => t.phase.NotCalled?
       case CreateTemp(random) =>
         var n := TempName(job.calls[e.i].name, random);
         t.phase.Creating? && IsRandom(random) && n !in s.dir && |n| <= PATH_COMPONENT_MAX_LENGTH
       case Chmod => t.phase.Permitting? && t.temp.Private? && t.temp.name in s.dir && s.dir[t.temp.name] < |s.files|
       case Write(n) =>
         && t.phase.Copying? && t.temp.Private? && t.temp.inode < |s.files|
         && 0 < n && t.written + n <= |job.calls[e.i].data|
       case EndCopy => t.phase.Copying?
       case Sync => t.phase.Syncing?
       case Close => t.phase.Closing?
       case Rename => t.phase.Renaming? && t.temp.Private? && t.temp.name in s.dir
       case Fail => MayFail(t.phase)
       case Return => t.phase.Returning?
       case Crash => !t.phase.NotCalled? && !t.phase.Returned? && !t.phase.Dead?
  }

  function Go(s: State, i: nat, phase: Phase): State
    requires i < |s.threads|
  {
    s.(threads := s.threads[i := s.threads[i].(phase := phase)])
  }

  /** chmod and rename go by the name of the temporary file, writes go to the open file. */
  function Apply(job: Job, s: State, e: Event): State
    requires Enabled(job, s, e)
  {
    var c, t := job.calls[e.i], s.threads[e.i];
    match e.action
    case Begin => Go(s, e.i, Creating)
    case CreateTemp(random) =>
      var n := TempName(c.name, random);
      s.(dir := s.dir[n := |s.files|], files := s.files + [File([], PRIVATE_MODE)],
         threads := s.threads[e.i := Thread(Permitting, Private(n, |s.files|), 0)])
    case Chmod =>
      var k := s.dir[t.temp.name];
      Go(s, e.i, Copying).(files := s.files[k := s.files[k].(mode := Mode(job, c))])
    case Write(n) =>
      var k := t.temp.inode;
      s.(files := s.files[k := s.files[k].(data := s.files[k].data + c.data[t.written..t.written + n])],
         threads := s.threads[e.i := t.(written := t.written + n)])
    case EndCopy => Go(s, e.i, if t.written < |c.data| then Returning(false) else Syncing)
    case Sync => Go(s, e.i, Closing)
    case Close => Go(s, e.i, Renaming)
    case Rename =>
      State((s.dir - {t.temp.name})[c.name := s.dir[t.temp.name]], s.files,
            s.threads[e.i := Thread(Returning(true), Published(|s.lin|), t.written)], s.lin + [e.i])
    case Fail => Go(s, e.i, Returning(false))
    case Return => Go(s, e.i, Returned(t.phase.ok))
    case Crash => Go(s, e.i, Dead)
  }

  ghost predicate ValidRun(job: Job, s: State, run: seq<Event>)
    decreases |run|
  {
    run == [] || (Enabled(job, s, run[0]) && ValidRun(job, Apply(job, s, run[0]), run[1..]))
  }

  ghost function After(job: Job, s: State, run: seq<Event>): State
    requires ValidRun(job, s, run)
    decreases |run|
  {
    if run == [] then s else After(job, Apply(job, s, run[0]), run[1..])
  }

  /** Any directory, and no call begun. */
  ghost predicate Initial(job: Job, s: State) {
    && WellFormed(s)
    && |s.threads| == |job.calls|
    && (forall i | 0 <= i < |s.threads| :: s.threads[i] == Thread(NotCalled, NoTemp, 0))
    && s.lin == []
  }

  predicate WellFormed(s: State) { forall n | n in s.dir :: s.dir[n] < |s.files| }

  // ---------- The specification: a map that each call updates at once ----------

  ghost predicate Held(s: State, n: Text) {
    exists i :: 0 <= i < |s.threads| && s.threads[i].temp.Private? && s.threads[i].temp.name == n
  }

  /** The directory without the temporary files of calls that did not get to rename them. */
  ghost function Visible(s: State): map<Text, File>
    requires WellFormed(s)
  {
    map n | n in s.dir && !Held(s, n) :: s.files[s.dir[n]]
  }

  ghost predicate Known(job: Job, lin: seq<nat>) { forall p | 0 <= p < |lin| :: lin[p] < |job.calls| }

  ghost function Replay(job: Job, first: map<Text, File>, lin: seq<nat>): map<Text, File>
    requires Known(job, lin)
  {
    if lin == [] then first
    else
      var last := lin[|lin| - 1];
      Replay(job, first, lin[..|lin| - 1])[job.calls[last].name := Wanted(job, last)]
  }

  /** No call can write to a name that CreateTemp may choose for another call. */
  ghost predicate Separate(job: Job) {
    forall i, j | 0 <= i < |job.calls| && 0 <= j < |job.calls| && Writable(job.calls[j].name) ::
      !IsTemp(job.calls[j].name, job.calls[i].name)
  }

  // ---------- Invariant ----------

  /** The call has come to an end, or is about to, without its rename. */
  predicate Failed(phase: Phase) { phase == Returning(false) || phase == Returned(false) || phase.Dead? }

  ghost predicate ThreadOk(job: Job, s: State, i: nat)
    requires i < |s.threads| == |job.calls|
  {
    var c, t := job.calls[i], s.threads[i];
    match t.temp
    case NoTemp => t.phase.NotCalled? || t.phase.Creating? || Failed(t.phase)
    case Private(n, k) =>
      && ((MayFail(t.phase) && !t.phase.Creating?) || Failed(t.phase))
      && IsTemp(n, c.name) && n in s.dir && s.dir[n] == k < |s.files|
      && (t.phase.Permitting? ==> t.written == 0 && s.files[k].data == [])
      && (t.phase.Copying? ==> t.written <= |c.data| && s.files[k] == File(c.data[..t.written], Mode(job, c)))
      && (t.phase.Syncing? || t.phase.Closing? || t.phase.Renaming? ==> s.files[k] == Wanted(job, i))
    case Published(at) =>
      && (t.phase == Returning(true) || t.phase == Returned(true) || t.phase.Dead?)
      && at < |s.lin| && s.lin[at] == i
  }

  /** The inode of a temporary file lies at no other name. */
  ghost predicate OwnName(s: State, i: nat, n: Text)
    requires i < |s.threads|
  {
    var t := s.threads[i].temp;
    t.Private? && n in s.dir && s.dir[n] == t.inode ==> n == t.name
  }

  ghost predicate TempsDiffer(s: State, i: nat, j: nat)
    requires i < |s.threads| && j < |s.threads|
  {
    var t, u := s.threads[i].temp, s.threads[j].temp;
    i != j && t.Private? && u.Private? ==> t.name != u.name
  }

  ghost predicate OrderOk(s: State, p: nat)
    requires p < |s.lin|
  {
    s.lin[p] < |s.threads| && s.threads[s.lin[p]].temp == Published(p)
  }

  /** What lies at the name n is what the map of the specification holds there. */
  ghost predicate NameOk(s: State, spec: map<Text, File>, n: Text)
    requires WellFormed(s)
  {
    && ((n in s.dir && !Held(s, n)) <==> n in spec)
    && (n in spec ==> s.files[s.dir[n]] == spec[n])
  }

  ghost predicate Inv(job: Job, first: map<Text, File>, s: State) {
    && WellFormed(s) && |s.threads| == |job.calls| && Known(job, s.lin)
    && (forall i: nat | i < |s.threads| :: ThreadOk(job, s, i))
    && (forall i: nat, n: Text | i < |s.threads| :: OwnName(s, i, n))
    && (forall i: nat, j: nat | i < |s.threads| && j < |s.threads| :: TempsDiffer(s, i, j))
    && (forall p: nat | p < |s.lin| :: OrderOk(s, p))
    && (forall n: Text :: NameOk(s, Replay(job, first, s.lin), n))
  }

  lemma InitiallyInv(job: Job, s: State)
    requires Initial(job, s)
    ensures Inv(job, Visible(s), s)
  {
  }

  // ---------- Every step keeps the invariant ----------

  /** Steps that change nothing but the phase of their call. */
  predicate IsSilent(a: Action) { !a.CreateTemp? && !a.Chmod? && !a.Write? && !a.Rename? }

  lemma SilentThread(job: Job, s: State, e: Event, i: nat)
    requires Enabled(job, s, e) && IsSilent(e.action) && i < |s.threads| && ThreadOk(job, s, i)
    ensures ThreadOk(job, Apply(job, s, e), i)
  {
    if i != e.i { OtherThread(job, s, e, i); }
    else if e.action.EndCopy? { EndCopyThread(job, s, e); }
    else if e.action.Sync? || e.action.Close? { SyncedThread(job, s, e); }
    else { PhaseThread(job, s, e); }
  }

  lemma OtherThread(job: Job, s: State, e: Event, i: nat)
    requires Enabled(job, s, e) && IsSilent(e.action) && i < |s.threads| && ThreadOk(job, s, i) && i != e.i
    ensures ThreadOk(job, Apply(job, s, e), i)
  {
    hide IsTemp, Wanted;
    SilentEffect(job, s, e);
    assert Apply(job, s, e).threads[i] == s.threads[i];
    hide Apply, Enabled;
  }

  lemma EndCopyThread(job: Job, s: State, e: Event)
    requires Enabled(job, s, e) && e.action.EndCopy? && ThreadOk(job, s, e.i)
    ensures ThreadOk(job, Apply(job, s, e), e.i)
  {
    hide ThreadOk;
    if s.threads[e.i].written < |job.calls[e.i].data| { ShortCopy(job, s, e.i); } else { WholeCopy(job, s, e.i); }
  }

  lemma ShortCopy(job: Job, s: State, i: nat)
    requires i < |s.threads| == |job.calls| && s.threads[i].phase.Copying? && ThreadOk(job, s, i)
    ensures ThreadOk(job, Go(s, i, Returning(false)), i)
  {
    hide IsTemp, Wanted;
  }

  lemma WholeCopy(job: Job, s: State, i: nat)
    requires i < |s.threads| == |job.calls| && s.threads[i].phase.Copying? && ThreadOk(job, s, i)
    requires s.threads[i].written >= |job.calls[i].data|
    ensures ThreadOk(job, Go(s, i, Syncing), i)
  {
    FileIsWritten(job, s, i);
    hide IsTemp, Wanted, Mode;
  }

  /** Once all the data is written, the temporary file is the file asked for. */
  lemma FileIsWritten(job: Job, s: State, i: nat)
    requires i < |s.threads| == |job.calls| && s.threads[i].phase.Copying? && ThreadOk(job, s, i)
    requires s.threads[i].written >= |job.calls[i].data|
    ensures s.threads[i].temp.Private? && s.threads[i].temp.inode < |s.files|
    ensures s.files[s.threads[i].temp.inode] == Wanted(job, i)
  {
    hide IsTemp, Mode;
    WholeFile(job.calls[i].data, s.threads[i].written, Mode(job, job.calls[i]));
  }

  lemma WholeFile(data: seq<Byte>, n: nat, mode: bv32)
    requires n == |data|
    ensures File(data[..n], mode) == File(data, mode)
  {
    assert data[..n] == data;
  }

  lemma SyncedThread(job: Job, s: State, e: Event)
    requires Enabled(job, s, e) && (e.action.Sync? || e.action.Close?) && ThreadOk(job, s, e.i)
    ensures ThreadOk(job, Apply(job, s, e), e.i)
  {
    hide IsTemp, Wanted;
  }

  lemma PhaseThread(job: Job, s: State, e: Event)
    requires Enabled(job, s, e) && ThreadOk(job, s, e.i)
    requires e.action.Begin? || e.action.Fail? || e.action.Return? || e.action.Crash?
    ensures ThreadOk(job, Apply(job, s, e), e.i)
  {
    hide IsTemp, Wanted;
  }

  lemma SilentEffect(job: Job, s: State, e: Event)
    requires Enabled(job, s, e) && IsSilent(e.action)
    ensures Apply(job, s, e).dir == s.dir && Apply(job, s, e).files == s.files && Apply(job, s, e).lin == s.lin
    ensures SameTemps(s, Apply(job, s, e))
  {
  }

  ghost predicate SameTemps(s: State, s': State) {
    |s'.threads| == |s.threads| && forall j: nat | j < |s.threads| :: s'.threads[j].temp == s.threads[j].temp
  }

  lemma SilentKeepsInv(job: Job, first: map<Text, File>, s: State, e: Event)
    requires Inv(job, first, s) && Enabled(job, s, e) && IsSilent(e.action)
    ensures Inv(job, first, Apply(job, s, e))
  {
    hide IsTemp, Replay, ThreadOk, Apply, Enabled;
    var s' := Apply(job, s, e);
    SilentEffect(job, s, e);
    forall i: nat | i < |s'.threads| ensures ThreadOk(job, s', i) { SilentThread(job, s, e, i); }
    forall i: nat, n: Text | i < |s'.threads| ensures OwnName(s', i, n) { assert OwnName(s, i, n); }
    forall i: nat, j: nat | i < |s'.threads| && j < |s'.threads| ensures TempsDiffer(s', i, j) {
      assert TempsDiffer(s, i, j);
    }
    forall p: nat | p < |s'.lin| ensures OrderOk(s', p) { assert OrderOk(s, p); }
    forall n: Text ensures NameOk(s', Replay(job, first, s'.lin), n) {
      assert NameOk(s, Replay(job, first, s.lin), n);
      assert Held(s', n) <==> Held(s, n);
    }
  }

  // CreateTemp

  lemma CreateKeepsInv(job: Job, first: map<Text, File>, s: State, e: Event)
    requires Inv(job, first, s) && Enabled(job, s, e) && e.action.CreateTemp?
    ensures Inv(job, first, Apply(job, s, e))
  {
    hide IsTemp, Replay;
    var s' := Apply(job, s, e);
    var n0 := TempName(job.calls[e.i].name, e.action.random);
    forall i: nat | i < |s'.threads| ensures ThreadOk(job, s', i) {
      assert ThreadOk(job, s, i);
      assert IsTemp(n0, job.calls[e.i].name) by { NameIsTemp(job.calls[e.i].name, e.action.random); }
    }
    forall i: nat, n: Text | i < |s'.threads| ensures OwnName(s', i, n) {
      assert OwnName(s, i, n) && ThreadOk(job, s, i);
    }
    forall i: nat, j: nat | i < |s'.threads| && j < |s'.threads| ensures TempsDiffer(s', i, j) {
      assert TempsDiffer(s, i, j) && ThreadOk(job, s, i) && ThreadOk(job, s, j);
    }
    forall p: nat | p < |s'.lin| ensures OrderOk(s', p) { assert OrderOk(s, p) && ThreadOk(job, s, e.i); }
    forall n: Text ensures NameOk(s', Replay(job, first, s'.lin), n) {
      assert NameOk(s, Replay(job, first, s.lin), n);
      HeldAfterCreate(job, s, e, n);
    }
  }

  lemma NameIsTemp(name: Text, random: Text)
    requires IsRandom(random) && |TempName(name, random)| <= PATH_COMPONENT_MAX_LENGTH
    ensures IsTemp(TempName(name, random), name)
  {
  }

  lemma HeldAfterCreate(job: Job, s: State, e: Event, n: Text)
    requires Enabled(job, s, e) && e.action.CreateTemp? && ThreadOk(job, s, e.i)
    ensures Held(Apply(job, s, e), n) <==> Held(s, n) || n == TempName(job.calls[e.i].name, e.action.random)
  {
    hide IsTemp, TempName;
    var s' := Apply(job, s, e);
    if Held(s, n) {
      var i :| 0 <= i < |s.threads| && s.threads[i].temp.Private? && s.threads[i].temp.name == n;
      assert s'.threads[i].temp.Private?;
    }
    if n == TempName(job.calls[e.i].name, e.action.random) { assert s'.threads[e.i].temp.name == n; }
  }

  // Chmod and Write

  predicate ChangesContent(a: Action) { a.Chmod? || a.Write? }

  lemma ContentEffect(job: Job, s: State, e: Event)
    requires Enabled(job, s, e) && ChangesContent(e.action) && ThreadOk(job, s, e.i)
    ensures s.threads[e.i].temp.Private?
    ensures
      var s', k := Apply(job, s, e), s.threads[e.i].temp.inode;
      && s'.dir == s.dir && s'.lin == s.lin && SameTemps(s, s') && |s'.files| == |s.files|
      && (forall j: nat | j < |s.files| && j != k :: s'.files[j] == s.files[j])
      && (forall j: nat | j < |s.threads| && j != e.i :: s'.threads[j] == s.threads[j])
  {
    hide IsTemp;
  }

  lemma ContentThread(job: Job, s: State, e: Event)
    requires Enabled(job, s, e) && ChangesContent(e.action) && ThreadOk(job, s, e.i)
    ensures ThreadOk(job, Apply(job, s, e), e.i)
  {
    hide IsTemp;
    var t, data := s.threads[e.i], job.calls[e.i].data;
    if e.action.Write? {
      var n := e.action.n;
      assert data[..t.written] + data[t.written..t.written + n] == data[..t.written + n];
    }
  }

  /** Two temporary files are two inodes. */
  lemma InodesDiffer(job: Job, s: State, i: nat, j: nat)
    requires i < |s.threads| == |job.calls| && j < |s.threads| && i != j
    requires s.threads[i].temp.Private? && s.threads[j].temp.Private?
    requires ThreadOk(job, s, i) && OwnName(s, j, s.threads[i].temp.name) && TempsDiffer(s, i, j)
    ensures s.threads[i].temp.inode != s.threads[j].temp.inode
  {
    hide IsTemp;
  }

  lemma ContentKeepsInv(job: Job, first: map<Text, File>, s: State, e: Event)
    requires Inv(job, first, s) && Enabled(job, s, e) && ChangesContent(e.action)
    ensures Inv(job, first, Apply(job, s, e))
  {
    hide IsTemp, Replay, Apply;
    var s' := Apply(job, s, e);
    assert ThreadOk(job, s, e.i);
    ContentEffect(job, s, e);
    var t := s.threads[e.i].temp;
    forall i: nat | i < |s'.threads| ensures ThreadOk(job, s', i) {
      assert ThreadOk(job, s, i);
      if i == e.i {
        ContentThread(job, s, e);
      } else if s.threads[i].temp.Private? {
        InodesDiffer(job, s, i, e.i);
      }
    }
    forall i: nat, n: Text | i < |s'.threads| ensures OwnName(s', i, n) { assert OwnName(s, i, n); }
    forall i: nat, j: nat | i < |s'.threads| && j < |s'.threads| ensures TempsDiffer(s', i, j) {
      assert TempsDiffer(s, i, j);
    }
    forall p: nat | p < |s'.lin| ensures OrderOk(s', p) { assert OrderOk(s, p); }
    forall n: Text ensures NameOk(s', Replay(job, first, s'.lin), n) {
      assert NameOk(s, Replay(job, first, s.lin), n);
      assert Held(s', n) <==> Held(s, n);
      assert OwnName(s, e.i, n);
    }
  }

  // Rename

  lemma RenameEffect(job: Job, s: State, e: Event)
    requires Enabled(job, s, e) && e.action.Rename? && ThreadOk(job, s, e.i)
    ensures
      var t, m, s' := s.threads[e.i].temp, job.calls[e.i].name, Apply(job, s, e);
      && t.Private? && IsTemp(t.name, m) && t.inode < |s.files| && s.files[t.inode] == Wanted(job, e.i)
      && m in s'.dir && s'.dir[m] == t.inode
      && (forall n | n != m :: n in s'.dir <==> n in s.dir && n != t.name)
      && (forall n | n != m && n in s'.dir :: s'.dir[n] == s.dir[n])
      && s'.files == s.files && s'.lin == s.lin + [e.i] && |s'.threads| == |s.threads|
      && s'.threads[e.i].phase == Returning(true) && s'.threads[e.i].temp == Published(|s.lin|)
      && (forall j: nat | j < |s.threads| && j != e.i :: s'.threads[j] == s.threads[j])
  {
    hide IsTemp;
  }

  lemma HeldAfterRename(job: Job, s: State, e: Event, n: Text)
    requires Enabled(job, s, e) && e.action.Rename? && ThreadOk(job, s, e.i)
    requires forall j: nat | j < |s.threads| :: TempsDiffer(s, j, e.i)
    ensures Held(Apply(job, s, e), n) <==> Held(s, n) && n != s.threads[e.i].temp.name
  {
    hide Apply, ThreadOk;
    var s' := Apply(job, s, e);
    RenameEffect(job, s, e);
    if Held(s', n) {
      var i: nat :| i < |s'.threads| && s'.threads[i].temp.Private? && s'.threads[i].temp.name == n;
      assert TempsDiffer(s, i, e.i);
      assert s.threads[i].temp.Private? && s.threads[i].temp.name == n;
    }
    if Held(s, n) && n != s.threads[e.i].temp.name {
      var i: nat :| i < |s.threads| && s.threads[i].temp.Private? && s.threads[i].temp.name == n;
      assert s'.threads[i].temp.name == n;
    }
  }

  lemma RenamedIsWritable(job: Job, s: State, i: nat)
    requires i < |s.threads| == |job.calls| && ThreadOk(job, s, i) && s.threads[i].temp.Private?
    ensures Writable(job.calls[i].name)
  {
    hide IsTemp;
  }

  /** No call keeps a temporary file at the name that another call can write to. */
  lemma TargetIsNotHeld(job: Job, first: map<Text, File>, s: State, i: nat)
    requires Inv(job, first, s) && Separate(job) && i < |job.calls| && Writable(job.calls[i].name)
    ensures !Held(s, job.calls[i].name)
  {
    hide IsTemp, Replay;
    var m := job.calls[i].name;
    forall j: nat | j < |s.threads| && s.threads[j].temp.Private? ensures s.threads[j].temp.name != m {
      assert ThreadOk(job, s, j);
      assert !IsTemp(m, job.calls[j].name);
    }
  }

  lemma RenameThread(job: Job, first: map<Text, File>, s: State, e: Event, i: nat)
    requires Inv(job, first, s) && Separate(job) && Enabled(job, s, e) && e.action.Rename? && i < |s.threads|
    ensures ThreadOk(job, Apply(job, s, e), i)
  {
    hide IsTemp, Replay, Apply;
    assert ThreadOk(job, s, i) && ThreadOk(job, s, e.i);
    RenameEffect(job, s, e);
    RenamedIsWritable(job, s, e.i);
    TargetIsNotHeld(job, first, s, e.i);
    assert TempsDiffer(s, i, e.i);
  }

  lemma RenameOwnName(job: Job, first: map<Text, File>, s: State, e: Event, i: nat, n: Text)
    requires Inv(job, first, s) && Enabled(job, s, e) && e.action.Rename? && i < |s.threads|
    ensures OwnName(Apply(job, s, e), i, n)
  {
    hide IsTemp, Replay, Apply;
    assert ThreadOk(job, s, i) && ThreadOk(job, s, e.i);
    RenameEffect(job, s, e);
    assert OwnName(s, i, n);
    if i != e.i && s.threads[i].temp.Private? { InodesDiffer(job, s, i, e.i); }
  }

  lemma ReplayOneMore(job: Job, first: map<Text, File>, lin: seq<nat>, i: nat)
    requires Known(job, lin) && i < |job.calls|
    ensures Known(job, lin + [i])
    ensures Replay(job, first, lin + [i]) == Replay(job, first, lin)[job.calls[i].name := Wanted(job, i)]
  {
    assert (lin + [i])[..|lin|] == lin;
  }

  lemma RenameName(job: Job, first: map<Text, File>, s: State, e: Event, n: Text)
    requires Inv(job, first, s) && Separate(job) && Enabled(job, s, e) && e.action.Rename?
    ensures Known(job, s.lin + [e.i]) && WellFormed(Apply(job, s, e))
    ensures NameOk(Apply(job, s, e), Replay(job, first, s.lin + [e.i]), n)
  {
    hide IsTemp, Replay, Apply, Wanted;
    assert ThreadOk(job, s, e.i);
    RenameEffect(job, s, e);
    ReplayOneMore(job, first, s.lin, e.i);
    RenamedIsWritable(job, s, e.i);
    TargetIsNotHeld(job, first, s, e.i);
    assert NameOk(s, Replay(job, first, s.lin), n);
    HeldAfterRename(job, s, e, n);
    assert Held(s, s.threads[e.i].temp.name);
  }

  lemma RenameKeepsInv(job: Job, first: map<Text, File>, s: State, e: Event)
    requires Inv(job, first, s) && Separate(job) && Enabled(job, s, e) && e.action.Rename?
    ensures Inv(job, first, Apply(job, s, e))
  {
    var s' := Apply(job, s, e);
    forall i: nat | i < |s'.threads| ensures ThreadOk(job, s', i) { RenameThread(job, first, s, e, i); }
    forall i: nat, n: Text | i < |s'.threads| ensures OwnName(s', i, n) { RenameOwnName(job, first, s, e, i, n); }
    hide IsTemp, Replay, Apply, NameOk, OwnName;
    assert ThreadOk(job, s, e.i);
    RenameEffect(job, s, e);
    forall i: nat, j: nat | i < |s'.threads| && j < |s'.threads| ensures TempsDiffer(s', i, j) {
      assert TempsDiffer(s, i, j);
    }
    forall p: nat | p < |s'.lin| ensures OrderOk(s', p) { if p < |s.lin| { assert OrderOk(s, p); } }
    RenameName(job, first, s, e, []);
    forall n: Text ensures NameOk(s', Replay(job, first, s'.lin), n) { RenameName(job, first, s, e, n); }
  }

  lemma StepKeepsInv(job: Job, first: map<Text, File>, s: State, e: Event)
    requires Inv(job, first, s) && Separate(job) && Enabled(job, s, e)
    ensures Inv(job, first, Apply(job, s, e))
  {
    hide Inv, Apply, Enabled, Separate;
    if IsSilent(e.action) { SilentKeepsInv(job, first, s, e); }
    else if ChangesContent(e.action) { ContentKeepsInv(job, first, s, e); }
    else if e.action.CreateTemp? { CreateKeepsInv(job, first, s, e); }
    else { RenameKeepsInv(job, first, s, e); }
  }

  lemma {:induction false} RunKeepsInv(job: Job, first: map<Text, File>, s: State, run: seq<Event>)
    requires Inv(job, first, s) && Separate(job) && ValidRun(job, s, run)
    ensures Inv(job, first, After(job, s, run))
    decreases |run|
  {
    hide Inv, Apply, Enabled, Separate;
    if run != [] {
      StepKeepsInv(job, first, s, run[0]);
      RunKeepsInv(job, first, Apply(job, s, run[0]), run[1..]);
    }
  }

  // ---------- Every call takes effect at once, or not at all ----------

  /** At every moment of every run the directory is what the calls in `lin`, each done at once, make of it:
      a call that has not renamed its file shows in no other way than by its temporary file. */
  lemma DirectoryIsReplay(job: Job, s0: State, run: seq<Event>)
    requires Initial(job, s0) && Separate(job) && ValidRun(job, s0, run)
    ensures
      var s := After(job, s0, run);
      WellFormed(s) && Known(job, s.lin) && Visible(s) == Replay(job, Visible(s0), s.lin)
  {
    hide Replay, After, Separate, ThreadOk, OwnName, TempsDiffer, OrderOk, Held;
    var s := After(job, s0, run);
    RunReaches(job, s0, run);
    var spec := Replay(job, Visible(s0), s.lin);
    assert forall n :: n in Visible(s) <==> n in spec by {
      forall n ensures n in Visible(s) <==> n in spec { assert NameOk(s, spec, n); }
    }
    forall n | n in Visible(s) ensures Visible(s)[n] == spec[n] { assert NameOk(s, spec, n); }
  }

  lemma RunReaches(job: Job, s0: State, run: seq<Event>)
    requires Initial(job, s0) && Separate(job) && ValidRun(job, s0, run)
    ensures Inv(job, Visible(s0), After(job, s0, run))
  {
    InitiallyInv(job, s0);
    RunKeepsInv(job, Visible(s0), s0, run);
  }

  lemma {:induction false} ReplayAt(job: Job, first: map<Text, File>, lin: seq<nat>, m: Text)
    requires Known(job, lin)
    ensures
      || ((forall p | 0 <= p < |lin| :: job.calls[lin[p]].name != m)
          && (m in Replay(job, first, lin) <==> m in first)
          && (m in first ==> Replay(job, first, lin)[m] == first[m]))
      || (exists i | 0 <= i < |job.calls| ::
            && i in lin && job.calls[i].name == m
            && m in Replay(job, first, lin) && Replay(job, first, lin)[m] == Wanted(job, i))
  {
    hide Wanted;
    if lin != [] {
      var last := lin[|lin| - 1];
      if job.calls[last].name == m {
        assert last in lin;
      } else {
        ReplayAt(job, first, lin[..|lin| - 1], m);
        assert forall p | 0 <= p < |lin| - 1 :: lin[p] == lin[..|lin| - 1][p];
      }
    }
  }

  /** The file has the data of call j and its permissions: none that the mask forbids, and of the others those that
      were asked for. */
  ghost predicate IsFileOf(job: Job, j: nat, file: File)
    requires j < |job.calls|
  {
    && file.data == job.calls[j].data
    && file.mode & job.mask == 0
    && file.mode | job.mask == job.calls[j].perm | job.mask
  }

  lemma WantedIsFileOf(job: Job, j: nat)
    requires j < |job.calls|
    ensures IsFileOf(job, j, Wanted(job, j))
  {
    ModeBits(job, job.calls[j]);
    hide Mode;
  }

  lemma ModeBits(job: Job, c: Call)
    ensures Mode(job, c) & job.mask == 0 && Mode(job, c) | job.mask == c.perm | job.mask
  {
    MaskedBits(job.mask, c.perm);
  }

  lemma MaskedBits(mask: bv32, perm: bv32)
    ensures (!mask & perm) & mask == 0 && (!mask & perm) | mask == perm | mask
  {
  }

  /** A target that can be written holds what it held at first, or the whole data of one call on it, with the
      permissions asked for: never a part, never a mixture. */
  lemma TargetIsWhole(job: Job, s0: State, run: seq<Event>, i: nat)
    requires Initial(job, s0) && Separate(job) && ValidRun(job, s0, run)
    requires i < |job.calls| && Writable(job.calls[i].name)
    ensures
      var s, m := After(job, s0, run), job.calls[i].name;
      || ((m in s.dir <==> m in s0.dir)
          && (m in s.dir ==> s.dir[m] < |s.files| && s.files[s.dir[m]] == s0.files[s0.dir[m]]))
      || (exists j | 0 <= j < |job.calls| ::
            && j in s.lin && job.calls[j].name == m
            && m in s.dir && s.dir[m] < |s.files| && IsFileOf(job, j, s.files[s.dir[m]]))
  {
    hide Replay, After, Separate, ValidRun, ThreadOk, OwnName, TempsDiffer, OrderOk, Wanted, Writable, IsFileOf;
    forall j: nat | j < |job.calls| ensures IsFileOf(job, j, Wanted(job, j)) { WantedIsFileOf(job, j); }
    var s, m := After(job, s0, run), job.calls[i].name;
    RunReaches(job, s0, run);
    TargetIsNotHeld(job, Visible(s0), s, i);
    assert NameOk(s, Replay(job, Visible(s0), s.lin), m);
    ReplayAt(job, Visible(s0), s.lin, m);
    assert m in Visible(s0) <==> m in s0.dir;
  }

  lemma StepExtendsOrder(job: Job, s: State, e: Event)
    requires Enabled(job, s, e)
    ensures s.lin <= Apply(job, s, e).lin && |Apply(job, s, e).threads| == |s.threads|
  {
  }

  lemma {:induction false} RunExtendsOrder(job: Job, s: State, run: seq<Event>)
    requires ValidRun(job, s, run)
    ensures s.lin <= After(job, s, run).lin && |After(job, s, run).threads| == |s.threads|
    decreases |run|
  {
    hide Apply, Enabled;
    if run != [] {
      StepExtendsOrder(job, s, run[0]);
      RunExtendsOrder(job, Apply(job, s, run[0]), run[1..]);
    }
  }

  lemma {:induction false} RunsConcatenate(job: Job, s: State, run: seq<Event>, more: seq<Event>)
    requires ValidRun(job, s, run) && ValidRun(job, After(job, s, run), more)
    ensures ValidRun(job, s, run + more) && After(job, s, run + more) == After(job, After(job, s, run), more)
    decreases |run|
  {
    hide Apply, Enabled;
    if run == [] {
      assert run + more == more;
    } else {
      RunsConcatenate(job, Apply(job, s, run[0]), run[1..], more);
      assert (run + more)[1..] == run[1..] + more;
    }
  }

  /** Linearizability: a call that began after the first part of a run and returned nil by the end of the second
      has exactly one place in the order of effects, and it lies between; a call that returned an error has none.
      The order only ever grows at its end, so a call that returned before another began precedes it. */
  lemma TakesEffectOnce(job: Job, s0: State, before: seq<Event>, s1: State, during: seq<Event>, s2: State, i: nat,
                        ok: bool)
    requires Initial(job, s0) && Separate(job)
    requires ValidRun(job, s0, before) && s1 == After(job, s0, before)
    requires ValidRun(job, s1, during) && s2 == After(job, s1, during)
    requires i < |s1.threads| && s1.threads[i].phase == NotCalled
    requires i < |s2.threads| && s2.threads[i].phase == Returned(ok)
    ensures s1.lin <= s2.lin
    ensures ok ==> exists at | |s1.lin| <= at < |s2.lin| :: s2.lin[at] == i
    ensures !ok ==> i !in s2.lin
    ensures forall p, q | 0 <= p < |s2.lin| && 0 <= q < |s2.lin| && s2.lin[p] == s2.lin[q] :: p == q
  {
    hide After, ValidRun, Separate, NameOk, OwnName, TempsDiffer, Replay, IsTemp, Visible, WellFormed;
    RunReaches(job, s0, before);
    RunKeepsInv(job, Visible(s0), s1, during);
    RunExtendsOrder(job, s1, during);
    assert ThreadOk(job, s1, i) && ThreadOk(job, s2, i);
    forall p, q | 0 <= p < |s2.lin| && 0 <= q < |s2.lin| && s2.lin[p] == s2.lin[q] ensures p == q {
      assert OrderOk(s2, p) && OrderOk(s2, q);
    }
    assert forall p: nat | p < |s1.lin| :: OrderOk(s1, p) ==> s1.lin[p] != i;
    assert forall p: nat | p < |s2.lin| :: OrderOk(s2, p) && !ok ==> s2.lin[p] != i;
    if ok {
      assert s2.lin[s2.threads[i].temp.at] == i;
      assert s1.lin == s2.lin[..|s1.lin|];
    }
  }

  /** A temporary file stays behind for each call that made one and did not return nil, and for no other. */
  lemma LeftOversAreOfFailedCalls(job: Job, s0: State, run: seq<Event>, n: Text)
    requires Initial(job, s0) && Separate(job) && ValidRun(job, s0, run)
    ensures
      var s := After(job, s0, run);
      && Known(job, s.lin)
      && (n in s.dir && n !in Replay(job, Visible(s0), s.lin) <==> Held(s, n))
      && (Held(s, n) ==> exists i | 0 <= i < |s.threads| :: s.threads[i].temp.Private? && s.threads[i].temp.name == n
                                    && s.threads[i].phase != Returned(true))
  {
    hide After, ValidRun, Separate, OwnName, TempsDiffer, OrderOk, Replay, IsTemp, Visible;
    var s := After(job, s0, run);
    RunReaches(job, s0, run);
    assert NameOk(s, Replay(job, Visible(s0), s.lin), n);
    if Held(s, n) {
      var i: nat :| i < |s.threads| && s.threads[i].temp.Private? && s.threads[i].temp.name == n;
      assert ThreadOk(job, s, i);
    }
  }

  // ---------- Readers ----------

  /** No call still has the inode as its temporary file. */
  ghost predicate Settled(s: State, k: nat) {
    k < |s.files| && forall i: nat | i < |s.threads| :: s.threads[i].temp.Private? ==> s.threads[i].temp.inode != k
  }

  lemma StepKeepsSettled(job: Job, first: map<Text, File>, s: State, e: Event, k: nat)
    requires Inv(job, first, s) && Enabled(job, s, e) && Settled(s, k)
    ensures Settled(Apply(job, s, e), k) && Apply(job, s, e).files[k] == s.files[k]
  {
    hide IsTemp, NameOk, OwnName, TempsDiffer, OrderOk, Replay;
    assert ThreadOk(job, s, e.i);
    if IsSilent(e.action) {
      SilentEffect(job, s, e);
      hide Apply, Enabled, ThreadOk;
    } else if ChangesContent(e.action) {
      ContentEffect(job, s, e);
      hide Apply, Enabled, ThreadOk;
    } else if e.action.Rename? {
      RenameEffect(job, s, e);
      hide Apply, Enabled, ThreadOk;
    }
  }

  lemma {:induction false} RunKeepsSettled(job: Job, first: map<Text, File>, s: State, run: seq<Event>, k: nat)
    requires Inv(job, first, s) && Separate(job) && ValidRun(job, s, run) && Settled(s, k)
    ensures k < |After(job, s, run).files| && After(job, s, run).files[k] == s.files[k]
    decreases |run|
  {
    hide Apply, Enabled, Inv, Separate;
    if run != [] {
      StepKeepsInv(job, first, s, run[0]);
      StepKeepsSettled(job, first, s, run[0], k);
      RunKeepsSettled(job, first, Apply(job, s, run[0]), run[1..], k);
    }
  }

  /** Who has opened a file, other than a temporary one, reads the same bytes for the rest of the run, whatever the
      calls do meanwhile. */
  lemma OpenedFileNeverChanges(job: Job, s0: State, before: seq<Event>, s1: State, after: seq<Event>, n: Text)
    requires Initial(job, s0) && Separate(job) && ValidRun(job, s0, before) && s1 == After(job, s0, before)
    requires ValidRun(job, s1, after) && n in s1.dir && !Held(s1, n)
    ensures var k := s1.dir[n];
            k < |s1.files| && k < |After(job, s1, after).files| && After(job, s1, after).files[k] == s1.files[k]
  {
    RunReaches(job, s0, before);
    hide After, ValidRun, Separate, NameOk, TempsDiffer, OrderOk, Replay, IsTemp, Visible;
    forall j: nat | j < |s1.threads| && s1.threads[j].temp.Private? ensures s1.threads[j].temp.inode != s1.dir[n] {
      assert OwnName(s1, j, n);
    }
    RunKeepsSettled(job, Visible(s0), s1, after, s1.dir[n]);
  }

  /** A target that can be written is no temporary file. */
  lemma TargetIsNotTemporary(job: Job, s0: State, run: seq<Event>, i: nat)
    requires Initial(job, s0) && Separate(job) && ValidRun(job, s0, run)
    requires i < |job.calls| && Writable(job.calls[i].name)
    ensures !Held(After(job, s0, run), job.calls[i].name)
  {
    hide Separate, Writable;
    RunReaches(job, s0, run);
    TargetIsNotHeld(job, Visible(s0), After(job, s0, run), i);
  }

  // ---------- When target names and temporary names clash ----------

  predicate AtRest(s: State) {
    forall i | 0 <= i < |s.threads| :: s.threads[i].phase.NotCalled? || s.threads[i].phase.Returned?
  }

  /** Whatever happens, once no call is in progress the directory is what the calls that took effect made of it. */
  ghost predicate Atomic(job: Job) {
    forall s0, run | Initial(job, s0) && ValidRun(job, s0, run) && AtRest(After(job, s0, run)) ::
      IsReplay(job, s0, After(job, s0, run))
  }

  ghost predicate IsReplay(job: Job, s0: State, s: State)
    requires WellFormed(s0)
  {
    WellFormed(s) && Known(job, s.lin) && Visible(s) == Replay(job, Visible(s0), s.lin)
  }

  /** WriteFile is atomic for exactly those sets of calls in which no target that can be written has a name that
      CreateTemp may choose for another. */
  lemma AtomicIffSeparate(job: Job)
    ensures Atomic(job) <==> Separate(job)
  {
    hide IsTemp, Visible, Replay, WellFormed, Known, Writable;
    if Separate(job) {
      forall s0, run | Initial(job, s0) && ValidRun(job, s0, run) && AtRest(After(job, s0, run))
        ensures IsReplay(job, s0, After(job, s0, run))
      {
        DirectoryIsReplay(job, s0, run);
      }
    } else {
      var i, j :| 0 <= i < |job.calls| && 0 <= j < |job.calls|
                  && Writable(job.calls[j].name) && IsTemp(job.calls[j].name, job.calls[i].name);
      ClashBreaks(job, i, j);
    }
  }

  lemma OneTargetIsSeparate(job: Job, m: Text)
    requires forall i | 0 <= i < |job.calls| :: job.calls[i].name == m
    ensures Separate(job)
  {
    hide IsTemp;
    if IsTemp(m, m) { TempNames(m, m); }
  }

  lemma OrdinaryTargetsAreSeparate(job: Job)
    requires forall i | 0 <= i < |job.calls| :: !(PREFIX <= job.calls[i].name)
    ensures Separate(job)
  {
    hide IsTemp;
    forall i, j | 0 <= i < |job.calls| && 0 <= j < |job.calls| ensures !IsTemp(job.calls[j].name, job.calls[i].name) {
      if IsTemp(job.calls[j].name, job.calls[i].name) { TempNames(job.calls[j].name, job.calls[i].name); }
    }
  }

  /** Some run leads from s0 to s. */
  ghost predicate Reaches(job: Job, s0: State, s: State) {
    exists run :: ValidRun(job, s0, run) && After(job, s0, run) == s
  }

  lemma Do(job: Job, s0: State, s: State, i: nat, a: Action) returns (s': State)
    requires Reaches(job, s0, s) && Enabled(job, s, Event(i, a))
    ensures s' == Apply(job, s, Event(i, a)) && Reaches(job, s0, s')
  {
    hide Apply, Enabled;
    var run :| ValidRun(job, s0, run) && After(job, s0, run) == s;
    var e := Event(i, a);
    s' := Apply(job, s, e);
    assert [e][1..] == [];
    assert ValidRun(job, s', []);
    assert ValidRun(job, s, [e]) && After(job, s, [e]) == s';
    RunsConcatenate(job, s0, run, [e]);
  }

  /** A call that has not begun gets its temporary file. */
  lemma Start(job: Job, s0: State, s: State, i: nat, random: Text) returns (s': State)
    requires Reaches(job, s0, s) && i < |s.threads| == |job.calls| && s.threads[i].phase == NotCalled
    requires IsRandom(random) && TempName(job.calls[i].name, random) !in s.dir
    requires |TempName(job.calls[i].name, random)| <= PATH_COMPONENT_MAX_LENGTH
    ensures Reaches(job, s0, s') && s'.lin == s.lin && |s'.files| == |s.files| + 1
    ensures s'.dir == s.dir[TempName(job.calls[i].name, random) := |s.files|]
    ensures s'.threads == s.threads[i := Thread(Permitting, Private(TempName(job.calls[i].name, random), |s.files|), 0)]
  {
    hide Reaches, IsRandom, TempName;
    s' := Do(job, s0, s, i, Begin);
    s' := Do(job, s0, s', i, CreateTemp(random));
  }

  /** From a new temporary file on, nothing keeps a call from getting to its rename. */
  lemma Finish(job: Job, s0: State, s: State, i: nat) returns (s': State)
    requires Reaches(job, s0, s) && i < |s.threads| == |job.calls|
    requires s.threads[i].phase == Permitting && s.threads[i].temp.Private? && s.threads[i].written == 0
    requires s.threads[i].temp.name in s.dir && s.dir[s.threads[i].temp.name] < |s.files|
    requires s.threads[i].temp.inode < |s.files|
    ensures Reaches(job, s0, s') && s'.lin == s.lin + [i] && |s'.files| == |s.files|
    ensures s'.dir == (s.dir - {s.threads[i].temp.name})[job.calls[i].name := s.dir[s.threads[i].temp.name]]
    ensures s'.threads == s.threads[i := Thread(Returned(true), Published(|s.lin|), |job.calls[i].data|)]
  {
    hide Reaches, Wanted;
    s' := Do(job, s0, s, i, Chmod);
    if |job.calls[i].data| > 0 { s' := Do(job, s0, s', i, Write(|job.calls[i].data|)); }
    s' := Do(job, s0, s', i, EndCopy);
    s' := Do(job, s0, s', i, Sync);
    s' := Do(job, s0, s', i, Close);
    s' := Do(job, s0, s', i, Rename);
    s' := Do(job, s0, s', i, Return);
  }

  /** Call i makes its temporary file, call j is done from beginning to end and replaces that file, and then
      i renames j's file: both return nil, and the file of j is gone. */
  lemma ClashingRun(job: Job, i: nat, j: nat) returns (s0: State, s: State)
    requires i < |job.calls| && j < |job.calls|
    requires Writable(job.calls[j].name) && IsTemp(job.calls[j].name, job.calls[i].name)
    ensures Initial(job, s0) && Reaches(job, s0, s) && AtRest(s)
    ensures i < |s.threads| && j < |s.threads| && s.threads[i].phase == s.threads[j].phase == Returned(true)
    ensures s.lin == [j, i] && job.calls[j].name !in s.dir
  {
    var m, n := job.calls[i].name, job.calls[j].name;
    var random :| IsRandom(random) && n == TempName(m, random);
    TempNames(n, m);
    var temp :| IsTemp(temp, n);
    var another :| IsRandom(another) && temp == TempName(n, another);
    TempNames(temp, n);
    hide Reaches, TempName, IsRandom, IsTemp, Writable;
    var idle := Thread(NotCalled, NoTemp, 0);
    s0 := State(map[], [], seq(|job.calls|, _ => idle), []);
    Nowhere(job, s0);
    s := Start(job, s0, s0, i, random);
    s := Start(job, s0, s, j, another);
    s := Finish(job, s0, s, j);
    s := Finish(job, s0, s, i);
  }

  lemma ClashBreaks(job: Job, i: nat, j: nat)
    requires i < |job.calls| && j < |job.calls|
    requires Writable(job.calls[j].name) && IsTemp(job.calls[j].name, job.calls[i].name)
    ensures !Atomic(job)
  {
    hide Reaches, IsTemp, Writable, Replay, Atomic, Initial;
    var s0, s := ClashingRun(job, i, j);
    assert WellFormed(s0) by { StartsWellFormed(job, s0); }
    LostFile(job, Visible(s0), i, j);
    NotAtomic(job, s0, s);
  }

  lemma StartsWellFormed(job: Job, s: State)
    requires Initial(job, s)
    ensures WellFormed(s)
  {
  }

  lemma Nowhere(job: Job, s: State)
    ensures Reaches(job, s, s)
  {
    assert ValidRun(job, s, []) && After(job, s, []) == s;
  }

  lemma LostFile(job: Job, first: map<Text, File>, i: nat, j: nat)
    requires i < |job.calls| && j < |job.calls| && Known(job, [j, i])
    ensures job.calls[j].name in Replay(job, first, [j, i])
  {
    assert [j, i][..1] == [j];
    assert [j][..0] == [];
    assert Known(job, [j]) && Known(job, []);
    assert job.calls[j].name in Replay(job, first, [j]);
  }

  lemma NotAtomic(job: Job, s0: State, s: State)
    requires Initial(job, s0) && Reaches(job, s0, s) && AtRest(s) && !IsReplay(job, s0, s)
    ensures !Atomic(job)
  {
  }
}
