# Verified models of primordium

This project models the parts of primordium in which something can go wrong that no single function shows, and proves
what the library promises about them. Everything is Dafny 4.11; `dafny verify dfyconfig.toml` checks all of it.

## What is modelled

**The reference-counted Locker** (`LockTable`, `Locker*`, `Paths`). Any number of processes acquire and release any
number of keys. Every system call is a step of its own, and a lock is two steps: an open that turns a path into an inode,
and a later flock on that inode. Entry directories are deleted and made again while others are about to open them. System
calls, factories and parts of `RemoveAll` may fail, processes may die at any step, and a release function may be called
any number of times, also concurrently. `Locker` is the transition system, `LockerInvariant` what every reachable state
satisfies, `LockerTheorems` the promises to callers, `LockerRefinement` the simulation of a plain reference count,
`LockerProgress` freedom from deadlock and termination, `LockerQuiescence` which entries are left when nobody is at work,
`LockerLastRelease` that the cleanup runs at the last release of a key, at no other, and once.
`LockerCalls` holds the bodies of `Acquire` and of the release function as methods: between two of their steps the other
calls go on as a schedule says, and the methods are proved to stay within the runs of the transition system, to fail only
when a step fails, and to wait only for a lock that cannot be granted.
`Paths` shows that valid keys give directories that are independent of each other, which the protocol relies on.

**The buffered ReadSeeker** (`ReadSeeker`). A class with an array buffer over a source that may read short and fail. It
answers every run of reads and seeks as the source alone does, up to what a refused seek costs (below).

**The SIMD kernels** (`Rounding`, `Summation`, `Vectors`, `DotProduct`, `MatrixVector`). Registers are four lanes, memory
is addressed in bytes and every load is shown to be in bounds. Each kernel computes a summation tree that has every
product exactly once. One theorem about such trees gives equality with the mathematical sum when the arithmetic is exact,
another the forward error bound ((1+u)^k - 1) times the sum of the absolute values of the products, in the standard model
of IEEE 754-2019 (section 4.3; section 5.4.1 for the fused operation); k is the height of the tree.

**WriteFile** (`AtomicWrite`, `WriteFile`). Any number of concurrent calls on any names of one directory, with failure or
death at each step. The directory is at every moment what the calls that took effect, each done at once, make of it.

**The Markdown formatter** (`Markdown`, `MarkdownPrinter`, `MarkdownReader`). The output is specified as a sequence of pieces that remember
which value of the tree they show. The methods work on map objects on the heap, which may be shared and which they leave as
they are; they visit maps in an arbitrary order and write to a writer that may fail half-way, and are proved to print just
that, or its beginning exactly when a write has failed. A reader of the text, defined on its own, finds the fields and values
of a table in its cells, the depth of a heading in its number signs, and the source of an image between the parentheses.

**The shutdown registry** (`Shutdown`, `ShutdownCalls`). Any interleaving of `Register` and `Shutdown` calls, each of
which finishes.

## Where the code differs from its documentation

* `WriteFile` is documented as atomic. It is, for exactly those sets of calls in which no target that can be written has a
  name that `os.CreateTemp` may choose for another target (`AtomicWrite.AtomicIffSeparate`). A target can be written when its
  name leaves room for a temporary one within the limit of 255 bytes. Calls on one name, and calls on names
  that do not begin with `.tmp-`, always qualify. Otherwise two calls may both return nil although one file is lost
  (`AtomicWrite.ClashingRun`).
* `Acquire` is documented to clean the entry up with its last holder. A call whose factory fails gives up its read lock
  without the last-holder test, so the entry directory stays (`LockerQuiescence.FailingFactoryLeavesEntry`). In runs without
  a crash and without a failing system call, when no call is under way, an entry that nobody holds is there exactly in that
  case (`LockerQuiescence.EntryIsLeakedIffOrphaned`). A holder that dies leaves its entry too.
* The rows of a Markdown table do not escape bars: a row is read back as its field and its value if and only if neither has
  one (`MarkdownReader.RowReadsBackIff`).
* `ReadSeeker.Seek` relative to the current position adds the offset to the buffer offset in 64 bits. The reader stays
  consistent if and only if that addition does not overflow (`ReadSeeker.ReadSeeker.Seek`); otherwise the buffer offset is
  negative (`ReadSeeker.OverflowingSeekBreaks`).
* A seek that fails should leave the caller where it was. One that the source is asked for has already dropped the buffer, and
  moves the caller forward to the source's position; a small forward one within the buffer has already moved by its offset
  when the source is asked for the position. The caller's position survives a failed seek if and only if nothing was buffered
  or the seek was by 0 from the current position (`ReadSeeker.ReadSeeker.Seek`, and `ReadSeeker.RefusedSeekMoves` for a
  failing case).

## Model

| member | source | states |
|---|---|---|
| `Paths.ValidatePath` | filesystem/path.go:55-72 | accepts a path exactly when each non-empty component is valid, and otherwise reports the error of the first that is not |
| `Paths.EntryComponents` | filesystem/refcounted.go:64 | under every root that is accepted, the empty one included, the components of an entry's directory are those of the root followed by the key |
| `Paths.EntriesAreIndependent` | filesystem/refcounted.go:40-65 | distinct valid keys have distinct directories, none of them the root or inside another |
| `Paths.LockFileInsideEntry` | filesystem/refcounted.go:65 | the lock file lies directly in its entry and in no other |
| `Paths.ValidIff` | filesystem/path.go:36-51 | a component is valid if and only if it has at most 255 bytes, neither NUL nor a separator, is neither `.` nor `..` and is not made of white space alone |
| `Paths.ErrorOf` | filesystem/path.go:36-51 | which error an invalid component gets: that of the first condition it violates |
| `Paths.BlankIffWhite` | filesystem/path.go:42 | trimming leaves nothing exactly of the UTF-8 forms of sequences of Unicode white-space characters |
| `Paths.ValidComponentIsPlain` | filesystem/path_unix.go:33-43 | a valid key is not empty, has no separator and is neither `.` nor `..` |
| `LockTable.GrantKeepsConsistent` | filesystem/lock_unix.go:41-64 | a granted lock never conflicts: on each inode there are many shared locks or one exclusive lock |
| `LockerInvariant.StepKeepsInv` | filesystem/refcounted.go:59-171 | every step, failure, crash and new call keeps the invariant that ties the kernel's lock table and the paths to the program points of all calls |
| `LockerInvariant.RunKeepsInv` | filesystem/refcounted.go:59-171 | the invariant holds in every reachable state |
| `LockerInvariant.OneInside` | filesystem/refcounted.go:84-118 | at most one call is at work inside the directory that now lies at the path of a key |
| `LockerInvariant.NobodyElse` | filesystem/refcounted.go:148-169 | while the last holder removes an entry nobody else holds a read lock on it or has opened a name in it |
| `LockerTheorems.HoldersKeepTheirEntry` | filesystem/refcounted.go:53-123 | a holder finds at the path the very directory and lock file it locked, whatever all the others do |
| `LockerTheorems.HoldersPersist` | filesystem/refcounted.go:120-171 | a hold ends exactly when its own release, its own failed factory or the death of its process gives it up |
| `LockerTheorems.GrantedDirectoryIsCurrent` | filesystem/refcounted.go:84-92 | when a lock on an entry directory is granted, the inode opened before is the one now at the path |
| `LockerTheorems.TryLockFindsLastHolder` | filesystem/refcounted.go:151-159 | the try-lock of a release succeeds exactly when no live call holds a read lock on the entry |
| `LockerTheorems.ReadLockIsGrantedAtOnce` | filesystem/refcounted.go:101-106 | Acquire never waits for the read lock |
| `LockerTheorems.OneCallbackPerKey` | filesystem/refcounted.go:108-118 | for each key at most one call is inside a factory or a cleanup |
| `LockerTheorems.OneCleanupAtATime` | filesystem/refcounted.go:129-169 | cleanups are serialised across all keys of the store |
| `LockerTheorems.CleanupIsAlone` | filesystem/refcounted.go:161-169 | from the start of a cleanup to the end of the removal the key has no holder and no factory runs for it |
| `LockerRefinement.StepRefines` | filesystem/refcounted.go:67-170 | every step of the protocol is a step of an abstract reference count that deletes an entry only when it has no holder |
| `LockerRefinement.RunRefines` | filesystem/refcounted.go:67-170 | every run is a run of the reference count |
| `LockerRefinement.HeldKeysHaveEntries` | filesystem/refcounted.go:120-123 | in every run of the reference count a key that is held has an entry |
| `LockerProgress.SomeCallCanStep` | filesystem/refcounted.go:72-118 | no deadlock: while a call is unfinished some call can take a successful step |
| `LockerProgress.RunsAreBounded` | filesystem/refcounted.go:59-171 | a run has at most 17 events for each call made in it |
| `LockerProgress.EveryCallFinishes` | filesystem/refcounted.go:130-170 | from every reachable state all calls can be run to their end |
| `LockerLastRelease.CleanupIffLast` | filesystem/refcounted.go:53-58 | in a run without crash and system failure a release that comes to its end runs the cleanup if and only if giving up its read lock left the key without a holder, and then removes the entry |
| `LockerLastRelease.OneCleanupPerHolding` | filesystem/refcounted.go:161-169 | from a cleanup until somebody acquires the key again no other release runs a cleanup for it |
| `LockerQuiescence.EntriesAtRest` | filesystem/refcounted.go:77-123 | without crash and system failure, at rest the entries are those of held keys and of keys orphaned by a failing factory |
| `LockerQuiescence.EntryIsLeakedIffOrphaned` | filesystem/refcounted.go:108-115 | at rest, in a run without crash or system failure, an unheld entry is left exactly when its last holder was a call whose factory failed |
| `LockerQuiescence.NothingIsLeftBehind` | filesystem/refcounted.go:53-58 | if factories succeed too, at rest there is an entry for exactly the keys that are held |
| `LockerQuiescence.FailingFactoryLeavesEntry` | filesystem/refcounted.go:109-115 | a run with one failing factory that leaves an entry nobody holds |
| `LockerTheorems.StepsThatMayFail` | filesystem/refcounted.go:59-171 | which steps may fail: every open, flock, creation and removal, and the factory; unlocking and the cleanup not |
| `LockerCalls.OnlyDirectoriesWait` | filesystem/lock_unix.go:48-53 | only a flock of the root or of an entry directory can keep a call waiting, and only because it cannot be granted |
| `LockerCalls.Store.PlatformLock` | filesystem/lock_unix.go:41-64 | a lock is an open and then a flock; it fails without keeping the file, and waits only while the flock cannot be granted |
| `LockerCalls.Store.Acquire` | filesystem/refcounted.go:59-124 | a call that succeeds returns a holder with its entry at the path; one that fails keeps no lock; an invalid key always fails, a valid one only if a step fails; it waits at most for the two directory locks, while they cannot be granted |
| `LockerCalls.Store.Release` | filesystem/refcounted.go:127-171 | however it ends, and however often it is called, the read lock of its handle is given up and no lock is kept; unless a step fails it gets to the last-holder test, or finds no entry to test, and the entry is gone afterwards if nobody held the key at the test and untouched otherwise |
| `LockerCalls.Store.LastHolder` | filesystem/refcounted.go:148-169 | under both locks the release gives up the read lock and goes on to its end without waiting |
| `ReadSeeker.ReadSeeker.constructor` | filesystem/readseeker.go:40-49 | a non-positive size means 4096; the reader stands where the source stands |
| `ReadSeeker.ReadSeeker.Read` | filesystem/readseeker.go:55-86 | delivers the bytes at the logical position and advances by their number; end of file only at the end, and always when something is asked for there; an empty read returns the source's error; at most one source read, none while bytes are buffered |
| `ReadSeeker.ReadSeeker.Seek` | filesystem/readseeker.go:93-122 | the reader stays consistent if and only if the offsets do not overflow, and then goes where the source alone would go; after a failed seek the source is where it was, and the caller is where it was if and only if nothing was buffered or the seek was by 0 from the current position |
| `ReadSeeker.DirectSession` | filesystem/readseeker.go:30-31 | what the source alone answers to a run of reads and seeks: end of file at the end, and, if it fills the slice, something while there is content |
| `ReadSeeker.Session` | filesystem/readseeker.go:23-26 | every run of reads and seeks is answered so, except that a refused seek moves on by at most the size of the buffer; it ends early only before a seek whose addition overflows |
| `ReadSeeker.OverflowingSeekBreaks` | filesystem/readseeker.go:98-101 | after one byte read, a step by the largest 64-bit number leaves a negative buffer offset |
| `ReadSeeker.RefusedSeekMoves` | filesystem/readseeker.go:113-121 | after one byte read, a step to before the start is refused and the caller is no longer at 1 but at 3 |
| `ReadSeeker.DeliverInSmallReads` | filesystem/readseeker.go:60-85 | small reads go on to the end of the list or of the content, and the t bytes they deliver cost exactly t / B reads of the source, rounded up |
| `Rounding.RoundedIffRelative` | simd/dot_generic.go:24 | the model of rounding: the exact result times 1 + d with d at most u in absolute value |
| `Summation.ExactIffNoRoundoff` | simd/dot_generic.go:24 | exact arithmetic is the case of unit roundoff 0 |
| `Rounding.DriftIsPower` | simd/dot_generic.go:21-28 | k roundings one after the other build up the factor (1+u)^k - 1 |
| `Summation.CoveringTreeIsDot` | simd/dot.go:19-20 | any order of additions that has each product once sums to the dot product |
| `Summation.CoveringTreeIsAccurate` | simd/dot.go:19-20 | such a tree of height k is within ((1+u)^k - 1) times the sum of absolute products |
| `Summation.SumIsExact` | simd/dot.go:19-20 | on exact arithmetic whatever a kernel computes by such a tree is the sum of products |
| `Summation.EvalIsNear` | simd/dot_generic.go:21-28 | no product is rounded more often than the height of the tree |
| `DotProduct.Loop16Amd64` | simd/dot_amd64.s:29-64 | two accumulators take each of the first 16-blocks' products once, two roundings a round |
| `DotProduct.DotAmd64` | simd/dot_amd64.s:24-104 | for every length of at least 1, each product once, loads in bounds, at most 2n/16 + 10 roundings |
| `DotProduct.Loop16Arm64` | simd/dot_arm64.s:33-69 | four fused accumulators and two moving pointers take each of the first 16-blocks' products once |
| `DotProduct.DotArm64` | simd/dot_arm64.s:28-103 | for every length of at least 1, each product once, loads in bounds, at most n/16 + 10 roundings |
| `DotProduct.DotGeneric` | simd/dot_generic.go:21-28 | each product once, at most n + 1 roundings, whichever iterations the compiler fuses |
| `DotProduct.DotFloat32` | simd/dot.go:23-30 | for slices of any lengths and on every architecture, over the length of the shorter slice: exact on exact arithmetic, within the error bound otherwise, 0 if a slice is empty |
| `MatrixVector.ProductAmd64` | simd/matvec_amd64.s:25-88 | every element has its row's 32 products once, by at most 7 roundings; the vector stays in registers and both pointers follow the row counter |
| `MatrixVector.ProductArm64` | simd/matvec_arm64.s:28-83 | the same with fused accumulators |
| `MatrixVector.ProductGeneric` | simd/matvec_generic.go:22-37 | every element has its row's 32 products once |
| `MatrixVector.MergedRow` | simd/matvec_amd64.s:75-78 | merging the two accumulators and adding neighbours twice puts the whole row into the first lane |
| `MatrixVector.MatVecMul64x32` | simd/matvec.go:27-33 | matrix times vector on every architecture: exact on exact arithmetic, within the error bound otherwise, matrix and vector unchanged |
| `AtomicWrite.TempNames` | filesystem/atomic.go:52 | a temporary name is longer than its target and begins with `.tmp-` |
| `AtomicWrite.NumberBehindName` | filesystem/atomic.go:52 | the temporary name of a target without a star: `.tmp-`, the name, the number |
| `AtomicWrite.NumberForStar` | filesystem/atomic.go:52 | in other names the number takes the place of the last star |
| `AtomicWrite.ModeBits` | filesystem/atomic.go:50 | the permissions have no bit that the mask forbids and every other bit that was asked for |
| `AtomicWrite.StepKeepsInv` | filesystem/atomic.go:46-83 | every step of every call, and every failure and death, keeps the invariant |
| `AtomicWrite.DirectoryIsReplay` | filesystem/atomic.go:45-83 | at every moment the directory is what the calls that took effect, each done at once and in order, make of it |
| `AtomicWrite.TargetIsWhole` | filesystem/atomic.go:45-83 | a target that can be written holds its initial content, or the whole data of one call with the permissions that were asked for and that the mask allows |
| `AtomicWrite.TakesEffectOnce` | filesystem/atomic.go:78-82 | linearizability: a call that returns nil takes effect once, between its start and its end, and one that returns an error never does |
| `AtomicWrite.LeftOversAreOfFailedCalls` | filesystem/atomic.go:52-82 | a temporary file stays for each call that made one and did not rename it, and for no other |
| `AtomicWrite.OpenedFileNeverChanges` | filesystem/atomic.go:78 | who has opened a file that is no temporary one reads the same bytes for the rest of the run |
| `AtomicWrite.TargetIsNotTemporary` | filesystem/atomic.go:52-78 | a target that can be written is at no moment a temporary file |
| `AtomicWrite.AtomicIffSeparate` | filesystem/atomic.go:45-83 | the calls are atomic in all runs if and only if no target that can be written has a name that may be chosen for a temporary file |
| `AtomicWrite.ClashingRun` | filesystem/atomic.go:52-78 | for any two calls that do not meet the condition, a run in which both return nil and the file of one is gone |
| `AtomicWrite.OneTargetIsSeparate` | filesystem/atomic.go:52 | calls on one name always meet that condition |
| `AtomicWrite.OrdinaryTargetsAreSeparate` | filesystem/atomic.go:52 | so do calls on names that do not begin with `.tmp-` |
| `WriteFile.Disk.Copy` | filesystem/atomic.go:61-68 | the copy goes on chunk by chunk and returns how many bytes were written; a short one without error is a failure, and there is none without a failing write or an early end |
| `WriteFile.Disk.WriteFile` | filesystem/atomic.go:46-83 | the body, with the others going on between its system calls: nil exactly when it took effect, once and during the call, with its whole data and the permissions that the mask allows; an error exactly when a system call failed |
| `Markdown.AtMostIffBefore` | format/markdown.go:227 | the order of keys: one is the beginning of the other, or they first differ at a place where it has the smaller character |
| `Markdown.OrderIsUnique` | format/markdown.go:221-230 | a set of keys has one sorted order, so the order of map iteration cannot show |
| `Markdown.DecimalIsNumeral` | format/markdown.go:139 | the number in the heading of a list item is its decimal numeral, read from left to right |
| `Markdown.CountTable` | format/markdown.go:166-203 | each plain field of a map has one row or image, except those the spectrogram replaces |
| `Markdown.EachValueIsShownOnce` | format/markdown.go:64-164 | every value below a top-level map or list has exactly one heading, row, bullet or image, and nothing else has any |
| `Markdown.BodyIsTruthful` | format/markdown.go:93-164 | every piece shows the value at its origin under its name; a heading is min(6, depth + 2) deep, maps in a list are headed Stream and their number, from 1 |
| `MarkdownReader.TableReadsBack` | format/markdown.go:175-193 | the text of a table, read line by line and cell by cell: a head, a rule of as many columns, and the fields in order, each beside its value |
| `MarkdownReader.RowReadsBackIff` | format/markdown.go:185 | a row reads back as its field and value if and only if neither has a bar in it |
| `MarkdownReader.HeadingReadsBack` | format/markdown.go:99-101 | a heading has as many number signs as its level, then its text |
| `MarkdownReader.TitleReadsBack` | format/markdown.go:53 | a title is a heading of depth two with the name of the entry |
| `MarkdownReader.BulletReadsBack` | format/markdown.go:157 | a bullet is a dash and the value |
| `MarkdownReader.ImageReadsBack` | format/markdown.go:197 | an image has its source between the parentheses |
| `MarkdownReader.RuleReadsBack` | format/markdown.go:39 | entries are separated by a line of three dashes between empty lines |
| `MarkdownPrinter.SortedKeys` | format/markdown.go:221-230 | the sorted keys of the map, each once, in whatever order it is visited |
| `MarkdownPrinter.ReadValue` | format/markdown.go:157 | printing a value finds in the maps on the heap the value they stand for |
| `MarkdownPrinter.SeparateFields` | format/markdown.go:205-219 | two fresh maps, one with the plain fields and one with the nested ones; the given one is as before |
| `MarkdownPrinter.PrintTable` | format/markdown.go:166-203 | prints the table and deletes the spectrogram fields, from its own map object only; an error means that a write failed |
| `MarkdownPrinter.PrintMapSection` | format/markdown.go:93-120 | heading, table and nested fields, or their beginning exactly when a write has failed |
| `MarkdownPrinter.PrintSliceSection` | format/markdown.go:122-164 | heading and items, or their beginning exactly when a write has failed |
| `MarkdownPrinter.PrintAll` | format/markdown.go:36-80 | the output is a function of the data; exactly when a write fails it is the beginning of that output and the error is reported; the caller's maps are unchanged |
| `Shutdown.BackwardsAt` | app/shutdown/shutdown.go:98-100 | each handler runs once, at the place counted from the last one registered, and one ends before the next starts |
| `Shutdown.StepKeepsInv` | app/shutdown/shutdown.go:81-102 | every step of every call keeps the invariant of mutex, once, copy and log |
| `Shutdown.HandlersRunBackwards` | app/shutdown/shutdown.go:89-102 | at every moment the handlers of the copy have run from the last one on; no Shutdown returns before all of them have |
| `Shutdown.RegisteredBeforeRuns` | app/shutdown/shutdown.go:80-100 | a handler whose Register returned before the copy was taken has run, once and at its place, when any Shutdown has returned |
| `Shutdown.RegisteredAfterNeverRuns` | app/shutdown/shutdown.go:92-100 | a handler registered after the copy was taken never runs |
| `Shutdown.PlacesFollowTime` | app/shutdown/shutdown.go:81-87 | of two Register calls one after the other the later one gets the later place |
| `Shutdown.NoDeadlock` | app/shutdown/shutdown.go:81-102 | while a call is unfinished some call can take a step |
| `Shutdown.RunsAreBounded` | app/shutdown/shutdown.go:81-102 | a run, with all its handlers, has at most 6 events for each call made in it |
| `Shutdown.EveryCallFinishes` | app/shutdown/shutdown.go:81-102 | from every reachable state all calls can be run to their end |
| `ShutdownCalls.Registry.Register` | app/shutdown/shutdown.go:81-87 | when it returns, its handler has a place in the list; it waits only while another call has the mutex |
| `ShutdownCalls.Registry.Shutdown` | app/shutdown/shutdown.go:90-102 | when it returns, all handlers of the copy have been called in reverse order, whichever call did so; it waits only while another call has the mutex or is inside the once |

## Left out

- LockerCalls.Store.Acquire: a call that waits forever for a flock is reported as still waiting; fairness of the kernel is not modelled, nor are interrupted flocks, which are repeated.
- LockerCalls.Store.Release: the death of the own process in the middle of a call is an event of the transition system, not an outcome of the method.
- Closing or unlocking is taken to succeed, since the code ignores those errors and the kernel drops the lock with the file.
- Descriptor numbers are not reused, so a second unlock of a closed file has no effect; inode numbers are not reused either.
- Nobody outside the protocol removes the root or the entries; factories and cleanups return and do not call the Locker; what else they put into an entry is not part of the state.
- A nil cleanup is a cleanup that does nothing; the path a factory returns is handed through unchanged.
- `WithLock`, `WithReadOnlyLock`, `TryReadOnlyLock` and the nil check of `Unlock`, thin wrappers of the lock layer.
- `ReadSeeker.Close`; content of a source that changes; a 32-bit `int`.
- DotProduct.DotFloat32: bit patterns, NaN, overflow and underflow are outside the standard model of rounding.
- MatrixVector.MatVecMul64x32: a result that overlaps the matrix or the vector is excluded, as the kernels read while they write.
- The encodings of the vector instructions, and the stack frames.
- WriteFile.Disk.WriteFile: durability after a power failure; a process that dies in the middle of a call is an event of the transition system.
- `os.CreateTemp`, `io.Copy`, `os.Rename`, `filepath.Join` and `sort.Strings` are not part of this model's source; they are modelled by what the code relies on.
- MarkdownReader.TableReadsBack: a line end in a name or a value breaks the line of its row and is excluded, as a bar is.
- MarkdownPrinter.PrintAll: how fmt prints a value with `%v` is a parameter; nil entries are excluded; slices are values, since nothing assigns to them.
- Handlers that call `Shutdown` (a deadlock by construction) or panic; `SetDefaults` with its signals, timer and exit codes.
- The text of error messages; only the kind of failure is kept.
- The Windows files; `ValidateSocketPath`; how the umask is read; the packages digest (parsing and printing of digests), fault (error values), network and reporter (clients of remote services), and the JSON and console formatters.
