# toda, modelled in Dafny

toda mounts a fault-injecting FUSE file system over a live directory and moves the open descriptors,
working directories and mappings of running processes over to it. This project models the parts of toda
that are hard to get right and proves what they keep, over all inputs and over whole runs. `dafny verify
dfyconfig.toml` checks everything.

The parts, and where each lives:

- **Injected code.** `Bytes`, `Kernel` and `Machine` are a byte memory, the system calls that the injected
  loops make, and a small x86-64 that executes them one instruction at a time. `Layout` is the static data in
  front of the code. `FdLoop`, `Reopening` and `FdReplacer` take the fd loop from single instructions to "for
  each case, reopen" and from there to what the descriptor table looks like, `RepeatedCases` for tables that name a
  descriptor more than once. `MmapLoop` and `MmapReplacer` do
  the same for the trace of the mmap loop. `TracedProcess` runs system calls and code inside a stopped
  process under the guard that saves and restores it. `Prepare` is the pipeline that decides which process
  gets which cases and keeps which trace handles.
- **Tracing.** `PtraceManager` is the reference count per process, `StopTheWorld` the attach loop against a
  process that keeps spawning threads.
- **The file system.** `InodeMap` is the cache from inode numbers to paths, `InodeRefs` its counts against the
  kernel's lookup counts, `Backend` and `HookFs` the operations on names and the agreement of the cache with
  the backend. `FileHandles` is the table of open files under concurrent tasks, `LockOrder` the locks of all
  operations, `Readdir` the resumed directory listing, `Paths` the path arithmetic.
- **Mounts.** `Mounts` is the cycle of injecting and recovering on a table of mount stacks.
- **Injectors.** `FaultInjector` is the weighted choice of an error, `MistakeInjector` the corruption of a buffer.

`Wrappers`, `Intervals` and `Selections` are shared helpers.

What the kernel may decide freely (whether an open succeeds, where a mapping goes, which requests fail, which
thread runs next, which numbers are drawn) is always a parameter that the theorems quantify over. Where the
code updates things in place the model is a class or a method over an array, tied to a function of the old
state; protocols among tasks are state machines, and their theorems are about every sequence of events.

Some promises one might expect do not hold of the code. Here is when they hold exactly, and runs in which they fail:

- A rename keeps the path cache right exactly when it is `Safe` (`HookFs.RenameAgreesIffSafe`). A directory with a
  cached child is not (`HookFs.RenamedDirectoryLeavesStalePath`), and neither is a cached file whose attributes
  cannot be read after the move (`HookFs.UncachedRenameLeavesStalePath`).
- Handles are safe, now and in every continuation, exactly when no close has failed
  (`FileHandles.SafeIffClosesSucceed`); after a failed close a handle can read another file
  (`FileHandles.FailedCloseLeavesStaleEntry`).
- A node's count equals the references to its inode exactly when no reply was dropped or lost and no forget carried
  only part of the count (`InodeRefs.LeaksIffWasted`); two lookups forgotten one by one leave a node for good
  (`InodeRefs.ForgetInPartsLeaks`).
- A process is stopped exactly when every thread it has now was traced (`StopTheWorld.TraceStopsTheWorld`); a refused
  attach in the last pass leaves one running (`StopTheWorld.RefusalLeavesAThread`).
- The fd loop leaves no extra descriptor exactly when no case adds one (`FdReplacer.ReopenAllAddsNoneIff`); a case
  that names a closed descriptor may (`FdReplacer.ClosedCaseLeavesDescriptor`).
- The root's path stays the original directory exactly while nothing else cached under its number survives
  (`HookFs.RootPathIff`); an object that the backend numbers 1 takes its place (`HookFs.RootPathMoves`).
- A descriptor stays closed on exec exactly if no case moves it (`RepeatedCases.CloseOnExecKeptIff`).
- The mmap loop never asks for an old region back (`MmapReplacer.RegionsNotRequested`).

## Model

| member | source | states |
|---|---|---|
| `Bytes.WordRoundTrip` | src/replacer/fd_replacer.rs:108-113 | reading the eight little-endian bytes of a word gives the word back |
| `Layout.PackedWord` | src/replacer/fd_replacer.rs:108-113 | word number i of the packed table is read back from byte 8 * i, for every table |
| `Layout.BlobRead` | src/replacer/fd_replacer.rs:118-128 | the C string the kernel reads at a stored offset is the text up to its NUL, or is too long |
| `Layout.TextSurvives` | src/replacer/fd_replacer.rs:55-72 | later pushes leave every path already in the blob as it was |
| `Layout.StaticParts` | src/replacer/fd_replacer.rs:115-128 | table, length word and paths are each found at their label |
| `FdReplacer.ProcessAccessorBuilder.PushCase` | src/replacer/fd_replacer.rs:55-72 | exactly one job is appended to what the table stands for, none if the path is not UTF-8, earlier jobs unchanged |
| `FdReplacer.FromIter` | src/replacer/fd_replacer.rs:75-86 | the builder holds one job for each UTF-8 item of the iterator, in order, and none for the others; table and path blob have exactly the size of those |
| `FdReplacer.PushableIsExact` | src/replacer/fd_replacer.rs:75-86 | what the builder keeps is exactly the items with a UTF-8 path, each once, in order, with its own descriptor and path |
| `FdReplacer.CaseData` | src/replacer/fd_replacer.rs:108-128 | what the loop reads for case i, at 16 * i and in the path blob, is what was pushed as case i |
| `FdLoop.Turn` | src/replacer/fd_replacer.rs:136-174 | 30 instructions from the loop start perform one reopen of the current case and leave memory, r14 and the stack alone |
| `Reopening.SixCallsReopen` | src/replacer/fd_replacer.rs:137-172 | fcntl, open, lseek, lseek, dup2 and close, each fed with earlier results, amount to one `Reopen`, also when any of them fails |
| `FdReplacer.FdLoopReopensAll` | src/replacer/fd_replacer.rs:131-180 | from entry, the loop traps after exactly 33 n + 7 instructions, has reopened all cases in order and has changed no memory |
| `FdReplacer.TableAfterReopenAll` | src/replacer/fd_replacer.rs:131-180 | afterwards each case whose open succeeded has its new path with the old flags and offset, on a description of its own and no longer closed by an exec; every other descriptor and every old description is unchanged, and no descriptor was added or lost |
| `FdReplacer.ReopenAllSparesOthers` | src/replacer/fd_replacer.rs:131-180 | for any cases, repeated or naming closed descriptors, what no case names is unchanged |
| `RepeatedCases.LastCaseWins` | src/replacer/fd_replacer.rs:131-180 | for any cases over open descriptors, repeated or not, each descriptor ends at the path of its last case whose open succeeded, with its original flags, and with its original offset unless a description on the way had none; or where it was if there is no such case |
| `RepeatedCases.CloseOnExecKeptIff` | src/replacer/fd_replacer.rs:163-167 | a descriptor that an exec would close stays so if and only if no case moved it, since dup2 clears the mark |
| `FdReplacer.ReopenAllAddsNoneIff` | src/replacer/fd_replacer.rs:131-180 | after all cases the same descriptors are open if and only if no case, judged by the table before the first, names a closed descriptor that its successful open does not hit by itself |
| `FdReplacer.ClosedCaseLeavesDescriptor` | src/replacer/fd_replacer.rs:137-172 | a table and a case on a closed descriptor after which one more descriptor is open |
| `MmapReplacer.ProcessAccessorBuilder.PushCase` | src/replacer/mmap_replacer.rs:82-114 | exactly one mapping is appended, with all six fields and its path, none if the path is not UTF-8 |
| `MmapReplacer.CaseData` | src/replacer/mmap_replacer.rs:157-174 | all six words of record i are read back at 48 * i |
| `MmapReplacer.CasePath` | src/replacer/mmap_replacer.rs:195-198 | the text that open reads for case i is the path stored for it |
| `MmapReplacer.OneTurn` | src/replacer/mmap_replacer.rs:185-226 | one turn makes exactly four calls with that case's fields, advances r15 by 48, balances the stack, and keeps the descriptor table |
| `MmapReplacer.MmapLoopTrace` | src/replacer/mmap_replacer.rs:178-229 | the whole run makes munmap, open, mmap, close per case in order, traps after 33 n + 7 instructions, and changes memory only in the cases' regions and below the stack pointer |
| `MmapReplacer.RegionsNotRequested` | src/replacer/mmap_replacer.rs:195-215 | in the log of every run, no mmap call is made at the address its case unmapped |
| `MmapReplacer.ProtAndFlags` | src/replacer/mmap_replacer.rs:241-266 | each protection bit is set exactly for its permission character, the mapping is shared or private by the fourth, and the flags never ask for a fixed place |
| `MmapReplacer.FromIter` | src/replacer/mmap_replacer.rs:117-135 | the builder holds one mapping for each region with a UTF-8 path, in order, with what its permissions mean, and none for the others |
| `MmapReplacer.WantedIsExact` | src/replacer/mmap_replacer.rs:117-135 | exactly the regions with a UTF-8 path become mappings, each once, in order, with the address, length, offset, path and the protection and flags that its own permissions ask for |
| `TracedProcess.ArgsReachTheKernel` | src/ptrace/mod.rs:238-255 | argument i is in the register from which the kernel reads argument i, and no other register is touched |
| `TracedProcess.LoadArgs` | src/ptrace/mod.rs:238-255 | up to six arguments are all loaded, a seventh is refused |
| `TracedProcess.Process.Protect` | src/ptrace/mod.rs:201-214 | a guard holds the registers and the eight bytes under rip, and is got whenever those bytes are mapped and no request is refused |
| `TracedProcess.Process.Restore` | src/ptrace/mod.rs:410-423 | unless it panics, dropping the guard puts the registers and the word back; it does not panic when the word is still mapped and no request is refused |
| `TracedProcess.Process.Syscall` | src/ptrace/mod.rs:228-283 | every exit has all registers back; the call was made completely, with the word under rip restored, or not at all; it is made, for up to six arguments, whenever no request is refused, the word under rip is mapped and the call itself leaves it so |
| `TracedProcess.Process.MapScratch` | src/ptrace/mod.rs:287-304 | the scratch mapping is disjoint from everything mapped before, a failed mmap yields no usable address, and with nothing refused the mapping is there whenever there is a place for it |
| `TracedProcess.Process.UnmapScratch` | src/ptrace/mod.rs:298-311 | after the scratch mapping is removed, memory is what it was before it was made; with nothing refused it is removed |
| `TracedProcess.Process.Chdir` | src/ptrace/mod.rs:314-324 | on success only the working directory has changed; on every exit registers are back and no byte of the process has changed; with nothing refused, the word under rip mapped and a place for a path without a NUL it succeeds, whatever the kernel answers to the chdir itself |
| `TracedProcess.Process.GuardedCode` | src/ptrace/mod.rs:350-385 | whatever code runs under the guard, every exit has all registers and the word under rip back |
| `TracedProcess.FdLoopRuns` | src/ptrace/mod.rs:358-376 | from rip at the base plus the length of the static data, with the code stored there, the fd loop reaches its trap; the start is read off rip and not given |
| `TracedProcess.MmapLoopRuns` | src/ptrace/mod.rs:358-376 | the same for the mmap loop |
| `TracedProcess.Process.RunFdLoop` | src/ptrace/mod.rs:343-387 | on success all cases are reopened, the scratch mapping is gone and memory is unchanged; it succeeds whenever no request is refused, the word under rip is mapped and there is a place for the scratch mapping; every exit has registers and the word under rip back |
| `TracedProcess.Process.ReplaceFds` | src/replacer/fd_replacer.rs:102-188 | from the collected descriptors and paths to the table: on success each item with a UTF-8 path whose open succeeded has its new path, old flags and old offset, every other descriptor is untouched, and memory is unchanged; it succeeds under the same conditions as the loop |
| `TracedProcess.Process.RunMmapLoop` | src/replacer/mmap_replacer.rs:151-238 | on success the loop has made its four calls per case, the scratch mapping is gone, the descriptor table is as before, and memory changed only in the cases' regions and below the stack pointer; it succeeds when no request is refused, the scratch mapping has a place and the cases spare the words under rip and the stack pointer; every exit has registers and the word under rip back |
| `TracedProcess.Process.ReplaceMmaps` | src/replacer/mmap_replacer.rs:151-238 | from the regions of the listing to the calls: on success four calls for each region with a UTF-8 path, in order and with its own fields, the descriptor table as before, and memory changed only in their regions and below the stack pointer; it succeeds under the same conditions as the loop |
| `PtraceManager.Manager.Trace` | src/ptrace/mod.rs:77-119 | only an untraced process is attached, a failed attach leaves no count, and every other call succeeds |
| `PtraceManager.Manager.Detach` | src/ptrace/mod.rs:122-184 | the kernel is asked exactly when the count reaches zero, until it answers and at most 21 times, and the count is gone either way |
| `PtraceManager.CounterCountsHandles` | src/ptrace/mod.rs:77-184 | from every balanced state, over every sequence of traces, clones and drops, the counter stays equal to the number of live handles |
| `PtraceManager.HandlesPerEvent` | src/ptrace/mod.rs:192-197 | a successful trace and a clone of a live handle each give one more live handle of their process, a drop takes one, and nothing else changes any number |
| `PtraceManager.EveryRunIsBalanced` | src/ptrace/mod.rs:192-197 | from the start, a counter exists exactly while a handle lives, equals their number, and no clone panics |
| `PtraceManager.CountIsTakenLessDropped` | src/ptrace/mod.rs:77-197 | from the start, the count of a process is the handles taken for it less those dropped, and it is counted exactly while that is positive |
| `PtraceManager.DetachOnLastDrop` | src/ptrace/mod.rs:390-401 | a detach is requested exactly when the last handle of a process is dropped |
| `PtraceManager.AttachOnFirstTrace` | src/ptrace/mod.rs:82-115 | an attach is requested exactly when a process without a handle is traced |
| `StopTheWorld.StepKeepsInv` | src/ptrace/mod.rs:87-113 | every step of the loop and of the process keeps the invariant of the attach loop |
| `StopTheWorld.TraceStopsTheWorld` | src/ptrace/mod.rs:87-113 | in every reachable state the process is stopped if and only if every live thread was traced; that is so when the loop ends with no failed attach in its last pass; passes never exceed attached threads plus two |
| `StopTheWorld.StoppedForGood` | src/ptrace/mod.rs:87-113 | once all threads are stopped they stay so, and no thread appears |
| `StopTheWorld.RefusalLeavesAThread` | src/ptrace/mod.rs:44-73 | a run in which a refused attach leaves a thread running |
| `Prepare.MatchingIsExact` | src/replacer/fd_replacer.rs:221-233 | the matches of a process are exactly its entries under the path, in order, each with its item and the same tail |
| `Prepare.PrepareLosesNothing` | src/replacer/fd_replacer.rs:206-250 | with distinct pids, consecutive grouping and map collection give each process exactly its own matches, and no accessor to the others |
| `Prepare.AccessorHasItsEntries` | src/replacer/fd_replacer.rs:206-250 | a process gets an accessor exactly if it could be traced and listed and has an entry under the path; the accessor then holds exactly those entries, each once, in order, with the path moved to the new prefix |
| `Prepare.PreparedGainsOneHandle` | src/replacer/mmap_replacer.rs:282-336 | in whatever order the lazy pipeline runs, each prepared process ends with exactly one more live handle and every other with as many as before |
| `InodeMap.Map.InsertPath` | src/hookfs/mod.rs:170-178 | the path is appended unless it is there |
| `InodeMap.Map.RemovePath` | src/hookfs/mod.rs:217-226 | exactly the equal paths go, the others keep their order |
| `InodeMap.Map.DecreaseRef` | src/hookfs/mod.rs:202-208 | the node goes when the forget covers its count, and nothing else changes |
| `InodeMap.PathsAreSurvivors` | src/hookfs/mod.rs:165-183 | after any calls, the paths of a node are those inserted and not removed since, without repeats, in the order in which they came to stay |
| `InodeMap.GetPathIsLatestSurvivor` | src/hookfs/mod.rs:165-168 | `get_path` gives the latest of them, and fails exactly when there is none |
| `InodeMap.TableHoldsSurvivors` | src/hookfs/mod.rs:185-226 | over any calls on the table, forgets included, the paths of each inode are the survivors of the calls on it since its node last left the table, in order of birth |
| `InodeRefs.StepKeepsCovered` | src/hookfs/mod.rs:196-208 | every event keeps each count at least as large as the references to the inode |
| `InodeRefs.CountCoversReferences` | src/hookfs/mod.rs:363-393 | over every interleaving, count >= kernel lookups + replies in flight + pending forgets, and a referenced inode has a node |
| `InodeRefs.RemovedOnlyWhenUnreferenced` | src/hookfs/mod.rs:202-208 | only a forget removes a node, only its own, exactly when it carries the whole count, and then no reference is left |
| `InodeRefs.RootStays` | src/hookfs/async_fs.rs:245-252 | the root stays in the table in every run whose replies do not carry its number |
| `InodeRefs.LeakIsForever` | src/hookfs/mod.rs:202-208 | a count above the references stays above them and the node is never removed |
| `InodeRefs.LeaksIffWasted` | src/hookfs/mod.rs:196-208 | in every run the count equals the references if and only if no entry went unreplied, no reply was lost and no forget carried only part of the count; otherwise the node stays in every continuation |
| `InodeRefs.ForgetInPartsLeaks` | src/hookfs/mod.rs:202-208 | a run from the start: two lookups forgotten one by one leave a node that nothing refers to |
| `Backend.RenamedAt` | src/hookfs/mod.rs:663 | what is found at each path after a rename: moved below the new name, kept, or gone |
| `Backend.RenameKeepsTree` | src/hookfs/mod.rs:663 | every rename the kernel allows leaves a well-formed tree |
| `HookFs.FileSystem.Lookup` | src/hookfs/mod.rs:363-387 | exactly when it succeeds; the reply has the backend's number for the path, which is then cached and referenced once more, no other entry changing; on an error the table is unchanged |
| `HookFs.FileSystem.Make` | src/hookfs/mod.rs:483-548 | mknod, mkdir and symlink: when exactly they succeed; exactly the object asked for is added, and cached and referenced once more only if owner and attributes could be dealt with; no handle changes |
| `HookFs.FileSystem.Create` | src/hookfs/mod.rs:1077-1116 | when exactly it succeeds; a file is added if the name was free; the path is then cached, referenced and recorded in exactly one more handle; a failure after creation leaves it uncached and without a handle |
| `HookFs.FileSystem.Link` | src/hookfs/mod.rs:675-709 | when exactly it succeeds; the new name has the object of the old one and is cached and referenced for its number, unless its attributes cannot be read after the link was made; no handle changes |
| `HookFs.FileSystem.Remove` | src/hookfs/mod.rs:551-592 | unlink and rmdir: when exactly they succeed; exactly that path then leaves the tree and the node of the number it had |
| `HookFs.FileSystem.Rename` | src/hookfs/mod.rs:630-672 | when exactly it succeeds; the moved object is then cached at the new path and not at the old one; if the attributes cannot be read after the move, the tree has changed and the table has not |
| `HookFs.FileSystem.Open` | src/hookfs/mod.rs:712-738 | the path returned is the latest of the inode, exactly if it is there and can be opened, and is the one recorded in the handle |
| `HookFs.HandlesExact` | src/hookfs/mod.rs:712-738 | over every operation, the paths in open handles change exactly by the latest path of an opened inode, the path of a created file and the path of a released handle |
| `HookFs.FileSystem.constructor` | src/hookfs/mod.rs:297-316 | the table starts with the original directory as the root |
| `HookFs.EntryIsCached` | src/hookfs/mod.rs:377-378 | an entry reply caches its path for the number found, counts one reference, and changes no other entry |
| `HookFs.RemovedIsNotCached` | src/hookfs/mod.rs:566-567 | from an agreeing cache, after a removal the path is cached for no inode, and every other path as before |
| `HookFs.MovedCache` | src/hookfs/mod.rs:665-669 | what exactly is cached after a rename, for every inode and path |
| `HookFs.RenameAgreesIffSafe` | src/hookfs/mod.rs:661-669 | from an agreeing cache, a rename of any outcome leads to an agreeing cache if and only if both names are one file, or nothing cached is left behind (what is below the old name, and that name itself if the attributes cannot be read) and the replaced object is not cached at the new name |
| `HookFs.FreeTargetIsSafe` | src/hookfs/mod.rs:661-669 | moving a file or an empty directory onto a free name is safe if and only if the attributes are read after the move or the old name is not cached |
| `HookFs.RenamedDirectoryLeavesStalePath` | src/hookfs/mod.rs:661-669 | a run whose rename of a directory leaves a cached path that names nothing |
| `HookFs.UncachedRenameLeavesStalePath` | src/hookfs/mod.rs:663-665 | a run in which a file moved onto a free name keeps its old path in the cache, because its attributes could not be read |
| `HookFs.StepKeeps` | src/hookfs/mod.rs:363-709 | every operation of every outcome keeps sanity, and agreement is lost by an unsafe rename and by nothing else |
| `HookFs.MovingFilesNeverUpsets` | src/hookfs/mod.rs:630-672 | no run whose renames move only files onto free names, and reach the cache if that has the file, contains an unsafe rename |
| `HookFs.RebuildNeverFails` | src/hookfs/mod.rs:326-331 | in every run, whatever happens to the backend in between and whatever numbers are found or injected, all cached paths and all paths in open handles lie under the original directory, `rebuild_path` succeeds on them with the same tail, and no node repeats a path |
| `HookFs.GetPathNamesTheInode` | src/hookfs/mod.rs:185-194 | in every run without outside changes and unsafe renames, every path cached for an inode, the root's own path aside, names a backend object with that number |
| `HookFs.ApplyIsCalls` | src/hookfs/mod.rs:363-709 | each operation changes the table by the calls it is said to make and in no other way |
| `HookFs.NodesHoldSurvivors` | src/hookfs/mod.rs:165-226 | in every run the paths of an inode are what its calls left, in order of birth |
| `HookFs.RootPathIff` | src/hookfs/mod.rs:303 | in every run, outside changes included, the root's path is the original directory if and only if that was not forgotten and no path cached for an object numbered like the root survives |
| `HookFs.RootPathMoves` | src/hookfs/mod.rs:303-377 | a run in which one lookup of an object numbered 1 gives the root that object's path |
| `FileHandles.StepKeepsInv` | src/hookfs/mod.rs:712-834 | every step of every task keeps the invariant of the handle table |
| `FileHandles.EveryAccessMeetsItsFile` | src/hookfs/mod.rs:742-834 | in every interleaving in which closing succeeds, every read, write, flush, fsync and close meets the file opened for its handle |
| `FileHandles.SafeIffClosesSucceed` | src/hookfs/mod.rs:812-818 | every continuation of a run without failing closes is free of wrong accesses if and only if no close of the run has failed |
| `FileHandles.UnlockedTableIsExact` | src/hookfs/mod.rs:731-818 | whenever the write lock is free, handles have distinct open descriptors of their own, and every open descriptor is accounted for |
| `FileHandles.FailedCloseLeavesStaleEntry` | src/hookfs/mod.rs:812-818 | a run in which a failed close lets a later read meet another file |
| `LockOrder.OperationsAreOrdered` | src/hookfs/mod.rs:363-1116 | each of the 29 operations and the update call takes locks only above those it holds |
| `LockOrder.RunsAreDisciplined` | src/hookfs/mod.rs:40-139 | every run of every operation, also one cut short after any action by an error, takes locks in rising order, never twice, and gives all back |
| `LockOrder.ChangersHoldForWriting` | src/hookfs/mod.rs:363-1116 | an operation that comes to its end had each table that it changes locked for writing, and the table of its subject to the last action; no run locks any other table for writing |
| `LockOrder.SomeRunTakes` | src/hookfs/mod.rs:40-139 | what a body may lock it does lock on some run |
| `LockOrder.StepKeepsExclusive` | src/hookfs/mod.rs:148-155 | two tasks hold one lock at once only to read |
| `LockOrder.NoDeadlock` | src/hookfs/mod.rs:363-1116 | with any number of tasks, no reachable state with an unfinished task is stuck |
| `LockOrder.EveryScheduleFinishes` | src/jsonrpc.rs:88-92 | once no task arrives, every schedule is bounded in length, and where it can go no further every task has finished and holds nothing |
| `Readdir.ReadOnce` | src/hookfs/mod.rs:872-901 | one reply is the entries from the offset on, in order, up to the first that does not fit or cannot be read |
| `Readdir.ReadAll` | src/hookfs/mod.rs:872-901 | a series of calls returns every entry exactly once, in order, with increasing offsets, within entries + 1 calls |
| `Paths.RebuildKeepsTail` | src/hookfs/mod.rs:326-331 | `rebuild_path` fails exactly outside the original directory, keeps the tail, and is undone by the reverse move |
| `Paths.RebuildIsInjective` | src/hookfs/mod.rs:326-331 | different paths are rebuilt to different paths |
| `Paths.EncodePath` | src/utils.rs:5-23 | the sibling whose name is the old one between `__chaosfs__` and `__`, or an error exactly for the root, for `..` and for a name that is not UTF-8 |
| `Paths.EncodeIsInjective` | src/utils.rs:5-23 | different paths have different encodings |
| `Paths.EncodeGivesSibling` | src/utils.rs:13-20 | the encoding has the same parent, and neither path lies under the other |
| `Mounts.Namespace.NonRoot` | src/mount.rs:25-35 | true exactly when some mount point is a prefix of the path |
| `Mounts.Namespace.MoveMount` | src/mount.rs:37-58 | the top mount changes place, or nothing changes; it does so exactly if neither request is refused and something is mounted |
| `Mounts.Namespace.BindMount` | src/mount.rs:60-77 | on success the target shows what the source named and the source loses its top mount; a source that cannot be unmounted leaves the bind; a failed bind, exactly if it is refused or the source names nothing, changes nothing; with nothing refused a mounted source is moved |
| `Mounts.Namespace.Inject` | src/main.rs:77-112 | once FUSE is up the table is the injected one, also if the replacers then fail; a failure before leaves every path outside the encoded one naming what it did; with nothing refused it succeeds exactly on mount points whose name can be encoded |
| `Mounts.Namespace.RecoverMount` | src/mount_injector.rs:38-71 | on success FUSE is gone and what was set aside is bound back; every failing exit leaves one of three tables, and what was set aside is never lost; with nothing refused it succeeds exactly if FUSE is mounted and some mount lies under it |
| `Mounts.Namespace.Cycle` | src/main.rs:137-138 | after a successful inject and resume every path resolves as before, with one more bind of the same root at the path and every other stack unchanged; with nothing refused both succeed exactly on mount points whose name can be encoded |
| `Mounts.InjectedNames` | src/mount_injector.rs:103-122 | while injected, paths below the path go to FUSE and paths below the encoded one to what the path named |
| `Mounts.InjectedElsewhere` | src/mount_injector.rs:103-122 | while injected, all other paths resolve as before |
| `Mounts.CycleRestoresNames` | src/mount_injector.rs:38-71 | recovering after injecting restores the meaning of every path and the stack of the encoded one |
| `FaultInjector.Select` | src/injector/fault_injector.rs:27-38 | every draw below the sum picks the entry whose share of the range it falls in, and no other draw picks any |
| `FaultInjector.ChoiceIsUnique` | src/injector/fault_injector.rs:31-38 | no draw belongs to two entries |
| `FaultInjector.DrawsMatchWeights` | src/injector/fault_injector.rs:31-38 | of the draws in range, entry k gets exactly as many as its weight |
| `MistakeInjector.Handle` | src/injector/mistake_injector.rs:53-84 | the buffer is changed in place only inside the drawn intervals, in at most max_occurrences * max_length bytes; every byte inside is zero, or the random byte, of the last interval over it |
| `MistakeInjector.OnlyDrawnBytesChange` | src/injector/mistake_injector.rs:61-82 | a byte outside all intervals is unchanged; with zero filling one inside is zero |
| `MistakeInjector.LastFillWins` | src/injector/mistake_injector.rs:61-82 | a byte drawn more than once has what the last interval over it wrote, for both fillings |
| `MistakeInjector.BoundedDamage` | src/injector/mistake_injector.rs:61-82 | n intervals change at most n * max_length bytes |

## Left out

- Machine code: instructions are a list of operations, and the assembler is an encoder whose output has the same length for every address; of the addresses of instructions only that of the first is known.
- Signals and wait statuses: a process stops any number of times before the trap that is waited for; a run that never traps is not modelled, except in the attach loop, which is a state machine because it need not end.
- System calls keep only what the loops can observe: descriptor table with the close-on-exec mark, descriptions with path, status flags and offset, memory, working directory. A write into another process moves all bytes or none.
- MmapReplacer.MmapLoopTrace: the cases must lie apart from the injected data and from the word below the stack pointer, since unmapping either ends the loop in a fault; `RunMmapLoop` proves the first for regions that were mapped before.
- MmapReplacer.MmapLoopTrace: nothing is claimed about the region being back at its old address, which the loop never requests.
- TracedProcess.Process.Restore: an unwrap that fails while the guard writes back is a panic, after which nothing is promised.
- FdReplacer.TableAfterReopenAll: the cases name different open descriptors, as a listing of a stopped process does; `LastCaseWins` drops the first condition, `ReopenAllSparesOthers` and `ReopenAllAddsNoneIff` the second.
- PtraceManager.CounterCountsHandles: up to i32::MAX events, after which the counter wraps.
- InodeRefs.CountCoversReferences: reference counts are unbounded here, a u64 there.
- HookFs.GetPathNamesTheInode: no changes to the backend from outside and no injected inode number; `RebuildNeverFails` and `RootPathIff` need neither.
- HookFs.FileSystem.Make: one method for mknod, mkdir and symlink, which differ in the object they ask for.
- FileHandles.EveryAccessMeetsItsFile: directory handles close themselves and are not in this table.
- Leaks on error paths: `create` can fail between opening and storing, `with_mmap` skips its unmapping when its body fails, `trace` can fail after some attaches. The first is an `Abandoned` descriptor in `FileHandles`; the others are not claimed away.
- Joining paths as bytes: a rebased path is a sequence of components, so a trailing separator from joining an empty tail is not seen.
- Mounts.Namespace.Inject: the path is canonical as given; src/main.rs:96 hands on the path before it is canonicalised, which differs when it goes through a link.
- The FUSE thread failing after its mount was requested, and mount propagation.
- Extended attributes, statfs, access, setattr and readlink bodies: only their locks are modelled.
- The filter (globs, probabilities), the random generator, latency and attribute injectors, configuration and JSON-RPC plumbing.
- The cwd replacer's `prepare`: a filter over processes, without grouping.
- That disabling injection makes the file system transparent: written data is corrupted whether or not injection is enabled.
