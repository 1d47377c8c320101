# A model of nano-sandbox's lifecycle

nano-sandbox runs containers from OCI bundles. Its commands (`create`, `start`, `run`, `exec`, `delete`,
`state`) share nothing but a directory of small JSON records and the kernel's process table, and
neither is locked. This project models the parts where that makes correctness hard, and proves
what they keep.

- **Lifecycle** (`Records`, `Lifecycle`, `Coherence`, `Commands`, `Outcomes`, `Conservation`, `Runtime`). A world
  is the store of records, the table of container init processes and a log of effects. Each
  command is a function on worlds (`Lifecycle`) and a method that overwrites and saves a record
  step by step (`Runtime`), proved equal. What the host decides is a parameter: which processes
  exit between two kernel calls, whether a signal is permitted, how clone, wait, the helper, a
  save or an unlink ends. `Outcomes` tells what every command reports, sends and writes in terms of
  those parameters and of nothing else. A save ends in one of four ways: done; failed before the file was
  opened; torn and reported; torn and reported as done, since the result of `fclose` is not looked at
  (`src/common/state.c:267`). The theorems range over every run of commands and host moves.
- **Overlap**. One `start` and any number of `exec` and `state` commands on the same id, interleaved
  step by step, with a save split into truncating and writing.
- **Handshake**. Parent and child of `nk_container_exec` over one pipe with four descriptor
  copies, one status byte and end-of-file, interleaved step by step.
- **Root file system** (`MountTree`, `Rootfs`). The mount namespace as a tree of mounts, the mount
  calls as edits of it, and the code's sequence of calls as methods of a namespace.
- **State directory** (`Disk`, `MakeDirs`, `StateStore`). A tree of directories and files with path
  resolution, `mkdir_p` over its character buffer, and save, load, exists and delete refining a
  map from id to record.
- **Parsing and the small loops** (`SpecLists`, `Namespaces`, `Annotations`, `BoundedJoin`,
  `CommandLine`). Lists into C arrays with the ownership of every allocation, namespaces into the
  clone mask, annotation buffers, the bounded join, option normalisation.

## What the proofs found

The model does what the code does. Where code and documentation differ, or a property holds only
under a condition, this is what was proved instead.

- `delete` fails on an id it cannot load and waits 100 ms (`src/main.c:951-954`, `src/main.c:963`);
  `docs/command-reference.md:434` and `:438` show success and 5 seconds.
- `docs/exec-design.md:47` asks that a dead init turn the record STOPPED. The probe is `kill(pid, 0)`,
  which a zombie still answers, so this happens exactly when the init has been reaped by the probe
  (`Commands.ExecIsNotALifecycleTransition`; `Commands.ZombieStaysRunning` is a run where it does not).
- A `start` whose RUNNING record cannot be saved only warns, and forgets the init it launched unless
  that ends: `Conservation.StartConservesIff`, with a run from nothing in `UnsavedStartForgets`.
- A `delete` whose signals are refused still removes the record of a live init:
  `Conservation.DeleteConservesIff`, with a run from nothing in `RefusedTermForgets`.
- If the write of the ready byte is lost the parent gives up and waits until the running container
  ends: `Handshake.WaitIsForWorkloadIff`, `Handshake.LostByteStrandsParent`.
- `umount2` takes the topmost mount at `/.pivot_old`. If something covered the old root, that goes and
  the old root stays reachable there: `Rootfs.OldRootIsBareIff`, with a tree in `Rootfs.OneCoverComesOff`.
- A recursive bind leaves out unbindable mounts, so below a rootfs that is no mount point they vanish:
  `MountTree.SelfBindHidesUnbindable`.
- With `--pid-file` a detached start whose RUNNING save fails reports failure and runs:
  `Outcomes.MainStart`.
- The parsing loops store at the index of the source array but count only what they keep. The
  counted entries are the right ones, and nothing leaks, exactly when no skipped entry precedes a
  kept one: `SpecLists.CompactIff`, `SpecLists.Heap.ParseAndFree`, `Namespaces.TypesAreThereIff`, with
  the smallest failing array in `SpecLists.SkippedFirst`.
- An unknown namespace type is taken for PID: `Namespaces.MaskIsByNameIff` says when that shows,
  `Namespaces.UnknownMakesPid` shows it.
- An annotation key with `=` in it can answer for another key: `Annotations.LookupRightIff`, and
  `Annotations.KeyWithSeparatorAnswers` for one that does.
- The logged command line is empty if an empty first argument is followed by others:
  `BoundedJoin.CommandIsJoinIff`, `BoundedJoin.EmptyFirstArgumentHides`.
- `mkdir_p` can succeed although a prefix of the path is a regular file, as with `f//` over a file `f`:
  `MakeDirs.MakeAllDirsIff` says exactly when, `MakeDirs.SlashesHideAFile` is that case. It refuses
  `/`: `MakeDirs.MakeAllRefuses`.
- A state directory written with `..` can be lost by a delete and found again by a save:
  `StateStore.StateDirectory.DeleteState` and `Save` say exactly when what the commands find is not
  what they should, `StateStore.DotDotLosesAndFinds` is a run of both. Without `..` all that is
  stored is found: `StateStore.StateDirectory.StraightPathFindsAll`.
- `--exec` is accepted, and ignored, with `create`: `CommandLine.ParsedIsNormal`,
  `CommandLine.CreateTakesExec`.

Assumptions of the whole-run theorems are predicates of the model: `Conservation.GoodRun` (a pid in
use or named by a RUNNING record is not issued again; each command meets the exact condition under
which it conserves, `Conservation.StepConservesIff`), and in `Overlap` that nobody creates, deletes
or starts the id a second time meanwhile.

## Model

| member | source | states |
|---|---|---|
| Conservation.ProcessConservation | src/main.c:714-987 | In every run of commands and process exits each init is dead, was sent SIGKILL, or is the pid of exactly one RUNNING record; no two RUNNING records share a pid; each command is only assumed to meet the exact condition under which it conserves |
| Conservation.NoInitIsForgotten | src/main.c:714-987 | From an empty store, in every such run: each init is dead, or is the pid of exactly one RUNNING record, or is itself marked as sent SIGKILL and has one in the log |
| Conservation.StartConservesIff | src/main.c:714-764 | A start keeps every init accounted for if and only if it launches none, or its RUNNING save goes through, or it is attached and its wait succeeds, or the host lets the init end before it returns |
| Conservation.EndsInStartIff | src/main.c:725-764 | The init is dead when start returns, attached or not, exactly under that condition on what the host does |
| Conservation.UnsavedStartForgets | src/main.c:725-729 | From an empty store: create, then a detached start whose RUNNING save fails, leaves a live init that nothing accounts for |
| Conservation.DeleteConservesIff | src/main.c:957-979 | A delete keeps every init accounted for if and only if it drops no RUNNING record, or the init named was not live or condemned already, or kill, probe and kill are all permitted, or the host lets the init end while the stop sequence goes on |
| Conservation.RefusedTermForgets | src/main.c:961-979 | From an empty store: create, start, and a delete whose SIGTERM is refused leave a live init that nothing accounts for |
| Conservation.StopRefused | src/main.c:957-971 | With a signal or probe refused, a live init survives exactly if the host does not let it end meanwhile, and a survivor has not been sent SIGKILL |
| Conservation.StopStops | src/main.c:957-971 | With signals permitted the init is dead or has been sent SIGKILL when delete is through with it |
| Conservation.RunConservesIff | src/main.c:774-804 | A run keeps every init accounted for if and only if it creates nothing, or its start conserves and with --rm its delete does |
| Conservation.ForgottenForGood | src/main.c:788-794 | An init that start forgot is not brought back by the clean-up that follows |
| Conservation.StepConservesIff | src/main.c:514-987 | Any command or host move keeps every init accounted for if and only if it meets the condition that the whole-run theorems assume of it |
| Conservation.StepInv | src/main.c:514-987 | Every single command and host move under that condition keeps the whole conservation invariant |
| Coherence.RunsStayCoherent | src/main.c:578-588 | In every run, torn saves included, each parseable record is under its own id and CREATED with pid 0, RUNNING with a pid, or STOPPED with pid 0; PAUSED is never reached |
| Coherence.LifecycleIsMonotone | src/main.c:607-944 | Between create and delete the record of an id never goes back and keeps its id, bundle and mode, whatever runs on any id |
| Coherence.TornRecordIsNeverActedOn | src/common/state.c:308-317 | Once a state file does not parse, no run of commands spawns, signals, rewrites or removes anything for that id |
| Coherence.StepKeeps | src/main.c:514-1001 | One command touches the record and the processes of its own id only, and moves it forward unless it is delete |
| Commands.ExecReturns | src/main.c:848-944 | exec returns -1 exactly on a runtime error and otherwise a code in 0..255 |
| Commands.ExecIsNotALifecycleTransition | src/main.c:806-944 | exec changes the store only by saving its own record as STOPPED, for any outcome of that save, exactly when a probe found the init gone; tool failures with a live init leave it equal |
| Commands.ZombieStaysRunning | src/main.c:806-814 | An exec over an init that is dead but not reaped succeeds and leaves the RUNNING record |
| Commands.StartOutcome | src/main.c:607-772 | Start fails exactly if it could not launch or could not wait; it mirrors the exit it waited for, in numbers; a start that did not launch leaves store and processes equal, one that did logs one spawn, condemns nobody and reaps what it waited for, whatever the saves do |
| Commands.StartRecord | src/main.c:725-763 | The last of the two saves that opened the file decides the record: STOPPED without pid after the wait, else RUNNING with this pid, else still CREATED |
| Commands.RunRmTrace | src/main.c:774-804 | run --rm changes nothing on a taken id; on a free one it leaves a file exactly when a deciding save tore or the unlink failed |
| Commands.RunRmSendsNoSignal | src/main.c:774-804 | On the success path delete finds a STOPPED record and sends no signal, and the exit status is the container's, in numbers |
| Commands.DeleteFile | src/main.c:946-987 | delete succeeds exactly on a record that parses and removes that record alone, if the unlink works; on a missing or torn one it changes nothing at all |
| Commands.RunsLogKills | src/main.c:957-971 | Every process marked as killed has a SIGKILL in the log |
| Outcomes.MovesAreForward | src/main.c:806-814 | Processes moving on their own never come back, and nobody is condemned by it |
| Outcomes.CreateOutcome | src/main.c:514-605 | create succeeds exactly if the state directory and the spec are good, the id is free and the save says so; the record then holds this id, bundle and mode, CREATED without a pid; it has no other effect |
| Outcomes.StartStatus | src/main.c:734-771 | An attached start reports exit status n as n and death by signal s as 128 + s, a detached one 0 |
| Outcomes.RunStatus | src/main.c:774-804 | run is -1 exactly if it cannot create, launch or wait, or with --rm finds a torn record; else 0 when detached and the exit as above when attached, with and without --rm |
| Outcomes.ExecStatus | src/main.c:933-943 | A session that ran reports the helper's exit status n as n, death by signal s as 128 + s, and anything else as 1 |
| Outcomes.ExecSendsNothing | src/main.c:848-944 | Whatever happens exec starts no init, sends no signal and condemns nobody |
| Outcomes.DeleteSignals | src/main.c:957-971 | delete adds to the log SIGTERM exactly if the record is RUNNING, its init is there and SIGTERM is permitted, then SIGKILL exactly if the init is still there after the pause and at the kill and both calls are permitted, and nothing else; who is condemned by it was sent that SIGKILL |
| Outcomes.MainStart | src/main.c:1039-1048 | The status of the start command line and its pid file: -1, the exit, or 0; with a pid file the init's pid exactly if the RUNNING record was saved and the file opens, else -1 although the container runs |
| Outcomes.MainRun | src/main.c:1048-1053 | The same for the run command line |
| Outcomes.MainOther | src/main.c:1037-1086 | A failed create or delete is -1 and a good one 0, state is 0 with a record that parses and else 1, exec reports its session; none writes a pid file |
| Records.RoundTrip | src/common/state.c:244-356 | Load after save gives the normalised record, and the same record exactly if its state has a name and its bundle is not empty |
| Records.RecordText | src/common/state.c:244-249 | Each member of the written record under its name, and each state and mode by its word |
| Records.ForeignText | src/common/state.c:321-349 | Members that are missing, mistyped or unknown words are read as a CREATED container without id, bundle and pid |
| Records.PidIsCutTo32Bits | src/common/state.c:347-349 | A pid too wide is read as the 32-bit number that agrees with it modulo two to the 32 |
| Records.StatusRoundTrip | src/common/state.c:87-108 | created, running, stopped and paused survive their text form; invalid becomes created |
| Runtime.Machine.Save | src/common/state.c:197-284 | The store and the report after each of the four ways a save can end |
| Runtime.Machine.CreateContainer | src/main.c:514-605 | Step by step, does to store, processes and log what the create function says |
| Runtime.Machine.StartContainer | src/main.c:607-772 | Step by step, overwriting and saving the record twice, does what the start function says |
| Runtime.Machine.RunContainer | src/main.c:774-804 | create, start and clean-up compose to the run function, on failure paths too |
| Runtime.Machine.UpdateStoppedStateIfDead | src/main.c:830-846 | Rewrites a RUNNING record as STOPPED if its init no longer answers, and otherwise touches nothing |
| Runtime.Machine.ExecIn | src/main.c:848-944 | Does what the exec function says for every outcome of the probes, /proc, fork, wait and save |
| Runtime.Machine.StopProcess | src/main.c:957-971 | SIGTERM, a pause, and SIGKILL only if the process still answers |
| Runtime.Machine.DeleteContainer | src/main.c:946-987 | Stops a RUNNING container, then removes the record; reports success even if the unlink failed |
| Runtime.Machine.WritePidFile | src/main.c:473-512 | What is read back from the record and written, and the status, for each way the option is given |
| Runtime.Machine.Execute | src/main.c:1017-1093 | One command line equals one step of the run the theorems are about, returns that command's status, and writes the pid file or fails for it |
| Runtime.Machine.Session | src/main.c:1017-1093 | A whole session equals the run, and so keeps every init accounted for under the assumptions of conservation |
| Overlap.LifecycleIsMonotoneUnderOverlap | src/main.c:714-764 | In every interleaving of start with exec and state commands the records seen follow CREATED, RUNNING, STOPPED, keep id, bundle and mode, and STOPPED is seen only once the init is reaped |
| Overlap.EachWriteMovesForward | src/main.c:714-846 | Each write is the RUNNING record as first word after CREATED while the init exists, or STOPPED after it is reaped |
| Overlap.ExecWritesOnlyAfterReap | src/main.c:830-846 | No exec touches the file before the init is reaped and start is over or about to write STOPPED |
| Overlap.LoadInTheWindowWritesNothing | src/common/state.c:299-317 | A command that loads between truncation and write fails at once and never acts again |
| Overlap.QuietFileParses | src/main.c:714-846 | If no write is lost, then once start and all sessions are over the file parses and holds the last and furthest record seen |
| Overlap.AttachedStartRecordsTheEnd | src/main.c:745-764 | Whatever exec and state commands do meanwhile, an attached start whose steps all succeed has put STOPPED without pid last when it is over, and with no write lost the quiet file says so |
| Overlap.ExecRecordsTheEnd | src/main.c:830-846 | An exec in whose window the init is gone, and whose own steps succeed, has put STOPPED among the records when it is over |
| Overlap.TwoStepsAreOneSave | src/common/state.c:252-275 | Truncate then write by start, uninterrupted, is one save of the whole-command model with the same outcome, and in between the file does not parse |
| Overlap.SessionStepsAreOneSave | src/common/state.c:252-275 | The same for the save of an exec |
| Overlap.StartAloneIsStart | src/main.c:607-772 | The steps of start with nobody in between leave in the file what start of the whole-command model leaves |
| Overlap.StartAloneIsRefused | src/main.c:619-632 | On a record that is not CREATED or does not parse both do nothing |
| Overlap.ExecAloneIsResume | src/main.c:848-944 | The steps of exec with nobody in between leave what exec of the whole-command model leaves, whether or not the init goes away meanwhile |
| Overlap.StateAloneIsALoad | src/main.c:989-1001 | A state command is over with its load and changes nothing |
| Overlap.NextKeepsInv | src/main.c:607-944 | Every step of every party keeps the invariant of the window |
| Handshake.HandshakeIsSafe | src/container/process.c:198-298 | In every interleaving a pid is returned exactly if the ready byte arrived, which follows a finished root file system; otherwise the child is reaped; descriptors closed and stack freed once on all paths |
| Handshake.ReturnsPidIff | src/container/process.c:110-298 | A pid is returned if and only if no stack, pipe or clone failed, the setup of the root file system succeeded, the ready byte was written, and the child was not killed before |
| Handshake.PidNeedsSetup | src/container/process.c:131-138 | A pid is returned, and the program started, only if the setup was tried in the child and succeeded |
| Handshake.FailedSetupIsFinal | src/container/process.c:133-138 | After a failed setup, in every continuation, no ready byte is told, the program never starts and no pid is returned |
| Handshake.ErrorIsTold | src/container/process.c:134-137 | When the write of the error byte goes through, the parent judges by that byte |
| Handshake.FailedExecIsFinal | src/container/process.c:178-192 | After a failed execve the program never runs and the child is only to be reaped |
| Handshake.WorkloadHoldsNoEnd | src/container/process.c:117-118 | The container's program inherits no end of the pipe |
| Handshake.NothingReleasedTwice | src/container/process.c:266-297 | No parent step closes a descriptor that is not open or frees a stack it does not hold |
| Handshake.ParentReleasesOnce | src/container/process.c:266-297 | In each state the parent's code can be in, its next step closes only what is open and frees only a held stack |
| Handshake.HandshakeNeverHangs | src/container/process.c:276-289 | The parent is never stuck in read with the child dead, and somebody can always move until it returns |
| Handshake.OwnWriteEndWouldHang | src/container/process.c:276-277 | Without the parent's close of its own write end, a child that dies silently blocks everybody |
| Handshake.HandshakeEnds | src/container/process.c:110-298 | Every interleaving ends within eighteen steps, the end of a workload counted as one, and when nobody can move the parent has returned |
| Handshake.WaitIsForWorkloadIff | src/container/process.c:282-289 | Giving up, the parent waits for a working container exactly if the ready byte was lost, and then after a finished root file system |
| Handshake.OnlyItsEndReleases | src/container/process.c:282-289 | In that wait nothing but the end of the workload can happen |
| Handshake.LostByteStrandsParent | src/container/process.c:172-176 | An interleaving in which the write of the ready byte fails and the parent waits for a running workload |
| Handshake.RunKeepsInv | src/container/process.c:110-298 | The invariant over child, pipe and holdings survives every interleaving |
| Rootfs.Namespace.MakePrivate | src/container/mounts.c:42-63 | For any path, mount point or not, and a root that may be covered: paths lead where they led, or where they lead once the path is bound on itself; on success the path is a private mount point, and success exactly if the calls of the path taken work |
| Rootfs.BoundLooksTheSame | src/container/mounts.c:49-53 | That bind changes no path elsewhere nor the path itself, and none at all if nothing below is unbindable |
| Rootfs.Namespace.PivotRoot | src/container/mounts.c:162-203 | What pivot_root demands of its arguments is met at the call; it succeeds exactly if the calls work and the parent mount of the old root is not shared; the new tree, with the old root gone only if it was unmounted and not covered |
| Rootfs.Namespace.SetupRootfs | src/container/mounts.c:208-274 | Exactly when it succeeds; then /proc, /sys, /dev, /dev/pts, /dev/shm and /dev/mqueue each show their mount if it went through, all other paths show the rootfs, and everything in it is private; the old root is gone if the unmount worked and nothing covered it, else /.pivot_old shows what remains of the cover, and the old root if nothing remains |
| Rootfs.MountedStaysVisible | src/container/mounts.c:22-35 | In the list order every default mount that succeeded decides what its target shows; joined to the resulting root in SetupRootfs |
| Rootfs.TargetsAreOrdered | src/container/mounts.c:22-35 | In the list of default mounts no later target covers an earlier one |
| Rootfs.RootfsStaysVisible | src/container/mounts.c:228-253 | The root itself shows the rootfs whatever default mounts succeed; joined to the resulting root in SetupRootfs |
| Rootfs.AllIsVisible | src/container/mounts.c:228-253 | A tree that shows the list's outcome outside /.pivot_old shows every successful default mount at its target and the rootfs at its root |
| Rootfs.SelfBindMeetsPivot | src/container/mounts.c:174-185 | The recursive self-bind of a prepared rootfs meets what pivot_root asks of new_root and put_old, and detaching it gives the tree before |
| Rootfs.PivotedView | src/container/mounts.c:181-197 | What every path shows after pivot and unmount, whatever covered the old root |
| Rootfs.OldRootIsBareIff | src/container/mounts.c:194-197 | The old root lies bare at /.pivot_old if and only if it was not unmounted and not covered, or one cover was unmounted in its stead |
| Rootfs.OneCoverComesOff | src/container/mounts.c:194-197 | A tree with one mount over the old root in which, all calls going well, a file of the old root is in sight afterwards |
| Rootfs.FlatBindLosesMounts | src/container/mounts.c:174-179 | With a self-bind that is not recursive every default mount would be hidden |
| Rootfs.BuiltStep | src/container/mounts.c:228-253 | One turn of the mount loop keeps the rootfs a private mount point and what lies outside unchanged |
| MountTree.AttachView | src/container/mounts.c:244-252 | After a mount, paths at and below its target lead into it and all others lead where they led |
| MountTree.SelfBindLooksTheSame | src/container/mounts.c:49-53 | A recursive bind of a path on itself changes what no path leads to, if nothing below is unbindable |
| MountTree.SelfBindElsewhere | src/container/mounts.c:49-53 | It never changes the path itself or what lies elsewhere |
| MountTree.SelfBindHidesUnbindable | src/container/mounts.c:49-53 | The place of an unbindable mount below shows the directory under it afterwards |
| MountTree.FlatSelfBindHides | src/container/mounts.c:174-179 | Without MS_REC every path below shows the bare directory |
| MountTree.MadePrivateLooksTheSame | src/container/mounts.c:43-56 | A change of propagation changes what no path leads to |
| MountTree.DetachUndoesAttach | src/container/mounts.c:194-197 | Unmounting takes exactly the mount away that was attached last |
| MountTree.DetachTakesTopmost | src/container/mounts.c:194-197 | Unmounting where a stack of mounts hangs takes the topmost of the stack only |
| MountTree.AttachTops | src/container/mounts.c:49-53 | The mount just attached is the one its path ends in |
| StateStore.StateDirectory.EnsureContainerDir | src/common/state.c:137-192 | Only directories are added; on success the container's directory is there and reached; it succeeds if nothing is in the way |
| StateStore.StateDirectory.Save | src/common/state.c:197-284 | Refines the save of one record of a finite map with one of four outcomes; every other path of the tree is as before; what commands find changes alike if and only if mkdir_p does not open the way to other records that lay there unreached |
| StateStore.StateDirectory.Load | src/common/state.c:289-356 | Returns exactly the record the commands find for the id, none for a missing or unparseable file or a refused open |
| StateStore.StateDirectory.StateExists | src/common/state.c:392-407 | True exactly for the ids of the map, torn files included |
| StateStore.StateDirectory.DeleteState | src/common/state.c:361-387 | Removes the id's entry exactly if it is found and unlink works; no other path but the emptied directory goes away; what commands find changes alike if and only if the way to the state directory does not lead through that directory, or nothing is left |
| StateStore.StateDirectory.WayAfterDelete | src/common/state.c:371-384 | A delete closes the way to the state directory exactly if it empties and removes a directory that the way leads through |
| StateStore.WalkWithout | src/common/state.c:378-384 | Taking a directory away closes exactly the ways that lead through it |
| StateStore.DotDotLosesAndFinds | src/common/state.c:361-387 | With /s/x/.. configured and a record of y, deleting x makes the commands find nothing, and the next save of x, however it ends, makes them find y again |
| StateStore.StateDirectory.PathsLead | src/common/state.c:119-135 | The built paths resolve to the id's own place below the state directory |
| StateStore.StateDirectory.StraightPathFindsAll | src/common/state.c:119-135 | With no .. in the state directory's path the commands find all that is stored |
| StateStore.WriteFileAbs | src/common/state.c:252-275 | Writing an id's state file changes the map at that id only |
| StateStore.UnlinkAbs | src/common/state.c:371-376 | Unlinking an id's state file takes that id out of the map only |
| StateStore.SavedIsWrite | src/common/state.c:252-275 | The written text, whole or cut, is the outcome the lifecycle model assumes |
| MakeDirs.Host.MkdirP | src/common/state.c:18-53 | The walk that cuts and restores the buffer does to the tree what the walk over prefixes does, with the buffer equal to its start before each step |
| MakeDirs.Host.MkdirCut | src/common/state.c:37-44 | Cutting at a slash makes the prefix before it, and the buffer is restored |
| MakeDirs.MakeAllMakes | src/common/state.c:18-53 | Success exactly if in the end the path and each non-empty slash-cut prefix exist; only such prefixes are created, as directories, and nothing is removed; prefixes with fewer components are directories |
| MakeDirs.MakeAllSucceedsIff | src/common/state.c:18-53 | With nothing denied it succeeds if and only if no place on the way, short of the last, is taken by a file |
| MakeDirs.MadeMeansNoFile | src/common/state.c:37-52 | Success, whatever was denied, means that no file was on the way |
| MakeDirs.MakeAllDirsIff | src/common/state.c:18-53 | After success every slash-cut prefix is a directory if and only if it is not the case that the path ends in a second slash and a regular file was in its place before the call |
| MakeDirs.MadeIsDirIff | src/common/state.c:18-53 | After success the path itself is a directory exactly if no regular file was in its place |
| MakeDirs.MakeAllTwice | src/common/state.c:18-53 | A second call succeeds and leaves the tree unchanged |
| MakeDirs.MakeAllRefuses | src/common/state.c:18-31 | The empty path, the root and paths that do not fit are refused without a change |
| MakeDirs.SlashesHideAFile | src/common/state.c:32-52 | A concrete path whose creation succeeds although a prefix of it is a regular file |
| Disk.MkdirKeeps | src/common/state.c:39-42 | mkdir adds at most one directory, at the path's own place under an existing one, and fails if and only if the path does not exist afterwards |
| SpecLists.CompactIff | src/oci/spec.c:170-189 | The counted slots are the well-typed entries in order if and only if no skipped entry precedes a kept one |
| SpecLists.MountsAreWhole | src/oci/spec.c:288-315 | Each mounts entry with a destination is found whole at its index: destination, type, source, each option and the array |
| SpecLists.SkippedFirst | src/oci/spec.c:170-189 | One entry without a type before one with a type: the counted slot is empty and the kept string is leaked |
| SpecLists.KeptAreFirst | src/oci/spec.c:282-319 | That condition holds exactly if the entries up to the count are all kept, and exactly if none after it is |
| SpecLists.LeakedBeyond | src/oci/spec.c:378-404 | The slots after the count own nothing exactly if no entry there was kept |
| SpecLists.Heap.ParseEntry | src/oci/spec.c:174-187 | One turn places its entry at its own index, counts it if kept, and hands out fresh allocations only |
| SpecLists.Heap.ParseList | src/oci/spec.c:170-189 | Kept entries at their own index, empty slots elsewhere, the count of the kept ones, and every string in an allocation of its own |
| SpecLists.Heap.FreeList | src/oci/spec.c:387-403 | Frees what the counted slots own, each allocation once |
| SpecLists.Heap.ParseAndFree | src/oci/spec.c:378-404 | All memory is given back if and only if no skipped entry precedes a kept one |
| SpecLists.Heap.ParseAndFreeNamespaces | src/oci/spec.c:170-189 | For the namespaces array nothing leaks if and only if no entry without a type precedes one with a type |
| SpecLists.Heap.ParseAndFreeMounts | src/oci/spec.c:282-319 | For the mounts array nothing leaks if and only if no entry without a destination precedes one with a destination |
| Namespaces.CloneFlags | src/container/process.c:204-208 | Parsing, mapping and OR-fold give a mask in which each of the seven clone flags, by its number, is set exactly when an entry of the type of that word has no path (for PID also an unknown word), the low byte is 17 and nothing else is set |
| Namespaces.MaskInNumbers | src/container/namespaces.c:20-28 | The same for any mask of an array, from kinds to words and numbers |
| Namespaces.GetCloneFlags | src/container/namespaces.c:43-51 | The bits of the fold are the kinds that are enabled without a path |
| Namespaces.MapNamespaces | src/main.c:670-691 | Each counted namespace becomes the configuration of its entry |
| Namespaces.OrderDoesNotMatter | src/container/namespaces.c:43-51 | Arrays with the same entries in any order and number have the same mask |
| Namespaces.TypesAreThereIff | src/main.c:674-683 | The type strings start compares are all there if and only if no skipped entry precedes a kept one |
| Namespaces.MaskIsByNameIff | src/main.c:674-683 | Every bit means what its name says exactly if a new namespace of unknown type comes with one of type pid |
| Namespaces.UnknownMakesPid | src/main.c:674-683 | A single entry of an unknown type yields a PID namespace that no entry names |
| Namespaces.NamesAreApart | src/main.c:676-682 | The chain of comparisons finds the kind of each name, and PID for an unknown one |
| Annotations.Encode | src/oci/spec.c:338-339 | The buffer holds key, =, value and NUL and fits its allocation exactly |
| Annotations.EncodeAll | src/oci/spec.c:328-346 | One buffer per annotation with a string value, in order |
| Annotations.StartsWith | src/oci/spec.c:478 | Compares within the buffer, and true exactly if the key is a prefix of its text |
| Annotations.GetAnnotation | src/oci/spec.c:470-484 | The first buffer that starts with key and = answers, and no read leaves a buffer |
| Annotations.LookupIsRight | src/oci/spec.c:328-346 | The lookup gives the string value of the key if present and nothing otherwise, unless a confusable string-valued key comes before the key's own member |
| Annotations.PlainKeysAreSafe | src/oci/spec.c:470-484 | Keys without = are never confused |
| Annotations.PlainObjectsAreClear | src/oci/spec.c:470-484 | With =-free keys and query the lookup is always right |
| Annotations.LookupRightIff | src/oci/spec.c:470-484 | For a whole object the lookup is right for all string values under its keys if and only if no confusable string-valued key precedes the queried key's own string-valued member |
| Annotations.KeyWithSeparatorAnswers | src/oci/spec.c:470-484 | With the one key a=b the query a, which is not there, is answered |
| Annotations.EncodeAndGet | src/oci/spec.c:328-346 | Encoding any object and looking a key up gives the object's value for it, unless a confusable key comes first |
| BoundedJoin.JoinCommand | src/main.c:204-219 | The 512 bytes read as the command line, NUL-terminated, and the offset is its length, at most 511 |
| BoundedJoin.CommandIsJoinIff | src/main.c:204-221 | The command line is the first 511 characters of the joined arguments unless, and only unless, an empty first argument is followed by others |
| BoundedJoin.JoinOfOneMore | src/main.c:207-212 | The join of one more argument is the join so far, one space, and the argument |
| BoundedJoin.EmptyFirstArgumentHides | src/main.c:207-221 | The arguments "" and x give an empty command line |
| BoundedJoin.CutShort | src/main.c:207-219 | Once the buffer is full the remaining arguments make no difference |
| CommandLine.ParseArgs | src/main.c:263-450 | The loop and the checks accept exactly the combinations the rules allow, with the normalised options |
| CommandLine.ParsedIsNormal | src/main.c:384-447 | A parsed start or run is attached or detached and not both, rm implies attached run, other commands have none of the three, an exec line comes only with exec, resume or create |
| CommandLine.AcceptedIff | src/main.c:384-447 | For every command the exact combinations of options that are accepted, and what becomes of the three flags |
| CommandLine.LastOptionCounts | src/main.c:314-342 | Of --bundle, --pid-file, --exec and --runtime the last one given counts, with their defaults when not given |
| CommandLine.FirstStopCounts | src/main.c:318-376 | The first option that ends the parse decides whether it fails or exits |
| CommandLine.HelpAndVersion | src/main.c:276-283 | -h and -v stand for help and version whatever follows |
| CommandLine.CreateTakesExec | src/main.c:384-392 | create with --exec is accepted and keeps its command line |
| CommandLine.OrderDoesNotMatter | src/main.c:314-377 | Acceptance and the three flags do not depend on the order or number of the options |

## Left out

- Cgroups: nothing sets them up on `start`, and delete only tries to remove a directory.
- VM mode beyond its refusal by `start`, and the planned designs in the documentation.
- Logging, usage text, colours, log levels and `nk_namespace_flags_to_string`: they decide nothing.
- `nk_container_mount_custom`, `nk_namespace_join`, `nk_container_setup_namespaces`, hostname and uid/gid helpers: nothing calls them or nothing sets their input.
- getopt_long is a sequence of options and the first other argument; JSON text is a record of fields or unparseable.
- The choice of the state directory from the environment: one fixed directory.
- Memory allocation failures other than that of the clone stack and its pipe.
- Races of create, delete and a second start of one id, and the CLI being killed between clone and save: nothing guards against them in the code.
- Conservation.ProcessConservation: assumes that the kernel does not reissue a pid that a RUNNING record names, since the code cannot tell such a process from its own.
- Handshake.HandshakeIsSafe: signals that interrupt the parent's read are not modelled.
- A state file that may not be opened for reading: the commands then fail as on a missing one; `StateStore.StateDirectory.Load` has the case, the lifecycle model does not.
- Rootfs.Namespace.SetupRootfs: types, flags and options of the default mounts, device nodes, other namespaces and peers of shared mounts, and paths cut off at PATH_MAX are not modelled; whether the mount above the old root is shared is a constant.
- StateStore.StateDirectory.Save: no symbolic links; ids are single path components.
- Records.RoundTrip: strings in a record are valid UTF-8.
- Namespaces.CloneFlags: with a skipped entry before a kept one `start` compares a NULL type string, which has no defined result.
- Annotations.EncodeAndGet: keys, values and query are free of NUL.
- BoundedJoin.JoinCommand: arguments shorter than INT_MAX.
