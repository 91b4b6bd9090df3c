# strace-go data plane: a model and its proofs

strace-go traces system calls with a set of eBPF programs. They run in the context of whichever
task hits a tracepoint, share maps and task-local storage, chain to each other by tail calls that
may fail, read user memory that may fault, and write records into a bounded ring. This project
models that data plane, and the manifest check that guards it, and proves what it keeps.

How the pieces fit together:

- `Abi`, `PendingCore`, `Protocol`: the vocabulary, the per-task pending record with its history, and
  every tracepoint program as a step function on one shared state. Whatever a program cannot decide
  (ABI, user memory, map updates, storage, tail calls) is part of the step's label, so a for-all over
  labels is a for-all over environments. A run is any interleaving over any number of tasks.
- `Steps`: the induction principle for runs. `Generations`, `Edges`, `Handoff`, `CleanRuns`,
  `Reports`, `Stories`, `Startup`, `Tracking`, `Forks`, `Attach`, `KvmExits`, `Chains`, `Decisions`: the
  theorems about steps and runs.
- `Programs`, `Tracer`: the programs on the data they have. Storage holds no generation, filter words are bits, the
  ring carries no generation, path fragments share one scratch area. Each program refines its step through
  an abstraction function; `TraceAll` transfers the theorems about runs to the ring of a run.
- `Ledger`: sequence numbers, loss epoch and first-loss time as interleaved atomic steps.
- `UserMemory`, `PathRead`, `DentryWalk`, `Collectors`: bounded reads and collectors, loops over
  mutable buffers that refine sequence specifications.
- `Tlv`, `Captures`, `FdPaths`, `MountSetattr`, `SelectPayload`, `ExecPayload`: payload sections at running
  offsets in a reservation, and the walk that reads them back.
- `Manifest`: the program table and dependency checks of the capture manifest.

The history of a run exists for specification: it lists saves, overwrites, retirements and calls of
emitters. Generations number the saved records; the programs have no such counter, and in `Tracer` both
are ghost.

Where the code falls short of its comments, the model follows the code:

- the free step clears the record of the current task (`Handoff.FreeDropsCurrentRecord`), although
  its comment promises cleanup by the freed task's PID;
- the dispatcher arms the exec handoff even when execve is filtered, but its exit edge returns before
  cleanup (`Handoff.FilteredExecLeavesEntry`);
- two threads of one group in execve disturb each other's handoff
  (`Handoff.RivalExecRemovesHandoff`), so the handoff theorem is stated for one;
- a call of any sibling on a foreign ABI deletes the handoff entry too, and with it, once the leader has
  exited, the group's tracking (`Handoff.ForeignAbiRemovesHandoff`); which sibling edges do no harm is
  stated exactly.

## Model

| member | source | states |
|---|---|---|
| `Generations.EveryGenerationEndsOnce` | bpf/syscall_event_core_v2.h:87-117 | in every run over any number of tasks, each saved pending generation has at most one completed exit event and ends as exactly one of completed, dropped, overwritten, still pending |
| `Generations.EveryExitCarriesItsEnter` | bpf/syscall_event_core_v2.h:255-275 | in every run, every exit event (completed or fragment) carries the pid, tid, id and arguments saved for its own generation |
| `Generations.AuxIsGenerationLocal` | bpf/syscall_event_core_v2.h:145-161 | in every run, the aux0 a task reads is the last value written during its pending generation, 0 if none was |
| `Edges.EveryExitHasItsEdge` | bpf/syscall_event_core_v2.h:119-143 | in every run the completed exits with a given pid, tid, id and arguments are at most as many as the raw enter edges with them, and any exit event or fragment has such an edge before it |
| `Edges.EnterCovers` | bpf/enter_runtime.h:18-32 | a raw enter adds at most the one record it stands for, whatever program handles it |
| `Stories.ExitTellsItsStory` | bpf/syscall_event_core_v2.h:255-275 | a matched exit tells about its own generation its fragments 0 to n-1 in order and then one completion with the return value of that very exit, and about every other generation nothing |
| `Stories.ExitReportsItsReturn` | bpf/syscall_event_core_v2.h:255-275 | the return value read off the history for the generation of a matched exit is that exit's |
| `Stories.EveryReturnHasItsExit` | bpf/exit_dispatch.h:16-57 | in every run every completed exit carries the return value of a label that closes that very call: its raw exit, its exec step with 0, or its recvmsg return |
| `Stories.ExecTellsItsStory` | bpf/lifecycle_dispatch.h:6-17 | the exec step completes the pending exec with 0 and tells nothing of other generations |
| `Stories.RecvmsgTellsItsStory` | bpf/recvmsg_kretprobe_dispatch.h:16-68 | name fragment, control fragment and completion of a recvmsg return, each exactly when its links go through and its value allows |
| `Stories.EnterTellsItsStory` | bpf/enter_dispatch.h:236-333 | a dispatched enter reports itself once and then its fragments in order, exactly as many as the tail calls allow, program by program |
| `Stories.TerminatingCallIsReported` | bpf/enter_dispatch.h:22-33 | a terminating call is reported as entered and exited at once, saves nothing, and marks the process of a leader |
| `Stories.PollTellsItsStory` | bpf/nested_fd_path_dispatch.h:14-103 | the path fragments of a select or poll enter belong to the record it saved, in order, one per link reached, and only with fd tracking on |
| `Stories.EnterKeepsItsAux` | bpf/syscall_network_direct_event_v2.h:85-112 | what a network or recvmsg enter read is what its record keeps for the exit |
| `Stories.BpfKeepsItsAux` | bpf/enter_dispatch.h:250-266 | the same for a bpf call that no sub-program takes |
| `Stories.FailedSaveIsCounted` | bpf/syscall_event_core_v2.h:99-106 | a record that cannot be created is one counted failure and leaves every record alone |
| `Generations.ExitVerdict` | bpf/pending_state.h:60-106 | a raw exit that reaches its handler completes the pending generation if and only if the saved id is the raw id and the saved tid is the current or the handed-over one; otherwise a valid record is dropped with exactly one mismatch and no event |
| `Generations.OwnedExit` | bpf/exit_dispatch.h:41-57 | a matching exit, whichever program handles it, adds exactly one completion and one retirement of its own generation and counts neither orphan nor mismatch |
| `Generations.DisownedExit` | bpf/pending_state.h:92-106 | a valid record that does not match is cleared, the handoff entry removed, one mismatch counted, nothing emitted |
| `Generations.DropsAreAccountedFor` | bpf/unsupported_abi.h:6-20 | a generation is retired without completion only by an ABI rejection, a counted mismatch, a task exit or a task free |
| `Generations.StepInv` | bpf/strace.c:77-128 | every step keeps the numbering, the balance of ends against live records, and the saved calls of all generations |
| `Generations.RunInv` | bpf/strace.c:77-128 | that invariant holds in every reachable state |
| `Steps.StepKeeps` | bpf/strace.c:77-128 | the induction principle: a property of storage and history kept by the primitive moves of a task is kept by every program that task can run |
| `Steps.RunKeeps` | bpf/strace.c:77-128 | the same over whole runs of any interleaving |
| `Handoff.NonLeaderExecHandoff` | bpf/lifecycle_dispatch.h:66-141 | for every order of sibling and leader exits between a non-leader's traced execve and its exec step: the group stays tracked, no exit is reported for the old leader, exactly one completed exit with value 0 is emitted, pending_exec_map loses the entry, and the late raw exit changes nothing, whatever other tasks do before it |
| `Handoff.EnterStartsHandoff` | bpf/lifecycle_state.h:160-172 | a traced execve of a non-leader leaves its record and its handoff entry |
| `Handoff.BystandersKeep` | bpf/lifecycle_dispatch.h:111-141 | exits of the other threads, leader included, and anything other groups do keep record, entry and tracking, and report no exit of the leader |
| `Handoff.ExecFinishesHandoff` | bpf/lifecycle_dispatch.h:6-17 | the exec step completes the saved call once with value 0, adopts tracking and empties the entry |
| `Handoff.LateExecExitIsQuiet` | bpf/pending_state.h:31-37 | the raw exit of an exec that succeeded changes no state at all, so it is no orphan |
| `Handoff.RivalExecRemovesHandoff` | bpf/pending_state.h:117-132 | two threads of one group in execve: the second overwrites the first one's entry and removes it when it fails |
| `Handoff.FilteredExecLeavesEntry` | bpf/strace.c:119-121 | a failed execve that the filter excludes leaves its handoff entry behind, and nothing else |
| `Handoff.FreeDropsCurrentRecord` | bpf/lifecycle_dispatch.h:144-155 | the free step drops the pending record of the current task, not of the freed one, without completing it |
| `Handoff.SiblingEnterKeepsHandoffIff` | bpf/lifecycle_state.h:160-172 | a raw enter of another thread leaves the entry in place if and only if that thread is untracked, or the edge is native and no non-leader's execve |
| `Handoff.SiblingExitKeepsHandoffIff` | bpf/pending_state.h:60-132 | a raw exit of another thread leaves it in place if and only if it stops before a handler, or is native with no record or its own, and closes no non-leader's execve |
| `Handoff.SiblingCallKeepsHandoffIff` | bpf/strace.c:77-128 | both edges: a call of another tracked thread, failed or not, leaves the handoff in place if and only if both edges are native and it is no non-leader's execve, dispatched or not |
| `Handoff.ForeignAbiRemovesHandoff` | bpf/unsupported_abi.h:6-12 | a call of another tracked thread on a foreign ABI deletes the entry, and the old leader's exit then takes the group's tracking with it |
| `Handoff.FailedExecCleansUpIffDispatched` | bpf/strace.c:89-121 | a failed execve of a non-leader takes its entry away if and only if the filter dispatches it |
| `Handoff.FreeSparesCurrentRecordIff` | bpf/lifecycle_state.h:181-183 | the current task keeps its record across a free step if and only if the step returns early |
| `CleanRuns.CleanRunIsClean` | bpf/pending_state.h:6-106 | in every run whose environment alternates the edges of each call (children returning 0, PRE_EXEC tasks and successful execs of non-leader threads included), no mismatch is counted and no exit other than recvmsg is an orphan |
| `Reports.EveryCallIsReported` | bpf/exit_dispatch.h:41-57 | in every behaved run that loses no record, the completed exits of a call and the records of it still pending are together exactly the raw enters of it that left one; once every call has returned, each has been reported exactly once |
| `Reports.StepBalance` | bpf/strace.c:77-128 | one behaved step moves a call from entered to pending or from pending to reported, never out of the account |
| `CleanRuns.BehavedExitIsClean` | bpf/strace.c:103-128 | one such exit counts neither |
| `Chains.EnterLeavesOneRecord` | bpf/enter_dispatch.h:236-333 | for every pattern of tail-call failures a dispatched enter leaves one valid record with this task's pid, tid, id and arguments under a fresh generation, and no other task's record is touched |
| `Chains.ChainEmitsPrefix` | bpf/mmsg_enter_dispatch.h:8-85 | an enter chain emits consecutive fragments, as many as its longest prefix of successful calls, and never touches storage |
| `Chains.PathLinksIsPrefix` | bpf/nested_fd_path_exit_dispatch.h:81-146 | a path chain with n candidates runs the longest prefix of its first n links whose tail calls go through |
| `Chains.EpollExitCloses` | bpf/exit_direct_dispatch.h:43-57 | for every pattern of tail-call failures a matched epoll_wait exit emits an in-order prefix of its fragments, then one completed exit, and leaves no valid record |
| `Chains.RecvmmsgExitCloses` | bpf/exit_dispatch.h:356-390 | the recvmmsg chain emits 0, 2 or 4 fragments in order, then one completed exit, and leaves no valid record |
| `Startup.WindowOnlyCloses` | bpf/lifecycle_dispatch.h:36-53 | once the arm is zero, no run sets it again or increases the number of PRE_EXEC entries |
| `Startup.ArmClearedByOwner` | bpf/lifecycle_dispatch.h:76-91 | the arm changes only to zero, and only by an exec that owns PRE_EXEC or by the end of the armed parent |
| `Startup.PreExecLeavesByExecOrCleanup` | bpf/lifecycle_state.h:97-141 | a PRE_EXEC entry disappears only through an exec of its own task or that task's cleanup |
| `Startup.EntriesStayTracked` | bpf/lifecycle_state.h:73-130 | every filter value keeps its TRACKED bit in all reachable states |
| `Tracking.ForkInstalls` | bpf/lifecycle_dispatch.h:36-53 | after a fork the child is tracked exactly if it was, the arm names its parent, or a tracked parent's children are followed; suppressed exactly if it was or the arm names its parent; no other entry changes |
| `Tracking.FollowedChildIsTraced` | bpf/lifecycle_state.h:83-95 | whatever happens that spares its entry, a followed child stays tracked and its next selected native call leaves its record |
| `Tracking.ForkCountsFailures` | bpf/lifecycle_state.h:43-95 | every failed map update of a fork is counted, and nothing else |
| `Tracking.ExecOpensLeader` | bpf/lifecycle_state.h:97-110 | an exec of a tracked leader leaves its entry tracked and unsuppressed, and disarms exactly if it was suppressed |
| `Tracking.ExecMovesAndOpens` | bpf/lifecycle_state.h:112-130 | an exec of a non-leader moves the thread's entry to its process, opened in the same way |
| `Tracking.StartupTracesProgram` | bpf/lifecycle_dispatch.h:66-91 | the whole startup: armed fork, a suppressed child, its exec; the entry is then open, the arm gone, and the next selected call leaves a record |
| `Tracking.OpenedIsDispatched` | bpf/strace.c:77-128 | once opened, exactly the selected native calls are dispatched, on both edges |
| `Tracking.SuppressedIsSilent` | bpf/pending_state.h:6-12 | before its exec nothing but execve of a suppressed task changes anything, on either edge |
| `Tracking.TrackedByEither` | bpf/lifecycle_event_v2.h:113-131 | a thread is tracked by its process's entry or its own and by nothing else; the process entry decides |
| `Tracking.ExitCleansUp` | bpf/lifecycle_dispatch.h:111-141 | an ordinary exit takes its record and all entries of its own and no others, disarms its leader's arm, remembers an attach root, and is reported with its code |
| `Tracking.FreeCleansUp` | bpf/lifecycle_dispatch.h:144-155 | a free takes the process's entries and no others and is reported |
| `Tracking.TeardownMeaning` | bpf/lifecycle_state.h:132-198 | what a teardown leaves of every map |
| `Tracking.ForeignCallIsReported` | bpf/unsupported_abi.h:6-20 | a call on a foreign ABI is reported on either edge and leaves neither record nor handoff entry |
| `Tracking.ReplacedLeaderLeavesQuietly` | bpf/lifecycle_state.h:146-177 | the old leader that an exec replaces loses its record and nothing else changes or is reported |
| `Tracking.EnterCountsFailures` | bpf/runtime_stats.h:117-124 | every map update that fails during a native enter is counted once, and nothing else is |
| `Tracking.ExecCountsFailures` | bpf/lifecycle_dispatch.h:76-91 | the same for an exec of a tracked task |
| `Tracking.AdoptCountsFailure` | bpf/lifecycle_state.h:112-130 | a failed adoption is counted and leaves everything as it was |
| `Tracking.ExitCountsFailures` | bpf/lifecycle_event_v2.h:133-146 | the same for an exit |
| `Tracking.ExecIsReported` | bpf/lifecycle_dispatch.h:100-106 | a tracked exec is reported with the old and the new thread id |
| `Tracking.HandedOverExitClearsMark` | bpf/pending_state.h:117-132 | an exit taken through the handoff clears the main-exited mark, and no other exit does |
| `Decisions.OrphanCountedIff` | bpf/pending_state.h:14-56 | a dispatched exit without a record counts as an orphan exactly unless it is excused or its attach root has exited, and changes nothing else |
| `Decisions.SelectionMeaning` | bpf/runtime_stats.h:4-20 | which ids a filter selects; its negation selects the complement of the ids it knows |
| `Decisions.FdStateWidens` | bpf/runtime_stats.h:66-72 | fd tracking widens the dispatch to its own family and narrows nothing |
| `Forks.CloneExitForgetsFlags` | bpf/lifecycle_state.h:36-41 | the exit of a clone forgets its thread's flags, the exit of anything else does not |
| `Forks.OnlyClonesLeaveFlags` | bpf/lifecycle_state.h:9-28 | no call but a clone with readable flags leaves any |
| `Forks.DetachIsAnnounced` | bpf/lifecycle_dispatch.h:54-58 | an unfollowed child is announced as detached exactly when it was cloned traced |
| `Forks.ForkIdentityHolds` | bpf/lifecycle_dispatch.h:54-55 | the identity word holds the clone flags above the parent's pid |
| `Forks.ForkCarriesItsFlags` | bpf/lifecycle_state.h:9-34 | whatever other threads do between a clone call and its fork, the fork event names that call's flags, and they decide, both ways, whether an unfollowed child is remembered |
| `Forks.UnknownChildIsAnnouncedOnce` | bpf/lifecycle_dispatch.h:111-125 | from the moment a child is remembered as unknown its exit is announced under that parent's identity exactly once, tracked or not, whatever happens before and after |
| `Forks.EveryAnnouncementHasItsFork` | bpf/lifecycle_state.h:43-57 | in every run the announcements of a tid and the one still owed are at most as many as the forks that created it |
| `Attach.LateEdgeIsTeardown` | bpf/pending_state.h:40-56 | once an attach root's exit is recorded, no raw exit of that thread is counted as an orphan in any continuation |
| `Attach.ExitFactsStay` | bpf/lifecycle_event_v2.h:133-146 | no run forgets a recorded attach exit |
| `KvmExits.KvmFlagIsHonest` | bpf/syscall_ioctl_direct_event_v2.h:46-58 | in every run a KVM_EXIT flag appears only on a KVM_RUN whose last observed exit was not an error, with the low 31 bits of that reason |
| `KvmExits.KvmExitIsSeen` | bpf/kvm_dispatch.h:11-30 | a KVM exit during a pending KVM_RUN becomes the last one seen and what the record keeps; during anything else it leaves no trace |
| `KvmExits.SeenExitIsReported` | bpf/kvm_dispatch.h:11-30 | conversely, after any run a returning KVM_RUN that saw an exit reports the last one, or nothing if it was an error |
| `Ledger.LossTimeBacksEpoch` | bpf/event_integrity.h:12-40 | under every interleaving of atomic steps a header with a positive loss epoch carries the one non-zero first-loss time |
| `Ledger.LossStateIsMonotone` | bpf/event_integrity.h:12-26 | from any reachable point on the epoch never decreases and a set first-loss time never changes |
| `Ledger.HeaderTellsOfLosses` | bpf/event_integrity.h:28-40 | every loss recorded while an attempt had not yet read the epoch is counted in its record's epoch, and nothing that has not happened |
| `Ledger.EpochCountsLosses` | bpf/event_integrity.h:12-26 | the epoch counts the recorded losses one for one |
| `Ledger.FirstTimeIsALoss` | bpf/event_integrity.h:12-26 | the first-loss time is the time of a loss of the run |
| `Ledger.SequenceNumbersAreUnique` | bpf/event_integrity.h:5-9 | no sequence number of a CPU is reused by records or attempts in flight, and exactly those up to the counter were issued |
| `Ledger.EveryLossIsRecorded` | bpf/runtime_stats.h:82-98 | in every reachable state the numbers issued, less those submitted and in flight, are the lost ones and at most the loss epoch |
| `Ledger.GapsAreBacked` | bpf/syscall_payload_emit_direct_event_v2.h:147-191 | any set of numbers below submitted ones that are neither submitted nor in flight are lost ones, at most as many as the loss epoch |
| `Manifest.ValidateDependencies` | cmd/generate-capture-manifest/validate.go:202-237 | accepts if and only if every reference resolves and the program graph has no cycle, whatever the iteration order |
| `Manifest.Visitor.Visit` | cmd/generate-capture-manifest/validate.go:214-230 | the recursive visit terminates on the programs not yet coloured; success extends a dependency order, failure exhibits a cycle |
| `Manifest.Visitor.Finish` | cmd/generate-capture-manifest/validate.go:228-229 | blackening a program whose dependencies are all finished keeps the order |
| `Manifest.OrderedIsAcyclic` | cmd/generate-capture-manifest/validate.go:231-236 | a complete dependency order excludes every cycle |
| `Manifest.StackGivesCycle` | cmd/generate-capture-manifest/validate.go:216-218 | a grey program met again closes a cycle |
| `Manifest.ArrayIsDense` | cmd/generate-capture-manifest/validate.go:88-116 | accepts if and only if the array is occupied from its first slot to its highest without a gap |
| `Manifest.ValidatePrograms` | cmd/generate-capture-manifest/validate.go:36-86 | accepts if and only if every program is well formed, all are pairwise apart in names and slots, and the four arrays are dense; returns exactly the table by name |
| `Manifest.Table.Add` | cmd/generate-capture-manifest/validate.go:41-81 | takes a program in if and only if it is well formed and apart from all before it, and keeps the name and slot sets exact |
| `Manifest.ValidateProgramsAndDependencies` | cmd/generate-capture-manifest/validate.go:19-34 | both checks together: accepted if and only if the table is sound, its references resolve and its graph has no cycle |
| `Manifest.TableIsUnique` | cmd/generate-capture-manifest/validate.go:81-85 | the list of programs decides its table |
| `PathRead.CapturePath` | bpf/syscall_path_capture_direct_event_v2.h:9-90 | for every memory and fault pattern the two-chunk read leaves exactly the specified bytes, probe result and truncation, inside its 4096 bytes |
| `PathRead.CaptureTail` | bpf/syscall_path_capture_direct_event_v2.h:31-72 | the second chunk joins the first one byte back and ends exactly at the boundary |
| `PathRead.PatchLast` | bpf/syscall_path_capture_direct_event_v2.h:49-69 | the forced terminator at the boundary is replaced by the user's byte, and truncation is counted if and only if that byte is not NUL |
| `PathRead.TwoChunksRefineOneShot` | bpf/syscall_path_capture_direct_event_v2.h:27-72 | the two-chunk read agrees with one read of 4096 bytes on faults and truncation always, and on the bytes if and only if no fault lies behind the first chunk, where it keeps 2047 bytes |
| `PathRead.StablePathIsExact` | bpf/syscall_path_capture_direct_event_v2.h:9-90 | on stable readable memory the section is the first min(strlen+1, 4096) raw bytes and truncation is counted if and only if strlen > 4095 |
| `DentryWalk.ReadDentryPath` | bpf/syscall_fd_path_walk_direct_event_v2.h:127-200 | succeeds if and only if the global root is reached within eight steps and all names fit; the bytes are then the root-to-leaf join with slashes and NUL |
| `DentryWalk.CollectComponents` | bpf/syscall_fd_path_walk_direct_event_v2.h:136-170 | the component array ends with the ascent, leaf first, and is never indexed out of range |
| `DentryWalk.AscendIsClimb` | bpf/syscall_fd_path_walk_direct_event_v2.h:136-170 | the ascent succeeds if and only if a chain of at most eight places, each directly above the last in its mount or across a mount point, ends at the global root; it finds the dentries of that chain that are not mount roots, root first |
| `DentryWalk.JoinIsSlashed` | bpf/syscall_fd_path_walk_direct_event_v2.h:10-46 | the join exists if and only if all names are legal and start within 256 bytes, and is then their concatenation, each behind a slash |
| `DentryWalk.PathBytesMeaning` | bpf/syscall_fd_path_walk_direct_event_v2.h:127-200 | the bytes of a path, or a single slash for the root itself, with the terminator |
| `DentryWalk.AppendName` | bpf/syscall_fd_path_walk_direct_event_v2.h:10-46 | appends slash and name if and only if the name is readable, 1 to 255 long and the path so far is at most 255; the new length is at most 511 |
| `DentryWalk.JoinIsBounded` | bpf/syscall_fd_path_walk_direct_event_v2.h:10-46 | the running length never passes 511, for any name lengths |
| `DentryWalk.AscendIsShort` | bpf/syscall_fd_path_walk_direct_event_v2.h:136-170 | a successful ascent has fewer components than steps, mount crossings included |
| `DentryWalk.JoinMeaning` | bpf/syscall_fd_path_walk_direct_event_v2.h:175-185 | each component adds one slash and its name behind those above it |
| `Collectors.Scratch.AddCandidate` | bpf/syscall_fd_path_capture_direct_event_v2.h:17-35 | appends an fd that is new while there is room, else changes nothing |
| `Collectors.Scratch.AddWindowCandidate` | bpf/syscall_fd_path_capture_direct_event_v2.h:37-51 | appends to the first three, then keeps replacing the fourth |
| `Collectors.Scratch.CollectPoll` | bpf/syscall_poll_capture_direct_event_v2.h:16-58 | for every poll array the candidates are the window of its eligible fds; faulting and negative slots do not count |
| `Collectors.Scratch.CollectEpoll` | bpf/syscall_epoll_capture_direct_event_v2.h:10-60 | the same for every epoll result array |
| `Collectors.WindowMeaning` | bpf/syscall_fd_path_capture_direct_event_v2.h:37-51 | the window is the first three distinct fds in order and, fourth, the last one not among them; all are distinct |
| `Collectors.Scratch.CollectSelect` | bpf/syscall_select_capture_direct_event_v2.h:328-343 | for every nfds and three fd_sets the candidates are the first four distinct fds of the read, write and except bits in that order, whatever stale bytes the buffer held |
| `Collectors.Scratch.ScanBits` | bpf/syscall_select_capture_direct_event_v2.h:292-306 | the bit scan with early stop refines the ascending set bits |
| `Collectors.Scratch.ReadFdset` | bpf/syscall_select_capture_direct_event_v2.h:269-285 | the bytes a scan may look at are the user's, or the set counts as unreadable |
| `Collectors.EligibleMeaning` | bpf/syscall_poll_capture_direct_event_v2.h:16-31 | the eligible fds are the readable values in range of the slots |
| `Collectors.BitsAreDigits` | bpf/syscall_select_capture_direct_event_v2.h:292-306 | the bits of a byte are its binary digits |
| `Collectors.MemberMeaning` | bpf/syscall_select_capture_direct_event_v2.h:292-306 | fd 8j+k of a set is bit k of its j-th byte |
| `Collectors.FdsetLenMeaning` | bpf/syscall_select_direct_event_v2.h:43-53 | the number of bytes that hold nfds bits, capped, and none for a count that is not positive |
| `Collectors.SetBitsMeaning` | bpf/syscall_select_capture_direct_event_v2.h:292-306 | the set bits are exactly the member fds below the limit, ascending |
| `Tlv.HeaderRoundTrip` | bpf/syscall_event_core_v2.h:300-326 | every header the emitters can build survives its 32-byte little-endian form |
| `Tlv.WalkRecovers` | bpf/payload_tlv.h:45-55 | a walk by header size plus copied_len recovers exactly the sections, in order, and stops at the end |
| `Tlv.Seal` | bpf/syscall_event_core_v2.h:300-326 | the header in front of its bytes makes them that section; nothing else changes |
| `Captures.CaptureRegion` | bpf/syscall_select_capture_direct_event_v2.h:92-172 | the section for a region, or an empty one that says why, inside its share |
| `Captures.CaptureString` | bpf/syscall_exec_capture_direct_event_v2.h:23-65 | the section for a bounded string, or an empty one that says why, inside its share |
| `Captures.RegionMeaning` | bpf/syscall_select_capture_direct_event_v2.h:92-172 | a region section names its argument and pointer and holds the user's bytes, or nothing but the reason |
| `Captures.BytesMeaning` | bpf/payload_tlv.h:57-71 | a bytes section holds at most 512 of the user's bytes and says how many there were |
| `Captures.BucketMeaning` | bpf/payload_tlv.h:73-88 | the bucket is the smallest of the sizes that holds the bytes |
| `Captures.CaptureBytes` | bpf/payload_tlv.h:73-108 | the bucket reserved from the length holds the capture; truncation if and only if 512 bytes were captured and there were more |
| `Captures.CaptureWrite` | bpf/syscall_payload_capture_direct_event_v2.h:50-100 | for every memory the write payload stays in its bucketed reservation and walks back to its section |
| `Captures.CaptureRead` | bpf/syscall_payload_capture_direct_event_v2.h:143-196 | the same for the read payload, and nothing for a failed or empty read |
| `MountSetattr.CaptureMountSetattr` | bpf/syscall_mount_setattr_direct_event_v2.h:118-148 | for every memory and fault pattern the four-section payload fits its tight reservation and a walk over the captured length recovers its sections |
| `MountSetattr.CaptureAttrBase` | bpf/syscall_mount_setattr_direct_event_v2.h:13-58 | no section below 32 bytes, otherwise the base structure |
| `MountSetattr.CaptureAttrExtension` | bpf/syscall_mount_setattr_direct_event_v2.h:60-116 | the bytes past 32, at most 256, with null base and wrapped pointer as failures; truncated if and only if captured and longer |
| `MountSetattr.MountSetattrMeaning` | bpf/syscall_mount_setattr_direct_event_v2.h:13-148 | the sections name their arguments; the base holds the first 32 bytes of the structure, the extension those behind them |
| `FdPaths.FdSectionMeaning` | bpf/syscall_fd_path_capture_direct_event_v2.h:53-191 | state first and path behind it, or the failure code of the case |
| `FdPaths.CaptureFdPath` | bpf/syscall_fd_path_capture_direct_event_v2.h:53-191 | the working directory, a missing file or an open file with its state prefix, each with its own failure code |
| `SelectPayload.CaptureFdset` | bpf/syscall_select_capture_direct_event_v2.h:92-131 | the fd_set read at the width that covers it, cut to its length; a null or empty set leaves no section |
| `SelectPayload.CaptureWrapper` | bpf/syscall_select_capture_direct_event_v2.h:174-218 | the pointer and size pair that is followed is what the section holds; a fault follows nothing |
| `SelectPayload.CaptureSelect` | bpf/syscall_select_capture_direct_event_v2.h:345-406 | for every memory, argument and policy the payload stays inside its reservation and walks back to its sections in order |
| `SelectPayload.SelectPayloadMeaning` | bpf/syscall_select_capture_direct_event_v2.h:345-406 | one section for each captured argument, in argument order, each with the bytes behind that very argument's pointer |
| `SelectPayload.WrapperMeaning` | bpf/syscall_select_capture_direct_event_v2.h:11-14 | pointer and size are read from the wrapper in that order |
| `SelectPayload.CaptureSelectEnter` | bpf/syscall_select_emit_direct_event_v2.h:4-58 | the enter payload: sets, timeout, and the mask for pselect6 only |
| `SelectPayload.CaptureSelectExit` | bpf/syscall_select_emit_direct_event_v2.h:60-110 | the exit payload: the timeout, and the sets only when some fd is ready, never the mask |
| `ExecPayload.CaptureVector` | bpf/syscall_exec_capture_direct_event_v2.h:67-177 | the records, status and stop of an argument vector are what memory holds, for every memory and fault pattern |
| `ExecPayload.ItemMeaning` | bpf/syscall_exec_capture_direct_event_v2.h:90-96 | a record holds its pointer and the bytes of the string there, zeros behind them |
| `ExecPayload.ItemSlices` | bpf/runtime_abi.h:32-39 | where the fields of a 64-byte record lie |
| `ExecPayload.SlotMeaning` | bpf/syscall_exec_capture_direct_event_v2.h:78-85 | slots are eight bytes apart and hold little-endian pointers |
| `ExecPayload.SnapshotIsUnique` | bpf/syscall_exec_capture_direct_event_v2.h:67-121 | count, status, next and records are decided by the memory alone |
| `ExecPayload.SnapshotReads` | bpf/syscall_exec_capture_direct_event_v2.h:179-215 | both vectors survive the snapshot layout, whatever bytes fill unused argv slots |
| `ExecPayload.CaptureSnapshot` | bpf/syscall_exec_capture_direct_event_v2.h:179-215 | the bytes written read back as the two vectors |
| `ExecPayload.CaptureExec` | bpf/syscall_exec_capture_direct_event_v2.h:217-253 | the exec payload fits its reservation for every memory; a walk finds the path and one snapshot that reads back as argv and environment |
| `ExecPayload.ItemRoundTrip` | bpf/runtime_abi.h:32-39 | every 64-byte record reads back as its pointer, length and data |
| `UserMemory.StringBytesMeaning` | bpf/syscall_path_capture_direct_event_v2.h:27-42 | the user's bytes up to the terminator, or the first max-1 and a terminator of its own |
| `UserMemory.ReadUserString` | bpf/syscall_path_capture_direct_event_v2.h:27-42 | the bounded string read as the captures use it: terminator, forced terminator, or fault |
| `Tracer.Maps.TraceAll` | bpf/strace.c:77-128 | every run of the programs is a run of the steps; from fresh maps its ring holds, for each pid, tid, id and arguments, at most as many completed exits as there were raw enter edges with them, no exit record or fragment without such an edge, no completed exit whose return value is not that of an exit edge of its call, and every saved generation ended in exactly one way |
| `Programs.RunIsBacked` | bpf/syscall_event_core_v2.h:255-275 | the ring of any run, which carries no generations, is explained by the raw enter edges of the run |
| `Programs.RingTellsAll` | bpf/syscall_event_core_v2.h:255-275 | effects that differ in more than their generation never look the same in the ring |
| `Programs.WordFlags` | bpf/lifecycle_state.h:73-110 | installing, keeping and clearing the bits of a filter word does to the two flags what the protocol says |
| `Tracer.Maps.EmitPath` | bpf/syscall_fd_path_emit_direct_event_v2.h:73-126 | a path fragment carries the section of its own candidate; the walk overwrites the shared component slots and leaves the candidates and nested_fd_count |
| `Tracer.Maps.ExitPath` | bpf/nested_fd_path_exit_dispatch.h:21-146 | link k and all that follow: fragments in order, one completion, consume, and exactly the paths of the candidates reached |
| `Tracer.Maps.ExitIo` | bpf/exit_direct_dispatch.h:43-57 | the collector and the four programs refine the summarised epoll exit; the fragments carry, in order, the paths of the first fds of the window over the result array, one per link reached |
| `Tracer.Maps.EnterMmsgBytes` | bpf/mmsg_enter_dispatch.h:45-85 | bytes link k and all that follow, with no pending write |
| `Tracer.Maps.EnterNestedPath` | bpf/nested_fd_path_dispatch.h:14-103 | link k of the select and poll chain and all that follow: fragments in order with the paths of the candidates reached, and no pending write |
| `Tracer.Maps.EnterPoll` | bpf/enter_dispatch.h:412-427 | collector, emitter, save and chain refine the summarised poll enter; the fragments carry the paths of the window of the poll array |
| `Tracer.Maps.EnterSelect` | bpf/enter_dispatch.h:430-446 | the same for select, over the first four distinct fds of the three sets |
| `Tracer.Maps.ExitPlain` | bpf/exit_dispatch.h:16-39 | lookup, validation, completion and consume refine the summarised plain exit, as the dispatcher's fallback too |
| `Tracer.Maps.ExitGuardBefore` | bpf/exit_dispatch.h:250-273 | ignores foreign ids before the prologue |
| `Tracer.Maps.ExitControl` | bpf/exit_direct_dispatch.h:60-67 | the same with the KVM reason kept in aux0 |
| `Tracer.Maps.ExitMmsgFinal` | bpf/exit_dispatch.h:341-353 | completes a matched mmsg call once |
| `Tracer.Maps.ExitRecvmmsgBase23` | bpf/exit_dispatch.h:375-390 | two fragments, then one completion whether or not the last link is reached |
| `Tracer.Maps.ExitRecvmmsgBase01` | bpf/exit_dispatch.h:356-372 | the three programs refine the summarised recvmmsg exit |
| `Tracer.Maps.EnterBpf` | bpf/enter_dispatch.h:236-268 | trying the sub-programs before saving refines a step that saves first |
| `Tracer.Maps.EnterBpfProgLoad` | bpf/enter_dispatch.h:287-300 | emits, saves, and chains to the debug fragment |
| `Tracer.Maps.EnterIovec` | bpf/enter_dispatch.h:305-313 | save, then a chain of one link that leaves the record alone |
| `Tracer.Maps.EnterMsg` | bpf/enter_dispatch.h:316-324 | the same with the name length kept in aux0 for recvmsg |
| `Tracer.Maps.EnterAio` | bpf/enter_dispatch.h:396-407 | save, then a chain of two links |
| `Tracer.Maps.EnterAioIovec` | bpf/enter_fragment_dispatch.h:37-55 | its fragments, with no pending write |
| `Tracer.Maps.EnterMmsg` | bpf/enter_dispatch.h:327-333 | the seven link programs refine the summarised mmsg chain |
| `Tracer.Maps.EnterMmsgBase01` | bpf/mmsg_enter_dispatch.h:9-18 | its first link and all that follow, with no pending write |
| `Tracer.Maps.EnterMmsgBase2` | bpf/mmsg_enter_dispatch.h:21-29 | its second link likewise |
| `Tracer.Maps.EnterMmsgBase3` | bpf/mmsg_enter_dispatch.h:32-42 | its third link likewise |
| `Programs.FragmentsJoin` | bpf/nested_fd_path_exit_dispatch.h:81-146 | fragments emitted by several programs of a chain are in the order of one sequence |

## Left out

- The Go userspace (CLI, decoder, renderer, attach state): I/O and formatting.
- The contents of the route table and its validation: routes are a parameter; a theorem that depends on them says so in its precondition, as `KvmExits.KvmFlagIsHonest` does for programs that write aux0.
- The route and aux-root checks and the ordering helpers of the manifest validator: they depend on the route table.
- Kernel structures behind CO-RE reads (fd tables, dentries, mounts, namespaces, ABI bits): functions or flags of the environment that may fail.
- Durations, timestamps, stack ids with pending_stack_map, namespace snapshots and the tracer's pid namespace probe: they do not steer the protocol.
- Signal events and the extra marker events of rt_sigsuspend and nanosleep: emission only.
- Whether an emitter call leads to a record in the ring: the protocol's history lists emitter calls, also where a configuration flag turns one off, and so does the ring of `Tracer`, whose bounds hold of any part of it that survives; reservation, loss and submission are the subject of `Ledger`.
- Per-syscall exit payload choice inside one exit family: each choice is one completed exit event.
- Failure of task storage lookup for storage that exists: only its creation can fail.
- Wrap-around of 32- and 64-bit counters, generations and sequence numbers, and of a path pointer in the last 4096 bytes of the address space.
- Weak memory ordering: the ledger's atomics are sequentially consistent.
- The AIO captures: they write the header before the data, so a failed data write leaves a longer length in the header; they are no part of the walk theorem.
- The slot-by-slot poll, epoll and iovec data captures: their copied_len may exceed user_len and adds nothing to the layout argument.
- What only a reader of `Protocol` needs (single handlers whose step function says all there is to say about them) has no row of its own; the theorems about those steps do.
- Failed header writes: inside a reservation of the proved size bpf_dynptr_write does not fail.
- The 256-byte name buffer of the scratch area: names go straight to the payload.
- The bytes that fill unused argv slots of an exec snapshot: whatever the ring held.
- The recvmsg return chain: after a failed link the record stays for the raw exit, whose route for recvmsg is not fixed here, so no closure is claimed for that chain.
- Handoff.NonLeaderExecHandoff: the system calls that siblings make meanwhile are native, not execve, and matched.
- Reports.EveryCallIsReported: takes in addition that no exit program skips a record it finds and that no task ends while its call is pending; either loses the record without a report.
- CleanRuns.CleanRunIsClean: takes the environment's good behaviour as a precondition (alternating native edges, an identity that only an exec step changes, tracking found by that step, storage available, routes that save, no free step on top of a pending call).
