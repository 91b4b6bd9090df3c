/** Who is traced: followed children become tracked, the armed child starts suppressed, its exec
    ends the suppression, and what becomes of the entries of a task that ends. */
module Tracking {
  import opened Abi
  import opened PendingCore
  import opened Protocol
  import opened Steps
  import opened Generations
  import opened Chains
  import opened Forks
  import Startup

  function EntryOf(filter: map<int, Flags>, tid: int): Option<Flags> {
    if tid in filter then Some(filter[tid]) else None
  }

  predicate HasEntry(filter: map<int, Flags>, tid: int) { tid in filter && filter[tid].tracked }

  /** A thread is tracked by its own entry or by its process's, and by nothing else; the process
      entry decides when there is one. */
  lemma TrackedByEither(filter: map<int, Flags>, pid: int, tid: int)
    ensures IsTracked(filter, pid, tid) <==> HasEntry(filter, pid) || HasEntry(filter, tid)
    ensures HasEntry(filter, pid) ==> TaskFlags(filter, pid, tid) == Some(filter[pid])
    ensures !HasEntry(filter, pid) && HasEntry(filter, tid) ==> TaskFlags(filter, pid, tid) == Some(filter[tid])
  {
  }

  // ----- fork ----------------------------------------------------------------------------

  predicate Arms(s: State, c: Ctx, preOk: bool) { s.arm != 0 && s.arm == c.pid && preOk }

  /** After a fork the child is tracked exactly if it was before, the arm names its parent, or a
      tracked parent's children are followed; it is suppressed until its exec exactly if it was
      before or the arm names its parent; and no other entry changes. */
  lemma ForkInstalls(s: State, c: Ctx, child: int, preOk: bool, installOk: bool, unknownOk: bool)
    ensures var f := ForkStep(s, c, child, preOk, installOk, unknownOk).filter;
      && (HasEntry(f, child) <==>
            || HasEntry(s.filter, child) || Arms(s, c, preOk)
            || (IsTracked(s.filter, c.pid, c.tid) && c.env.cfg.followForks && installOk))
      && (HasPreExec(f, child) <==> HasPreExec(s.filter, child) || Arms(s, c, preOk))
      && (forall t :: t != child ==> EntryOf(f, t) == EntryOf(s.filter, t))
  {
    hide ReportUnfollowed, LogLifecycle;
    var armed := ArmChild(s, c, child, preOk);
    if !IsTracked(s.filter, c.pid, c.tid) && IsTracked(armed.filter, c.pid, c.tid) {
      assert Arms(s, c, preOk);
    }
    ForkFilter(s, c, child, preOk, installOk, unknownOk);
  }

  /** Every failed map update of a fork is counted, and nothing else. */
  lemma ForkCountsFailures(s: State, c: Ctx, child: int, preOk: bool, installOk: bool, unknownOk: bool)
    ensures var armed := s.arm != 0 && s.arm == c.pid;
      var tracked := IsTracked(s.filter, c.pid, c.tid) || (armed && preOk && (child == c.pid || child == c.tid));
      var marks := HasBit(ParentForkFlags(s, c), CLONE_PARENT_BIT);
      ForkStep(s, c, child, preOk, installOk, unknownOk).mapFails ==
      s.mapFails + Truth(armed && !preOk) + Truth(tracked && c.env.cfg.followForks && !installOk) +
      Truth(tracked && !c.env.cfg.followForks && marks && !unknownOk)
  {
    hide HasBit;
    var armed := ArmChild(s, c, child, preOk);
    TrackedByEither(armed.filter, c.pid, c.tid);
    TrackedByEither(s.filter, c.pid, c.tid);
  }

  lemma ForkFilter(s: State, c: Ctx, child: int, preOk: bool, installOk: bool, unknownOk: bool)
    ensures var armed := ArmChild(s, c, child, preOk);
      ForkStep(s, c, child, preOk, installOk, unknownOk).filter ==
      if IsTracked(armed.filter, c.pid, c.tid) then FollowChild(armed, c, child, installOk).filter else armed.filter
  {
    hide ArmChild, FollowChild, TaskFlags, HasBit;
  }

  /** The step neither installs, moves nor removes the entry of `tid`. */
  predicate Spares(l: Label, tid: int) {
    match l
    case Fork(_, child, _, _, _) => child != tid
    case ExecDone(c, oldTid, _, _, _) => c.tid != tid && c.pid != tid && oldTid != tid
    case TaskExit(c, _, _, _) => c.tid != tid
    case Free(_, freed, _) => freed != tid
    case _ => true
  }

  lemma SparedEntry(s: State, l: Label, tid: int)
    requires Spares(l, tid)
    ensures EntryOf(Step(s, l).filter, tid) == EntryOf(s.filter, tid)
  {
    hide EnterStep, ExitStep, RecvmsgStep, ForkStep, ExecStep, TaskExitStep, FreeStep;
    match l
    case Enter(c, id, args, ei) => assert SameTracking(s, EnterStep(s, c, id, args, ei));
    case Exit(c, id, ret, xi) => assert SameTracking(s, ExitStep(s, c, id, ret, xi));
    case RecvmsgReturn(c, ret, tails) => assert SameTracking(s, RecvmsgStep(s, c, ret, tails));
    case Fork(c, child, preOk, installOk, unknownOk) => ForkInstalls(s, c, child, preOk, installOk, unknownOk);
    case ExecDone(c, oldTid, adoptOk, clearOk, disarmOk) =>
      ExecSpares(s, c, oldTid, adoptOk, clearOk, disarmOk, tid);
    case TaskExit(c, code, markOk, disarmOk) => Startup.TaskExitFrame(s, c, code, markOk, disarmOk);
    case Free(c, freed, disarmOk) => Startup.FreeFrame(s, c, freed, disarmOk);
    case Kvm(_, _, _) =>
  }

  lemma ExecSpares(s: State, c: Ctx, oldTid: int, adoptOk: bool, clearOk: bool, disarmOk: bool, tid: int)
    requires c.tid != tid && c.pid != tid && oldTid != tid
    ensures EntryOf(ExecStep(s, c, oldTid, adoptOk, clearOk, disarmOk).filter, tid) == EntryOf(s.filter, tid)
  {
    hide ExecStep, TaskFlags;
    Startup.ExecFrame(s, c, oldTid, adoptOk, clearOk, disarmOk);
  }

  lemma {:induction false} SparedRun(s: State, labels: seq<Label>, tid: int)
    requires forall l :: l in labels ==> Spares(l, tid)
    ensures EntryOf(Run(s, labels).filter, tid) == EntryOf(s.filter, tid)
    decreases |labels|
  {
    hide Step, Spares, EntryOf;
    if labels != [] {
      assert labels[0] in labels;
      SparedEntry(s, labels[0], tid);
      SparedRun(Step(s, labels[0]), labels[1..], tid);
    }
  }

  /** Following works: a tracked parent forks, anything happens that spares the child's entry,
      and the child's next native call that the filter selects is dispatched and leaves its
      record, unless its group is still before its exec. */
  lemma FollowedChildIsTraced(
      s: State, c: Ctx, child: int, preOk: bool, unknownOk: bool, between: seq<Label>,
      cc: Ctx, id: int, args: seq<int>, ei: EnterInput)
    requires IsTracked(s.filter, c.pid, c.tid) && c.env.cfg.followForks
    requires (forall l :: l in between ==> Spares(l, child)) && cc.tid == child
    ensures var waited := Run(ForkStep(s, c, child, preOk, true, unknownOk), between);
      && IsTracked(waited.filter, cc.pid, cc.tid)
      && (ei.native && id != SYS_RT_SIGRETURN && Dispatched(cc.env.cfg, id) && LeavesRecord(cc, id, ei) &&
          CanSave(waited, cc.task, ei.saveOk) &&
          !IsSuppressed(TaskFlags(waited.filter, cc.pid, cc.tid).value, id) ==>
            Records(EnterStep(waited, cc, id, args, ei).core, waited.core, cc.task, Call(cc.pid, cc.tid, id, args)))
  {
    hide Run, ForkStep, EnterStep, Records;
    var forked := ForkStep(s, c, child, preOk, true, unknownOk);
    ForkInstalls(s, c, child, preOk, true, unknownOk);
    SparedRun(forked, between, child);
    var waited := Run(forked, between);
    TrackedByEither(waited.filter, cc.pid, cc.tid);
    if ReachesEnter(waited, cc, id, ei) && LeavesRecord(cc, id, ei) && CanSave(waited, cc.task, ei.saveOk) {
      EnterLeavesOneRecord(waited, cc, id, args, ei);
    }
  }

  // ----- exec ----------------------------------------------------------------------------

  /** An exec of a tracked leader ends its suppression, and disarms if it was the armed child. */
  lemma ExecOpensLeader(s: State, c: Ctx, oldTid: int, adoptOk: bool, disarmOk: bool)
    requires c.tid == c.pid && HasEntry(s.filter, c.pid)
    ensures var s' := ExecStep(s, c, oldTid, adoptOk, true, disarmOk);
      && EntryOf(s'.filter, c.pid) == Some(Flags(true, false))
      && (forall t :: t != c.pid ==> EntryOf(s'.filter, t) == EntryOf(s.filter, t))
      && s'.arm == if HasPreExec(s.filter, c.pid) && disarmOk then 0 else s.arm
  {
    hide ExecStep;
    Startup.ExecFrame(s, c, oldTid, adoptOk, true, disarmOk);
  }

  /** An exec of a non-leader moves the thread's entry to its process, opened in the same way. */
  lemma ExecMovesAndOpens(s: State, c: Ctx, oldTid: int, disarmOk: bool)
    requires c.tid == c.pid && !HasEntry(s.filter, c.pid)
    requires oldTid != 0 && oldTid != c.pid && HasEntry(s.filter, oldTid)
    ensures var s' := ExecStep(s, c, oldTid, true, true, disarmOk);
      && EntryOf(s'.filter, c.pid) == Some(Flags(true, false)) && oldTid !in s'.filter
      && (forall t :: t != c.pid && t != oldTid ==> EntryOf(s'.filter, t) == EntryOf(s.filter, t))
      && s'.arm == if HasPreExec(s.filter, oldTid) && disarmOk then 0 else s.arm
  {
    hide ExecStep;
    Startup.ExecFrame(s, c, oldTid, true, true, disarmOk);
  }

  /** Once opened, every native call that the filter selects is dispatched, on both edges. */
  lemma OpenedIsDispatched(s: State, c: Ctx, id: int, ei: EnterInput, xi: ExitInput)
    requires EntryOf(s.filter, c.pid) == Some(Flags(true, false))
    ensures ReachesEnter(s, c, id, ei) <==> id != SYS_RT_SIGRETURN && ei.native && Dispatched(c.env.cfg, id)
    ensures ReachesExit(s, c, id, xi) <==>
      id >= 0 && id != SYS_RT_SIGRETURN && xi.native && Dispatched(c.env.cfg, id)
  {
  }

  /** Until then nothing but execve is: both edges leave everything as it was. */
  lemma SuppressedIsSilent(s: State, c: Ctx, id: int, args: seq<int>, ei: EnterInput, ret: int, xi: ExitInput)
    requires EntryOf(s.filter, c.pid) == Some(Flags(true, true)) && !IsExec(id) && ei.native && xi.native
    ensures EnterStep(s, c, id, args, ei) == s && ExitStep(s, c, id, ret, xi) == s
  {
  }

  /** The whole startup. The armed parent forks; whatever spares the child's entry happens; the
      child, silent until now, execs. Its entry is open, the arm is gone, and its next call that
      the filter selects leaves a record. */
  lemma StartupTracesProgram(
      s: State, c: Ctx, child: int, installOk: bool, unknownOk: bool, between: seq<Label>,
      cx: Ctx, oldTid: int, adoptOk: bool, id: int, args: seq<int>, ei: EnterInput)
    requires s.arm != 0 && s.arm == c.pid
    requires (forall l :: l in between ==> Spares(l, child)) && cx.pid == cx.tid == child
    ensures var waited := Run(ForkStep(s, c, child, true, installOk, unknownOk), between);
      var done := ExecStep(waited, cx, oldTid, adoptOk, true, true);
      && EntryOf(waited.filter, child) == Some(Flags(true, true))
      && EntryOf(done.filter, child) == Some(Flags(true, false)) && done.arm == 0
      && (ei.native && id != SYS_RT_SIGRETURN && Dispatched(cx.env.cfg, id) && LeavesRecord(cx, id, ei) &&
          CanSave(done, cx.task, ei.saveOk) ==>
            Records(EnterStep(done, cx, id, args, ei).core, done.core, cx.task, Call(child, child, id, args)))
  {
    hide Run, ForkStep, ExecStep, EnterStep, Records;
    var forked := ForkStep(s, c, child, true, installOk, unknownOk);
    ForkInstalls(s, c, child, true, installOk, unknownOk);
    SparedRun(forked, between, child);
    var waited := Run(forked, between);
    ExecOpensLeader(waited, cx, oldTid, adoptOk, true);
    var done := ExecStep(waited, cx, oldTid, adoptOk, true, true);
    OpenedIsDispatched(done, cx, id, ei, ExitInput(true, 0, {}));
    if ReachesEnter(done, cx, id, ei) && LeavesRecord(cx, id, ei) && CanSave(done, cx.task, ei.saveOk) {
      EnterLeavesOneRecord(done, cx, id, args, ei);
    }
  }

  // ----- the end of a task ---------------------------------------------------------------

  /** The last thing reported. */
  predicate LastIs(h: History, e: Effect) { h.Then? && h.last == e }

  /** What a teardown of thread `tid` of process `pid` leaves of the maps: everything of other
      tasks, nothing of its own; the process's entries go with its leader. */
  ghost predicate TornDown(s: State, s': State, pid: int, tid: int, disarmOk: bool) {
    && s'.filter == s.filter - {tid} && s'.attachRoots == s.attachRoots - {tid}
    && s'.forkFlags == s.forkFlags - {tid} && s'.unknownChildren == s.unknownChildren - {tid}
    && s'.mainExited == (if tid == pid then s.mainExited - {pid} else s.mainExited)
    && s'.arm == (if tid == pid && s.arm == pid && disarmOk then 0 else s.arm)
    && (forall p :: p in s'.pendingExec <==>
          p in s.pendingExec && !(p == pid && (tid == pid || s.pendingExec[p] == tid)))
    && (forall p :: p in s'.pendingExec ==> s'.pendingExec[p] == s.pendingExec[p])
  }

  lemma TeardownMeaning(s: State, current: Task, pid: int, tid: int, disarmOk: bool)
    ensures TornDown(s, Teardown(s, current, pid, tid, disarmOk), pid, tid, disarmOk)
    ensures Teardown(s, current, pid, tid, disarmOk).attachExited == s.attachExited
  {
    hide Clear;
  }

  /** An ordinary exit of a tracked task: its record and its entries are gone, an attach root is
      remembered as exited, and its exit is reported with its code. */
  lemma ExitCleansUp(s: State, c: Ctx, code: int, markOk: bool, disarmOk: bool)
    requires IsTracked(s.filter, c.pid, c.tid) && !IsReplacedLeader(s, c.pid, c.tid)
    ensures var s' := TaskExitStep(s, c, code, markOk, disarmOk);
      && TornDown(s, s', c.pid, c.tid, disarmOk)
      && !HasValid(s'.core, c.task)
      && s'.attachExited == s.attachExited + (if c.tid != 0 && c.tid in s.attachRoots && markOk then {c.tid} else {})
      && (c.env.cfg.emitLifecycle ==> LastIs(s'.core.log, Lifecycle(ExitedEvent, c.pid, c.tid, code, 0)))
  {
    hide Clear, Teardown, TaskFlags, TornDown;
    var marked := MarkExited(TakeUnknown(s, c), c.tid, markOk);
    TeardownMeaning(marked, c.task, c.pid, c.tid, disarmOk);
    TeardownCore(TakeUnknown(s, c), c.tid, c.task, c.pid, markOk, disarmOk);
    ClearedRecord(TakeUnknown(s, c).core, c.task);
    TornDownAfterTaking(s, marked, c, Teardown(marked, c.task, c.pid, c.tid, disarmOk), disarmOk);
  }

  lemma ClearedRecord(k: Core, task: Task)
    ensures !HasValid(Clear(k, task), task)
  {
  }

  lemma TornDownAfterTaking(s: State, marked: State, c: Ctx, torn: State, disarmOk: bool)
    requires TornDown(marked, torn, c.pid, c.tid, disarmOk)
    requires marked.unknownChildren - {c.tid} == s.unknownChildren - {c.tid}
    requires marked == s.(core := marked.core, unknownChildren := marked.unknownChildren,
                          attachExited := marked.attachExited, mapFails := marked.mapFails)
    ensures TornDown(s, torn, c.pid, c.tid, disarmOk)
    ensures forall k: Core :: TornDown(s, torn.(core := k), c.pid, c.tid, disarmOk)
  {
  }

  /** The free of a tracked process: its entries are gone and the free is reported. */
  lemma FreeCleansUp(s: State, c: Ctx, freed: int, disarmOk: bool)
    requires freed != 0 && HasEntry(s.filter, freed)
    ensures var s' := FreeStep(s, c, freed, disarmOk);
      && TornDown(s, s', freed, freed, disarmOk)
      && (c.env.cfg.emitLifecycle ==> LastIs(s'.core.log, Lifecycle(FreeEvent, freed, freed, freed, 0)))
  {
    hide Teardown;
    TeardownMeaning(s, c.task, freed, freed, disarmOk);
  }

  /** Neither step touches anything when the task is not tracked, but for an unknown child. */
  lemma UntrackedEndIsSilent(s: State, c: Ctx, code: int, markOk: bool, disarmOk: bool)
    requires !IsTracked(s.filter, c.pid, c.tid)
    ensures TaskExitStep(s, c, code, markOk, disarmOk) == TakeUnknown(s, c)
    ensures c.tid !in s.unknownChildren ==> TaskExitStep(s, c, code, markOk, disarmOk) == s
    ensures !HasEntry(s.filter, c.tid) ==> FreeStep(s, c, c.tid, disarmOk) == s
  {
  }

  /** A call on a foreign ABI is reported and leaves no record and no handoff entry. */
  lemma ForeignCallIsReported(s: State, c: Ctx, id: int, args: seq<int>, ei: EnterInput, ret: int, xi: ExitInput)
    requires IsTracked(s.filter, c.pid, c.tid) && !ei.native && !xi.native && id >= 0
    ensures var s' := EnterStep(s, c, id, args, ei);
      && LastIs(s'.core.log, UnsupportedAbi(c.pid, c.tid, id)) && !HasValid(s'.core, c.task)
      && s'.pendingExec == s.pendingExec - {c.pid}
    ensures ExitStep(s, c, id, ret, xi) == EnterStep(s, c, id, args, ei)
  {
  }

  /** A tracked exec is reported with the old and the new thread id. */
  lemma ExecIsReported(s: State, c: Ctx, oldTid: int, adoptOk: bool, clearOk: bool, disarmOk: bool)
    requires IsTracked(s.filter, c.pid, c.tid) && c.env.cfg.emitLifecycle
    ensures LastIs(ExecStep(s, c, oldTid, adoptOk, clearOk, disarmOk).core.log,
                   Lifecycle(ExecEvent, c.pid, c.tid, oldTid, c.tid))
  {
    hide LeavePreExec, ExecCompletion, TaskFlags;
  }

  /** A raw exit taken through the handoff clears the mark of the exited main thread; no other
      does. */
  lemma HandedOverExitClearsMark(s: State, c: Ctx, id: int, ret: int, xi: ExitInput)
    requires ReachesExit(s, c, id, xi) && Owns(s, c, id, ret)
    requires var prog := ExitProgram(c, id, xi); !SkipsAll(prog, id) && !SkipsMatched(prog, id, ret, xi)
    ensures ExitStep(s, c, id, ret, xi).mainExited ==
      if s.core.storage[c.task].call.tid == c.tid then s.mainExited else s.mainExited - {c.pid}
  {
    ExitRunsProgram(s, c, id, ret, xi);
    hide CompleteAfter, ExitFragments, KvmReason, SkipsAll, SkipsMatched;
  }

  /** The old leader that an exec replaces leaves quietly: its record is gone and nothing else
      has changed or been reported. */
  lemma ReplacedLeaderLeavesQuietly(s: State, c: Ctx, code: int, markOk: bool, disarmOk: bool)
    requires IsTracked(s.filter, c.pid, c.tid) && IsReplacedLeader(s, c.pid, c.tid) && c.tid !in s.unknownChildren
    ensures var s' := TaskExitStep(s, c, code, markOk, disarmOk);
      && !HasValid(s'.core, c.task) && s' == s.(core := s'.core)
      && s'.core.log ==
           if HasValid(s.core, c.task) then Then(s.core.log, Retired(s.core.storage[c.task].gen)) else s.core.log
  {
  }

  // ----- failed updates ------------------------------------------------------------------

  lemma ProgramCountsFailures(s: State, c: Ctx, prog: EnterProg, id: int, args: seq<int>, ei: EnterInput)
    ensures RunEnter(s, c, prog, id, args, ei).mapFails ==
      s.mapFails + Truth(prog.Exec? && c.tid != c.pid && !ei.execOk) +
      Truth(prog.Terminating? && c.tid == c.pid && !ei.mainOk)
  {
    hide EmitAndSave, EmitChain, EnterChain, EnterPaths, BpfEnter;
  }

  /** Every map update that fails during a native enter is counted once, and nothing else is. */
  lemma EnterCountsFailures(s: State, c: Ctx, id: int, args: seq<int>, ei: EnterInput)
    requires IsTracked(s.filter, c.pid, c.tid) && ei.native && id != SYS_RT_SIGRETURN
    requires !IsSuppressed(TaskFlags(s.filter, c.pid, c.tid).value, id)
    ensures var prog := if Dispatched(c.env.cfg, id) then EnterProgram(c, id, ei) else None;
      EnterStep(s, c, id, args, ei).mapFails ==
      s.mapFails + Truth(IsExec(id) && c.tid != c.pid && !ei.armOk) +
      Truth(EnterForkFlags(id, args, ei).Some? && !ei.forkOk) +
      Truth(prog == Some(Exec) && c.tid != c.pid && !ei.execOk) +
      Truth(prog == Some(Terminating) && c.tid == c.pid && !ei.mainOk)
  {
    hide RunEnter, TaskFlags, Dispatched, IsSuppressed, EmitAndSave, EnterForkFlags, CaptureForkFlags, ArmExec;
    var noted := CaptureForkFlags(ArmExec(s, c, id, ei.armOk), c, id, args, ei);
    ArmedFailures(s, c, id, args, ei);
    if id in c.env.enterRoutes { ProgramCountsFailures(noted, c, c.env.enterRoutes[id], id, args, ei); }
  }

  lemma ArmedFailures(s: State, c: Ctx, id: int, args: seq<int>, ei: EnterInput)
    requires IsTracked(s.filter, c.pid, c.tid)
    ensures CaptureForkFlags(ArmExec(s, c, id, ei.armOk), c, id, args, ei).mapFails ==
      s.mapFails + Truth(IsExec(id) && c.tid != c.pid && !ei.armOk) +
      Truth(EnterForkFlags(id, args, ei).Some? && !ei.forkOk)
  {
    hide TaskFlags;
  }

  /** The same for an exec: the adoption, the end of the suppression, the disarm. */
  lemma ExecCountsFailures(s: State, c: Ctx, oldTid: int, adoptOk: bool, clearOk: bool, disarmOk: bool)
    requires IsTracked(s.filter, c.pid, c.tid)
    ensures var pre := HasPreExec(s.filter, c.tid);
      ExecStep(s, c, oldTid, adoptOk, clearOk, disarmOk).mapFails ==
      s.mapFails + Truth(pre && !clearOk) + Truth(pre && clearOk && s.arm != 0 && !disarmOk)
  {
    hide TaskFlags, Complete;
  }

  lemma AdoptCountsFailure(s: State, c: Ctx, oldTid: int, clearOk: bool, disarmOk: bool)
    requires !IsTracked(s.filter, c.pid, c.tid)
    ensures ExecStep(s, c, oldTid, false, clearOk, disarmOk) ==
      if oldTid != 0 && oldTid != c.tid && HasEntry(s.filter, oldTid) then FailMap(s) else s
  {
  }

  /** And for an exit: the attach mark and the disarm. */
  lemma ExitCountsFailures(s: State, c: Ctx, code: int, markOk: bool, disarmOk: bool)
    requires IsTracked(s.filter, c.pid, c.tid) && !IsReplacedLeader(s, c.pid, c.tid)
    ensures TaskExitStep(s, c, code, markOk, disarmOk).mapFails ==
      s.mapFails + Truth(c.tid != 0 && c.tid in s.attachRoots && !markOk) +
      Truth(c.tid == c.pid && s.arm == c.pid && !disarmOk)
  {
    hide Clear, TaskFlags;
  }
}
