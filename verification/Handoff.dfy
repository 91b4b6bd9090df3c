/** Non-leader exec: the thread that calls execve survives its whole group, takes over the
    leader's identity, and its pending record, its tracking and its single completion survive
    with it, in every order of the other threads' exits. */
module Handoff {
  import opened Abi
  import opened PendingCore
  import opened Protocol
  import opened Steps
  import opened Generations
  import opened Chains
  import Startup

  /** A non-leader thread of `group` that is inside execve. */
  datatype Caller = Caller(task: Task, group: int, thread: int)

  /** `t` is the record saved for the caller's execve. */
  ghost predicate InExec(s: State, h: Caller, t: TaskState) {
    && Inv(s.core)
    && h.group != h.thread
    && t.valid && IsExec(t.call.sysId)
    && t.call.pid == h.group && t.call.tid == h.thread
    && Recorded(s.core, h.task) == Some(t)
    && h.group in s.pendingExec && s.pendingExec[h.group] == h.thread
    && IsTracked(s.filter, h.group, h.thread)
  }

  /** Exit events reported for the leader of `group`. */
  ghost function LeaderExits(h: History, group: int): nat {
    match h
    case Start => 0
    case Then(before, e) =>
      LeaderExits(before, group) +
      if e.Lifecycle? && e.kind.ExitedEvent? && e.pid == group && e.tid == group then 1 else 0
  }

  predicate Stranger(c: Ctx, h: Caller) {
    c.task != h.task && c.pid != h.group && c.pid != h.thread && c.tid != h.group && c.tid != h.thread
  }

  predicate Sibling(c: Ctx, h: Caller) { c.task != h.task && c.pid == h.group && c.tid != h.thread }

  /** What may happen between the caller's execve entry and its exec: exits of the other
      threads of the group, leader included, in any order; their ordinary system calls as long
      as they are native, not execve, and matched; and anything at all by other groups. */
  ghost predicate Bystander(s: State, l: Label, h: Caller) {
    match l
    case Enter(c, id, _, ei) =>
      Stranger(c, h) ||
      (Sibling(c, h) && ei.native && !IsExec(id) && !(id in c.env.enterRoutes && c.env.enterRoutes[id].Exec?))
    case Exit(c, id, ret, xi) =>
      Stranger(c, h) ||
      (Sibling(c, h) && xi.native && !IsExec(id) && (HasValid(s.core, c.task) ==> Owns(s, c, id, ret)))
    case Fork(c, child, _, _, _) => (Stranger(c, h) || Sibling(c, h)) && child != h.group && child != h.thread
    case ExecDone(c, oldTid, _, _, _) => Stranger(c, h) && oldTid != h.group && oldTid != h.thread
    case TaskExit(c, _, _, _) => Stranger(c, h) || Sibling(c, h)
    case Free(c, freed, _) => c.task != h.task && freed != h.group && freed != h.thread
    case Kvm(c, _, _) => c.task != h.task
    case RecvmsgReturn(c, _, _) => Stranger(c, h) || Sibling(c, h)
  }

  // ----- the caller's record -------------------------------------------------------------

  function Recorded(k: Core, task: Task): Option<TaskState> {
    if task in k.storage then Some(k.storage[task]) else None
  }

  /** A step of one task leaves the record of every other task as it was. */
  lemma OthersKeepRecord(s: State, l: Label, task: Task)
    requires l.c.task != task
    ensures Recorded(Step(s, l).core, task) == Recorded(s.core, task)
  {
    var was := Recorded(s.core, task);
    StepKeeps((k: Core) => Recorded(k, task) == was, AnyMove(l.c.task, AnyCall), s, l);
  }

  // ----- pending_exec_map ----------------------------------------------------------------

  lemma EnterExecMap(s: State, c: Ctx, id: int, args: seq<int>, ei: EnterInput)
    ensures EnterStep(s, c, id, args, ei).pendingExec - {c.pid} == s.pendingExec - {c.pid}
    ensures ei.native && !IsExec(id) && !(id in c.env.enterRoutes && c.env.enterRoutes[id].Exec?) ==>
      EnterStep(s, c, id, args, ei).pendingExec == s.pendingExec
  {
    hide RunEnter, Clear, TaskFlags, Dispatched, IsSuppressed;
    var noted := CaptureForkFlags(ArmExec(s, c, id, ei.armOk), c, id, args, ei);
    assert noted.pendingExec - {c.pid} == s.pendingExec - {c.pid};
    assert !IsExec(id) ==> noted.pendingExec == s.pendingExec;
    if id in c.env.enterRoutes { RunEnterExecMap(noted, c, c.env.enterRoutes[id], id, args, ei); }
  }

  lemma RunEnterExecMap(s: State, c: Ctx, prog: EnterProg, id: int, args: seq<int>, ei: EnterInput)
    ensures RunEnter(s, c, prog, id, args, ei).pendingExec - {c.pid} == s.pendingExec - {c.pid}
    ensures !prog.Exec? ==> RunEnter(s, c, prog, id, args, ei).pendingExec == s.pendingExec
  {
    hide EmitAndSave, EmitChain, EnterChain, EnterPaths, BpfEnter;
    var saved := EmitAndSave(s, c, id, args, ei);
    assert saved.pendingExec == s.pendingExec;
    if prog.Exec? { assert PutPendingExec(saved, c, ei.execOk).pendingExec - {c.pid} == s.pendingExec - {c.pid}; }
  }

  lemma RunExitExecMap(s: State, c: Ctx, prog: ExitProg, id: int, ret: int, xi: ExitInput)
    ensures RunExit(s, c, prog, id, ret, xi).pendingExec - {c.pid} == s.pendingExec - {c.pid}
    ensures !IsExec(id) && (HasValid(s.core, c.task) ==> Owns(s, c, id, ret)) ==>
      RunExit(s, c, prog, id, ret, xi).pendingExec == s.pendingExec
  {
  }

  lemma ExitExecMap(s: State, c: Ctx, id: int, ret: int, xi: ExitInput)
    ensures ExitStep(s, c, id, ret, xi).pendingExec - {c.pid} == s.pendingExec - {c.pid}
    ensures xi.native && !IsExec(id) && (HasValid(s.core, c.task) ==> Owns(s, c, id, ret)) ==>
      ExitStep(s, c, id, ret, xi).pendingExec == s.pendingExec
  {
    var noted := ForgetForkFlags(s, c, id);
    assert Owns(noted, c, id, ret) == Owns(s, c, id, ret);
    RunExitExecMap(noted, c, Plain, id, ret, xi);
    if id in c.env.exitRoutes { RunExitExecMap(noted, c, c.env.exitRoutes[id], id, ret, xi); }
  }

  lemma OtherEntry(before: map<int, int>, after: map<int, int>, pid: int, group: int)
    requires after - {pid} == before - {pid} && group != pid && group in before
    ensures group in after && after[group] == before[group]
  {
    assert group in before - {pid} && (before - {pid})[group] == before[group];
    assert (after - {pid})[group] == after[group];
  }

  lemma ForkExecMap(s: State, c: Ctx, child: int, preOk: bool, installOk: bool, unknownOk: bool)
    ensures ForkStep(s, c, child, preOk, installOk, unknownOk).pendingExec == s.pendingExec
  {
  }

  lemma ExecExecMap(s: State, c: Ctx, oldTid: int, adoptOk: bool, clearOk: bool, disarmOk: bool)
    ensures ExecStep(s, c, oldTid, adoptOk, clearOk, disarmOk).pendingExec - {c.pid} == s.pendingExec - {c.pid}
  {
    var entered := LeavePreExec(Adopt(s, c, oldTid, adoptOk).0, c.tid, clearOk, disarmOk);
    assert entered.pendingExec == s.pendingExec;
    assert ExecCompletion(entered, c).pendingExec - {c.pid} == s.pendingExec - {c.pid};
  }

  lemma RecvmsgExecMap(s: State, c: Ctx, ret: int, tails: set<Slot>)
    ensures RecvmsgStep(s, c, ret, tails).pendingExec == s.pendingExec
  {
  }

  lemma TeardownMaps(s: State, current: Task, pid: int, tid: int, disarmOk: bool)
    ensures var s' := Teardown(s, current, pid, tid, disarmOk);
      && s'.pendingExec - {pid} == s.pendingExec - {pid}
      && (tid != pid && !(pid in s.pendingExec && s.pendingExec[pid] == tid) ==> s'.pendingExec == s.pendingExec)
      && s'.filter == s.filter - {tid}
  {
  }

  lemma TaskExitMaps(s: State, c: Ctx, code: int, markOk: bool, disarmOk: bool)
    ensures var s' := TaskExitStep(s, c, code, markOk, disarmOk);
      && s'.pendingExec - {c.pid} == s.pendingExec - {c.pid}
      && (s'.filter == s.filter || s'.filter == s.filter - {c.tid})
      && (c.tid != c.pid && !(c.pid in s.pendingExec && s.pendingExec[c.pid] == c.tid) ==>
          s'.pendingExec == s.pendingExec)
  {
    var marked := MarkExited(TakeUnknown(s, c), c.tid, markOk);
    TeardownMaps(marked, c.task, c.pid, c.tid, disarmOk);
  }

  /** While another thread of its group is in execve, the leader's exit changes nothing but its
      own record (and any note about an unknown child): it is not reported. */
  lemma LeaderExitIsSilent(s: State, c: Ctx, code: int, markOk: bool, disarmOk: bool)
    requires c.tid == c.pid && c.pid in s.pendingExec && s.pendingExec[c.pid] != c.pid
    ensures var s' := TaskExitStep(s, c, code, markOk, disarmOk);
      && s'.pendingExec == s.pendingExec && s'.filter == s.filter
      && LeaderExits(s'.core.log, c.pid) == LeaderExits(s.core.log, c.pid)
  {
  }

  // ----- one bystander step --------------------------------------------------------------

  lemma BystanderExecMap(s: State, l: Label, h: Caller, t: TaskState)
    requires InExec(s, h, t) && Bystander(s, l, h)
    ensures var s' := Step(s, l); h.group in s'.pendingExec && s'.pendingExec[h.group] == h.thread
  {
    hide EnterStep, ExitStep, ForkStep, ExecStep, TaskExitStep, RecvmsgStep, Inv;
    var s' := Step(s, l);
    match l
    case Enter(c, id, args, ei) =>
      EnterExecMap(s, c, id, args, ei);
      if Stranger(c, h) { OtherEntry(s.pendingExec, s'.pendingExec, c.pid, h.group); }
    case Exit(c, id, ret, xi) =>
      ExitExecMap(s, c, id, ret, xi);
      if Stranger(c, h) { OtherEntry(s.pendingExec, s'.pendingExec, c.pid, h.group); }
    case Fork(c, child, preOk, installOk, unknownOk) => ForkExecMap(s, c, child, preOk, installOk, unknownOk);
    case ExecDone(c, oldTid, adoptOk, clearOk, disarmOk) =>
      ExecExecMap(s, c, oldTid, adoptOk, clearOk, disarmOk);
      OtherEntry(s.pendingExec, s'.pendingExec, c.pid, h.group);
    case TaskExit(c, code, markOk, disarmOk) =>
      TaskExitMaps(s, c, code, markOk, disarmOk);
      if Stranger(c, h) {
        OtherEntry(s.pendingExec, s'.pendingExec, c.pid, h.group);
      } else if c.tid == c.pid {
        LeaderExitIsSilent(s, c, code, markOk, disarmOk);
      }
    case Free(c, freed, disarmOk) =>
      TeardownMaps(s, c.task, freed, freed, disarmOk);
      OtherEntry(s.pendingExec, s'.pendingExec, freed, h.group);
    case Kvm(c, reason, error) =>
    case RecvmsgReturn(c, ret, tails) => RecvmsgExecMap(s, c, ret, tails);
  }

  lemma ForeignExecTracking(s: State, c: Ctx, oldTid: int, adoptOk: bool, clearOk: bool, disarmOk: bool, h: Caller)
    requires Stranger(c, h) && oldTid != h.group && oldTid != h.thread && IsTracked(s.filter, h.group, h.thread)
    ensures IsTracked(ExecStep(s, c, oldTid, adoptOk, clearOk, disarmOk).filter, h.group, h.thread)
  {
    hide ExecStep, ExecCompletion, LogLifecycle;
    Startup.ExecFrame(s, c, oldTid, adoptOk, clearOk, disarmOk);
    var adopted := Adopt(s, c, oldTid, adoptOk).0;
    assert IsTracked(adopted.filter, h.group, h.thread);
    assert IsTracked(LeavePreExec(adopted, c.tid, clearOk, disarmOk).filter, h.group, h.thread);
  }

  lemma BystanderTracking(s: State, l: Label, h: Caller, t: TaskState)
    requires InExec(s, h, t) && Bystander(s, l, h)
    ensures IsTracked(Step(s, l).filter, h.group, h.thread)
  {
    hide EnterStep, ExitStep, ForkStep, ExecStep, TaskExitStep, FreeStep, RecvmsgStep, Inv, Owns;
    match l
    case Enter(c, id, args, ei) => Startup.EnterFrame(s, c, id, args, ei);
    case Exit(c, id, ret, xi) => Startup.ExitFrame(s, c, id, ret, xi);
    case Fork(c, child, preOk, installOk, unknownOk) => Startup.ForkFrame(s, c, child, preOk, installOk, unknownOk);
    case ExecDone(c, oldTid, adoptOk, clearOk, disarmOk) =>
      ForeignExecTracking(s, c, oldTid, adoptOk, clearOk, disarmOk, h);
    case TaskExit(c, code, markOk, disarmOk) =>
      TaskExitMaps(s, c, code, markOk, disarmOk);
      if c.tid == h.group { LeaderExitIsSilent(s, c, code, markOk, disarmOk); }
    case Free(c, freed, disarmOk) => Startup.FreeFrame(s, c, freed, disarmOk);
    case Kvm(c, reason, error) =>
    case RecvmsgReturn(c, ret, tails) => Startup.RecvmsgFrame(s, c, ret, tails);
  }

  predicate NotLeaderExit(e: Effect, group: int) {
    Neutral(e) && !(e.Lifecycle? && e.kind.ExitedEvent? && e.pid == group && e.tid == group)
  }

  lemma LeaderExitsThen(h: History, e: Effect, group: int)
    ensures !(e.Lifecycle? && e.kind.ExitedEvent? && e.pid == group && e.tid == group) ==>
      LeaderExits(Then(h, e), group) == LeaderExits(h, group)
  {
  }

  lemma BystanderReportsNoLeaderExit(s: State, l: Label, h: Caller, t: TaskState)
    requires InExec(s, h, t) && Bystander(s, l, h)
    ensures LeaderExits(Step(s, l).core.log, h.group) == LeaderExits(s.core.log, h.group)
  {
    hide EnterStep, ExitStep, ForkStep, ExecStep, TaskExitStep, FreeStep, RecvmsgStep, KvmStep, Inv;
    if l.TaskExit? && l.c.tid == l.c.pid && l.c.pid == h.group {
      LeaderExitIsSilent(s, l.c, l.code, l.markOk, l.disarmOk);
    } else {
      var n := LeaderExits(s.core.log, h.group);
      var P := (k: Core) => LeaderExits(k.log, h.group) == n;
      var m := Moves(l.c.task, (e: Effect) => NotLeaderExit(e, h.group), AnyCall, AnyReturn);
      forall k, call | P(k) ensures P(Save(k, m.who, call)) {
        if HasValid(k, m.who) { LeaderExitsThen(k.log, Overwritten(k.storage[m.who].gen), h.group); }
      }
      forall k, ret, kvm | P(k) && HasValid(k, m.who) ensures P(Complete(k, m.who, ret, kvm)) {
        LeaderExitsThen(k.log, ExitEvent(k.storage[m.who].gen, k.storage[m.who].call, ret, kvm), h.group);
      }
      forall k, reason, error | P(k) && HasValid(k, m.who) ensures P(Observe(k, m.who, reason, error)) {
        LeaderExitsThen(k.log, KvmSeen(k.storage[m.who].gen, reason, error), h.group);
      }
      StepKeeps(P, m, s, l);
    }
  }

  lemma BystanderKeeps(s: State, l: Label, h: Caller, t: TaskState)
    requires InExec(s, h, t) && Bystander(s, l, h)
    ensures InExec(Step(s, l), h, t)
    ensures LeaderExits(Step(s, l).core.log, h.group) == LeaderExits(s.core.log, h.group)
  {
    StepInv(s, l);
    OthersKeepRecord(s, l, h.task);
    BystanderExecMap(s, l, h, t);
    BystanderTracking(s, l, h, t);
    BystanderReportsNoLeaderExit(s, l, h, t);
  }

  ghost predicate AllBystanders(s: State, labels: seq<Label>, h: Caller)
    decreases |labels|
  {
    labels == [] || (Bystander(s, labels[0], h) && AllBystanders(Step(s, labels[0]), labels[1..], h))
  }

  lemma {:induction false} BystandersKeep(s: State, labels: seq<Label>, h: Caller, t: TaskState)
    requires InExec(s, h, t) && AllBystanders(s, labels, h)
    ensures InExec(Run(s, labels), h, t)
    ensures LeaderExits(Run(s, labels).core.log, h.group) == LeaderExits(s.core.log, h.group)
    decreases |labels|
  {
    if labels != [] {
      BystanderKeeps(s, labels[0], h, t);
      BystandersKeep(Step(s, labels[0]), labels[1..], h, t);
    }
  }

  // ----- the two ends --------------------------------------------------------------------

  /** Entering execve from a tracked non-leader thread starts the handoff. */
  lemma EnterStartsHandoff(s: State, c: Ctx, id: int, args: seq<int>, ei: EnterInput) returns (t: TaskState)
    requires Inv(s.core) && c.tid != c.pid && IsExec(id)
    requires ReachesEnter(s, c, id, ei) && LeavesRecord(c, id, ei) && CanSave(s, c.task, ei.saveOk) && ei.armOk
    ensures t.gen == s.core.nextGen && t.call == Call(c.pid, c.tid, id, args)
    ensures InExec(EnterStep(s, c, id, args, ei), Caller(c.task, c.pid, c.tid), t)
  {
    StepInv(s, Enter(c, id, args, ei));
    EnterLeavesOneRecord(s, c, id, args, ei);
    ExecEntryArms(s, c, id, args, ei);
    t := EnterStep(s, c, id, args, ei).core.storage[c.task];
  }

  lemma ExecProgramArms(s: State, c: Ctx, id: int, args: seq<int>, ei: EnterInput)
    requires c.tid != c.pid && c.pid in s.pendingExec && s.pendingExec[c.pid] == c.tid
    ensures RunEnter(s, c, Exec, id, args, ei).pendingExec == s.pendingExec
  {
    hide EmitAndSave;
  }

  lemma ExecEntryArms(s: State, c: Ctx, id: int, args: seq<int>, ei: EnterInput)
    requires c.tid != c.pid && IsExec(id) && ReachesEnter(s, c, id, ei) && ei.armOk
    ensures var s' := EnterStep(s, c, id, args, ei); c.pid in s'.pendingExec && s'.pendingExec[c.pid] == c.tid
  {
    hide RunEnter, Clear;
    var noted := CaptureForkFlags(ArmExec(s, c, id, ei.armOk), c, id, args, ei);
    assert noted.pendingExec == s.pendingExec[c.pid := c.tid];
    if EnterProgram(c, id, ei).Some? {
      var prog := EnterProgram(c, id, ei).value;
      RunEnterExecMap(noted, c, prog, id, args, ei);
      if prog.Exec? { ExecProgramArms(noted, c, id, args, ei); }
    }
  }

  /** The exec step, taken under the leader's identity, completes the saved call once with
      return value 0, keeps the group tracked and empties the handoff entry. */
  lemma ExecFinishesHandoff(s: State, h: Caller, t: TaskState, c: Ctx, clearOk: bool, disarmOk: bool)
    requires InExec(s, h, t) && c.task == h.task && c.pid == h.group && c.tid == h.group && h.thread != 0
    ensures var s' := ExecStep(s, c, h.thread, true, clearOk, disarmOk);
      && IsTracked(s'.filter, h.group, h.group)
      && h.group !in s'.pendingExec
      && !HasValid(s'.core, h.task)
      && s'.orphans == s.orphans && s'.mismatches == s.mismatches
      && Completions(s'.core.log, t.gen) == 1
      && LeaderExits(s'.core.log, h.group) == LeaderExits(s.core.log, h.group)
      && s'.core == LogLifecycle(s.(core := Complete(s.core, h.task, 0, None)), c, ExecEvent, h.group, h.group,
          h.thread, h.group).core
  {
    var adopted := Adopt(s, c, h.thread, true);
    assert adopted.1 && IsTracked(adopted.0.filter, h.group, h.group);
    Startup.ExecFrame(s, c, h.thread, true, clearOk, disarmOk);
    EnterExecCore(s, c, h.thread, true, clearOk, disarmOk);
    assert Live(s.core, t.gen) by { assert HasValid(s.core, h.task); }
    CompleteCount(s.core, h.task, 0, None, t.gen);
    LeaderExitsThen(s.core.log, ExitEvent(t.gen, t.call, 0, None), h.group);
  }

  /** A raw exec exit with value 0 and no record is never an orphan, whichever program gets it. */
  lemma LateExecExitIsQuiet(s: State, c: Ctx, id: int, xi: ExitInput)
    requires IsExec(id) && !HasValid(s.core, c.task) && xi.native
    ensures ExitStep(s, c, id, 0, xi) == s
  {
  }

  /** Steps of other tasks, whatever they are, leave a task without a record without one. */
  lemma {:induction false} OthersLeaveNone(s: State, labels: seq<Label>, task: Task)
    requires !HasValid(s.core, task) && forall l :: l in labels ==> l.c.task != task
    ensures !HasValid(Run(s, labels).core, task)
    decreases |labels|
  {
    if labels != [] {
      assert labels[0] in labels;
      OthersKeepRecord(s, labels[0], task);
      assert Recorded(Step(s, labels[0]).core, task) == Recorded(s.core, task);
      OthersLeaveNone(Step(s, labels[0]), labels[1..], task);
    }
  }

  /** The whole handoff. Thread T of a tracked group P enters a traced execve; then the other
      threads of the group exit in any order, leader included, among arbitrary steps of other
      groups; then the kernel runs the exec under P's identity; then, after any steps of any
      other tasks, the raw exit arrives.
      Tracking of P survives, no exit is reported for the old leader, exactly one exit event
      is emitted for the call (with value 0), the handoff entry is gone, and the late raw exit
      changes nothing. */
  lemma NonLeaderExecHandoff(
      s: State, c: Ctx, id: int, args: seq<int>, ei: EnterInput,
      between: seq<Label>, cx: Ctx, clearOk: bool, disarmOk: bool, after: seq<Label>, cy: Ctx, xi: ExitInput)
    requires Inv(s.core) && c.tid != c.pid && c.tid != 0 && IsExec(id)
    requires ReachesEnter(s, c, id, ei) && LeavesRecord(c, id, ei) && CanSave(s, c.task, ei.saveOk) && ei.armOk
    requires cx.task == cy.task == c.task && cx.pid == c.pid && cx.tid == c.pid && xi.native
    requires forall l :: l in after ==> l.c.task != c.task
    requires AllBystanders(EnterStep(s, c, id, args, ei), between, Caller(c.task, c.pid, c.tid))
    ensures
      var entered := EnterStep(s, c, id, args, ei);
      var waited := Run(entered, between);
      var done := ExecStep(waited, cx, c.tid, true, clearOk, disarmOk);
      var g := s.core.nextGen;
      && IsTracked(done.filter, c.pid, c.pid)
      && LeaderExits(done.core.log, c.pid) == LeaderExits(entered.core.log, c.pid)
      && Completions(waited.core.log, g) == 0
      && HasValid(waited.core, c.task)
      && waited.core.storage[c.task].call == Call(c.pid, c.tid, id, args)
      && done.core ==
           LogLifecycle(waited.(core := Complete(waited.core, c.task, 0, None)),
                        cx, ExecEvent, c.pid, c.pid, c.tid, c.pid).core
      && Completions(done.core.log, g) == 1
      && c.pid !in done.pendingExec
      && done.orphans == waited.orphans && done.mismatches == waited.mismatches
      && ExitStep(Run(done, after), cy, id, 0, xi) == Run(done, after)
  {
    var h := Caller(c.task, c.pid, c.tid);
    var t := EnterStartsHandoff(s, c, id, args, ei);
    BystandersKeep(EnterStep(s, c, id, args, ei), between, h, t);
    var waited := Run(EnterStep(s, c, id, args, ei), between);
    assert Live(waited.core, t.gen) by { assert HasValid(waited.core, h.task); }
    ExecFinishesHandoff(waited, h, t, cx, clearOk, disarmOk);
    var done := ExecStep(waited, cx, c.tid, true, clearOk, disarmOk);
    OthersLeaveNone(done, after, c.task);
    LateExecExitIsQuiet(Run(done, after), cy, id, xi);
  }

  // ----- where the handoff stops ---------------------------------------------------------

  /** Two threads of one group in execve at once: the second overwrites the entry, and when its
      own attempt fails it removes the entry of the first. */
  lemma RivalExecRemovesHandoff(
      s: State, h: Caller, t: TaskState, c: Ctx, id: int, args: seq<int>, ei: EnterInput, ret: int, xi: ExitInput)
    requires InExec(s, h, t) && Sibling(c, h) && c.tid != c.pid && IsExec(id) && ret < 0
    requires ReachesEnter(s, c, id, ei) && LeavesRecord(c, id, ei) && CanSave(s, c.task, ei.saveOk) && ei.armOk
    requires var s' := EnterStep(s, c, id, args, ei);
      ReachesExit(s', c, id, xi) && !SkipsAll(ExitProgram(c, id, xi), id) &&
          !SkipsMatched(ExitProgram(c, id, xi), id, ret, xi)
    ensures var s' := EnterStep(s, c, id, args, ei); h.group in s'.pendingExec && s'.pendingExec[h.group] == c.tid
    ensures h.group !in ExitStep(EnterStep(s, c, id, args, ei), c, id, ret, xi).pendingExec
  {
    ExecEntryArms(s, c, id, args, ei);
    EnterLeavesOneRecord(s, c, id, args, ei);
    ExitRunsProgram(EnterStep(s, c, id, args, ei), c, id, ret, xi);
  }

  /** The handoff entry still names the caller. */
  predicate EntryKept(s: State, h: Caller) { h.group in s.pendingExec && s.pendingExec[h.group] == h.thread }

  /** Exactly which raw enters of another thread of the group leave the entry in place, when
      map updates succeed: an untracked thread's, and a native one that is not a non-leader's
      execve. */
  lemma SiblingEnterKeepsHandoffIff(s: State, h: Caller, t: TaskState, c: Ctx, id: int, args: seq<int>, ei: EnterInput)
    requires InExec(s, h, t) && Sibling(c, h) && ei.armOk && ei.execOk
    requires id in c.env.enterRoutes && c.env.enterRoutes[id].Exec? ==> IsExec(id)
    ensures EntryKept(EnterStep(s, c, id, args, ei), h) <==>
      (IsTracked(s.filter, c.pid, c.tid) ==> ei.native && (IsExec(id) ==> c.tid == c.pid))
  {
    if IsTracked(s.filter, c.pid, c.tid) && ei.native {
      var noted := CaptureForkFlags(ArmExec(s, c, id, ei.armOk), c, id, args, ei);
      if id in c.env.enterRoutes { EnterWritesOwnEntry(noted, c, c.env.enterRoutes[id], id, args, ei); }
    }
  }

  lemma EnterWritesOwnEntry(s: State, c: Ctx, prog: EnterProg, id: int, args: seq<int>, ei: EnterInput)
    requires ei.execOk
    ensures RunEnter(s, c, prog, id, args, ei).pendingExec ==
      if prog.Exec? && c.tid != c.pid then s.pendingExec[c.pid := c.tid] else s.pendingExec
  {
    hide EmitAndSave, EmitChain, EnterChain, EnterPaths, BpfEnter;
  }

  /** Exactly which raw exits of another thread leave it in place: all that stop before a
      handler, and native ones that have no record or own it, unless they close a non-leader's
      execve. */
  lemma SiblingExitKeepsHandoffIff(s: State, h: Caller, t: TaskState, c: Ctx, id: int, ret: int, xi: ExitInput)
    requires InExec(s, h, t) && Sibling(c, h)
    ensures EntryKept(ExitStep(s, c, id, ret, xi), h) <==>
      (id >= 0 && IsTracked(s.filter, c.pid, c.tid) ==>
         && xi.native
         && (ReachesExit(s, c, id, xi) && !SkipsAll(ExitProgram(c, id, xi), id) && HasValid(s.core, c.task) ==>
               && Owns(s, c, id, ret)
               && (IsExec(id) && !SkipsMatched(ExitProgram(c, id, xi), id, ret, xi) ==>
                     s.core.storage[c.task].call.tid == c.tid == s.core.storage[c.task].call.pid)))
  {
    if ReachesExit(s, c, id, xi) {
      ExitRunsProgram(s, c, id, ret, xi);
      ExitTouchesEntry(ForgetForkFlags(s, c, id), c, ExitProgram(c, id, xi), id, ret, xi);
    }
  }

  lemma ExitTouchesEntry(s: State, c: Ctx, prog: ExitProg, id: int, ret: int, xi: ExitInput)
    requires c.pid in s.pendingExec
    ensures c.pid in RunExit(s, c, prog, id, ret, xi).pendingExec <==>
      (!SkipsAll(prog, id) && HasValid(s.core, c.task) ==>
         && Owns(s, c, id, ret)
         && (IsExec(id) && !SkipsMatched(prog, id, ret, xi) ==>
             s.core.storage[c.task].call.tid == c.tid == s.core.storage[c.task].call.pid))
    ensures RunExit(s, c, prog, id, ret, xi).pendingExec == s.pendingExec ||
      RunExit(s, c, prog, id, ret, xi).pendingExec == s.pendingExec - {c.pid}
  {
    hide CompleteAfter, Complete, Clear, ExitFragments, KvmReason, CountsAsOrphan;
  }

  /** Both edges together: a call of another tracked thread whose record is saved leaves
      the handoff in place if and only if both edges are native and it is not a non-leader's
      execve, whether or not the filter dispatches it. */
  lemma SiblingCallKeepsHandoffIff(
      s: State, h: Caller, t: TaskState, c: Ctx, id: int, args: seq<int>, ei: EnterInput, ret: int, xi: ExitInput)
    requires InExec(s, h, t) && Sibling(c, h) && IsTracked(s.filter, c.pid, c.tid) && id >= 0 && ei.armOk && ei.execOk
    requires id in c.env.enterRoutes && c.env.enterRoutes[id].Exec? ==> IsExec(id)
    requires ReachesEnter(s, c, id, ei) ==> LeavesRecord(c, id, ei) && CanSave(s, c.task, ei.saveOk)
    ensures EntryKept(ExitStep(EnterStep(s, c, id, args, ei), c, id, ret, xi), h) <==>
      ei.native && xi.native && (IsExec(id) ==> c.tid == c.pid)
  {
    var s' := EnterStep(s, c, id, args, ei);
    assert SameTracking(s, s');
    SiblingEnterKeepsHandoffIff(s, h, t, c, id, args, ei);
    if EntryKept(s', h) {
      StepInv(s, Enter(c, id, args, ei));
      OthersKeepRecord(s, Enter(c, id, args, ei), h.task);
      if ReachesEnter(s, c, id, ei) { EnterLeavesOneRecord(s, c, id, args, ei); }
      hide EnterStep, ExitStep, SkipsAll, SkipsMatched;
      SiblingExitKeepsHandoffIff(s', h, t, c, id, ret, xi);
    } else {
      ExitAddsNoEntry(s', c, id, ret, xi);
    }
  }

  lemma ExitAddsNoEntry(s: State, c: Ctx, id: int, ret: int, xi: ExitInput)
    ensures var r := ExitStep(s, c, id, ret, xi).pendingExec; r == s.pendingExec || r == s.pendingExec - {c.pid}
  {
    if ReachesExit(s, c, id, xi) {
      ExitRunsProgram(s, c, id, ret, xi);
      if c.pid in s.pendingExec {
        ExitTouchesEntry(ForgetForkFlags(s, c, id), c, ExitProgram(c, id, xi), id, ret, xi);
      } else {
        RunExitExecMap(ForgetForkFlags(s, c, id), c, ExitProgram(c, id, xi), id, ret, xi);
      }
    }
  }

  /** A second way to lose the handoff: any call of another tracked thread on a foreign ABI
      deletes the entry, and when the old leader then exits, its group's tracking goes with it. */
  lemma ForeignAbiRemovesHandoff(
      s: State, h: Caller, t: TaskState, c: Ctx, id: int, args: seq<int>, ei: EnterInput, leader: Ctx, code: int,
          markOk: bool, disarmOk: bool)
    requires InExec(s, h, t) && Sibling(c, h) && IsTracked(s.filter, c.pid, c.tid) && !ei.native
    requires leader.pid == leader.tid == h.group && IsTracked(s.filter, h.group, h.group)
    ensures var s' := EnterStep(s, c, id, args, ei);
      && h.group !in s'.pendingExec
      && h.group !in TaskExitStep(s', leader, code, markOk, disarmOk).filter
      && (h.thread !in s.filter ==>
          !IsTracked(TaskExitStep(s', leader, code, markOk, disarmOk).filter, h.group, h.thread))
  {
    var s' := EnterStep(s, c, id, args, ei);
    assert s' == RejectAbi(s, c, id);
    Startup.TaskExitFrame(s', leader, code, markOk, disarmOk);
    TaskExitMaps(s', leader, code, markOk, disarmOk);
  }

  /** An execve that the filter excludes still arms the handoff on entry, but its exit edge
      returns before any cleanup: a failed attempt leaves the entry behind. */
  lemma FilteredExecLeavesEntry(s: State, c: Ctx, id: int, args: seq<int>, ei: EnterInput, ret: int, xi: ExitInput)
    requires IsExec(id) && c.tid != c.pid && ei.native && xi.native && ei.armOk
    requires IsTracked(s.filter, c.pid, c.tid) && !Dispatched(c.env.cfg, id)
    ensures ExitStep(EnterStep(s, c, id, args, ei), c, id, ret, xi) == s.(pendingExec := s.pendingExec[c.pid := c.tid])
  {
  }

  /** Exactly when a failed execve of a non-leader takes its entry away again: when the filter
      lets the call through to its handlers. */
  lemma FailedExecCleansUpIffDispatched(
      s: State, c: Ctx, id: int, args: seq<int>, ei: EnterInput, ret: int, xi: ExitInput)
    requires IsExec(id) && c.tid != c.pid && ei.native && xi.native && ei.armOk && ret < 0
    requires IsTracked(s.filter, c.pid, c.tid) && LeavesRecord(c, id, ei) && CanSave(s, c.task, ei.saveOk)
    requires !SkipsAll(ExitProgram(c, id, xi), id) && !SkipsMatched(ExitProgram(c, id, xi), id, ret, xi)
    ensures c.pid !in ExitStep(EnterStep(s, c, id, args, ei), c, id, ret, xi).pendingExec <==> Dispatched(c.env.cfg, id)
  {
    hide ExitStep, RunExit, SkipsAll, SkipsMatched;
    var s' := EnterStep(s, c, id, args, ei);
    assert SameTracking(s, s');
    hide EnterStep;
    if Dispatched(c.env.cfg, id) {
      EnterLeavesOneRecord(s, c, id, args, ei);
      ExecEntryArms(s, c, id, args, ei);
      ExitRunsProgram(s', c, id, ret, xi);
      ExitTouchesEntry(ForgetForkFlags(s', c, id), c, ExitProgram(c, id, xi), id, ret, xi);
    } else {
      FilteredExecLeavesEntry(s, c, id, args, ei, ret, xi);
    }
  }

  /** The task-free step clears the record of whichever task is current, not of the freed one. */
  lemma FreeDropsCurrentRecord(s: State, c: Ctx, freed: int, disarmOk: bool)
    requires freed != 0 && IsTracked(s.filter, freed, freed) && HasValid(s.core, c.task)
    ensures var s' := FreeStep(s, c, freed, disarmOk); var g := s.core.storage[c.task].gen;
      !HasValid(s'.core, c.task) &&
      Retirements(s'.core.log, g) == Retirements(s.core.log, g) + 1 &&
      Completions(s'.core.log, g) == Completions(s.core.log, g)
  {
    TeardownCore(s, freed, c.task, freed, true, disarmOk);
    ThenCounts(s.core.log, Retired(s.core.storage[c.task].gen));
  }

  /** Exactly when the current task keeps its record across a free step: when the step returns
      early. */
  lemma FreeSparesCurrentRecordIff(s: State, c: Ctx, freed: int, disarmOk: bool)
    requires HasValid(s.core, c.task)
    ensures HasValid(FreeStep(s, c, freed, disarmOk).core, c.task) <==> freed == 0 || !IsTracked(s.filter, freed, freed)
  {
    if freed != 0 && IsTracked(s.filter, freed, freed) { FreeDropsCurrentRecord(s, c, freed, disarmOk); }
  }
}
