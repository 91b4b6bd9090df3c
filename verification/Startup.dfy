/** The startup window: the fork arm, the PRE_EXEC flag and the TRACKED flag over whole runs. */
module Startup {
  import opened Abi
  import opened PendingCore
  import opened Protocol
  import opened Sets

  ghost function PreExecTasks(filter: map<int, Flags>): set<int> {
    set t | t in filter && filter[t].preExec
  }

  ghost predicate AllTracked(filter: map<int, Flags>) {
    forall t :: t in filter ==> filter[t].tracked
  }

  lemma EnterFrame(s: State, c: Ctx, id: int, args: seq<int>, ei: EnterInput)
    ensures EnterStep(s, c, id, args, ei).filter == s.filter && EnterStep(s, c, id, args, ei).arm == s.arm
  {
  }

  lemma ExitFrame(s: State, c: Ctx, id: int, ret: int, xi: ExitInput)
    ensures ExitStep(s, c, id, ret, xi).filter == s.filter && ExitStep(s, c, id, ret, xi).arm == s.arm
  {
  }

  lemma RecvmsgFrame(s: State, c: Ctx, ret: int, tails: set<Slot>)
    ensures RecvmsgStep(s, c, ret, tails).filter == s.filter && RecvmsgStep(s, c, ret, tails).arm == s.arm
  {
  }

  lemma ForkFrame(s: State, c: Ctx, child: int, preOk: bool, installOk: bool, unknownOk: bool)
    ensures var s' := ForkStep(s, c, child, preOk, installOk, unknownOk);
      && s'.arm == s.arm
      && (s'.filter == s.filter ||
          (child in s'.filter && s'.filter[child].tracked && s'.filter == s.filter[child := s'.filter[child]]))
      && (HasPreExec(s'.filter, child) ==> HasPreExec(s.filter, child) || (s.arm != 0 && s.arm == c.pid))
      && (HasPreExec(s.filter, child) ==> HasPreExec(s'.filter, child))
  {
    hide ReportUnfollowed, LogLifecycle, TaskFlags;
    var armed := ArmChild(s, c, child, preOk);
    var followed := FollowChild(armed, c, child, installOk);
    assert ForkStep(s, c, child, preOk, installOk, unknownOk).filter == followed.filter ||
           ForkStep(s, c, child, preOk, installOk, unknownOk).filter == armed.filter;
  }

  /** The filter and the arm after an exec step, in two moves. */
  lemma ExecFrame(s: State, c: Ctx, oldTid: int, adoptOk: bool, clearOk: bool, disarmOk: bool)
    ensures var s' := ExecStep(s, c, oldTid, adoptOk, clearOk, disarmOk);
      var adopted := Adopt(s, c, oldTid, adoptOk);
      var left := LeavePreExec(adopted.0, c.tid, clearOk, disarmOk);
      s'.filter == (if adopted.1 then left.filter else adopted.0.filter) &&
      s'.arm == (if adopted.1 then left.arm else adopted.0.arm)
  {
  }

  lemma TaskExitFrame(s: State, c: Ctx, code: int, markOk: bool, disarmOk: bool)
    ensures var s' := TaskExitStep(s, c, code, markOk, disarmOk);
      && (s'.filter == s.filter || s'.filter == s.filter - {c.tid})
      && (s'.arm == s.arm || (s'.arm == 0 && s.arm == c.pid && c.tid == c.pid))
  {
    var taken := TakeUnknown(s, c);
    assert taken.filter == s.filter && taken.arm == s.arm;
  }

  lemma FreeFrame(s: State, c: Ctx, freed: int, disarmOk: bool)
    ensures var s' := FreeStep(s, c, freed, disarmOk);
      && (s'.filter == s.filter || s'.filter == s.filter - {freed})
      && (s'.arm == s.arm || (s'.arm == 0 && s.arm == freed))
  {
  }

  lemma AdoptCount(s: State, c: Ctx, oldTid: int, ok: bool)
    ensures |PreExecTasks(Adopt(s, c, oldTid, ok).0.filter)| <= |PreExecTasks(s.filter)|
  {
    var s' := Adopt(s, c, oldTid, ok).0;
    if s'.filter != s.filter {
      var before, after := PreExecTasks(s.filter), PreExecTasks(s'.filter);
      if oldTid in before {
        assert after <= before - {oldTid} + {c.pid};
        SubsetSize(after, before - {oldTid} + {c.pid});
      } else {
        assert after <= before;
        SubsetSize(after, before);
      }
    }
  }

  lemma ShrinkCount(filter: map<int, Flags>, filter': map<int, Flags>)
    requires PreExecTasks(filter') <= PreExecTasks(filter)
    ensures |PreExecTasks(filter')| <= |PreExecTasks(filter)|
  {
    SubsetSize(PreExecTasks(filter'), PreExecTasks(filter));
  }

  lemma LeaveShrinks(s: State, tid: int, clearOk: bool, disarmOk: bool)
    ensures PreExecTasks(LeavePreExec(s, tid, clearOk, disarmOk).filter) <= PreExecTasks(s.filter)
  {
  }

  /** Once the arm is zero it stays zero, and no step adds a PRE_EXEC entry. */
  lemma DisarmedStep(s: State, l: Label)
    requires s.arm == 0
    ensures Step(s, l).arm == 0
    ensures |PreExecTasks(Step(s, l).filter)| <= |PreExecTasks(s.filter)|
  {
    hide EnterStep, ExitStep, ForkStep, ExecStep, TaskExitStep, FreeStep, RecvmsgStep;
    match l
    case Enter(c, id, args, ei) => EnterFrame(s, c, id, args, ei);
    case Exit(c, id, ret, xi) => ExitFrame(s, c, id, ret, xi);
    case Fork(c, child, preOk, installOk, unknownOk) =>
      ForkFrame(s, c, child, preOk, installOk, unknownOk);
      ShrinkCount(s.filter, Step(s, l).filter);
    case ExecDone(c, oldTid, adoptOk, clearOk, disarmOk) =>
      ExecFrame(s, c, oldTid, adoptOk, clearOk, disarmOk);
      AdoptCount(s, c, oldTid, adoptOk);
      var adopted := Adopt(s, c, oldTid, adoptOk).0;
      LeaveShrinks(adopted, c.tid, clearOk, disarmOk);
      ShrinkCount(adopted.filter, LeavePreExec(adopted, c.tid, clearOk, disarmOk).filter);
    case TaskExit(c, code, markOk, disarmOk) =>
      TaskExitFrame(s, c, code, markOk, disarmOk);
      ShrinkCount(s.filter, Step(s, l).filter);
    case Free(c, freed, disarmOk) =>
      FreeFrame(s, c, freed, disarmOk);
      ShrinkCount(s.filter, Step(s, l).filter);
    case Kvm(c, reason, error) =>
    case RecvmsgReturn(c, ret, tails) => RecvmsgFrame(s, c, ret, tails);
  }

  /** After the tracer disarms, the startup window only ever closes. */
  lemma {:induction false} WindowOnlyCloses(s: State, labels: seq<Label>)
    requires s.arm == 0
    ensures Run(s, labels).arm == 0
    ensures |PreExecTasks(Run(s, labels).filter)| <= |PreExecTasks(s.filter)|
    decreases |labels|
  {
    if labels != [] {
      DisarmedStep(s, labels[0]);
      WindowOnlyCloses(Step(s, labels[0]), labels[1..]);
    }
  }

  lemma ExecTracked(s: State, c: Ctx, oldTid: int, adoptOk: bool, clearOk: bool, disarmOk: bool)
    requires AllTracked(s.filter)
    ensures AllTracked(ExecStep(s, c, oldTid, adoptOk, clearOk, disarmOk).filter)
  {
    hide ExecStep, TaskFlags;
    ExecFrame(s, c, oldTid, adoptOk, clearOk, disarmOk);
    assert AllTracked(Adopt(s, c, oldTid, adoptOk).0.filter);
  }

  lemma TrackedStep(s: State, l: Label)
    requires AllTracked(s.filter)
    ensures AllTracked(Step(s, l).filter)
  {
    hide EnterStep, ExitStep, ForkStep, ExecStep, TaskExitStep, FreeStep, RecvmsgStep;
    match l
    case Enter(c, id, args, ei) => EnterFrame(s, c, id, args, ei);
    case Exit(c, id, ret, xi) => ExitFrame(s, c, id, ret, xi);
    case Fork(c, child, preOk, installOk, unknownOk) => ForkFrame(s, c, child, preOk, installOk, unknownOk);
    case ExecDone(c, oldTid, adoptOk, clearOk, disarmOk) => ExecTracked(s, c, oldTid, adoptOk, clearOk, disarmOk);
    case TaskExit(c, code, markOk, disarmOk) => TaskExitFrame(s, c, code, markOk, disarmOk);
    case Free(c, freed, disarmOk) => FreeFrame(s, c, freed, disarmOk);
    case Kvm(c, reason, error) =>
    case RecvmsgReturn(c, ret, tails) => RecvmsgFrame(s, c, ret, tails);
  }

  /** Every filter entry keeps its TRACKED bit in all reachable states. */
  lemma {:induction false} EntriesStayTracked(s: State, labels: seq<Label>)
    requires AllTracked(s.filter)
    ensures AllTracked(Run(s, labels).filter)
    decreases |labels|
  {
    if labels != [] {
      TrackedStep(s, labels[0]);
      EntriesStayTracked(Step(s, labels[0]), labels[1..]);
    }
  }

  /** The task whose exec this is owns PRE_EXEC, by its own entry or the one it adopts. */
  ghost predicate OwnsPreExec(s: State, c: Ctx, oldTid: int) {
    HasPreExec(s.filter, c.tid) || (c.tid == c.pid && HasPreExec(s.filter, oldTid))
  }

  lemma ExecDisarms(s: State, c: Ctx, oldTid: int, adoptOk: bool, clearOk: bool, disarmOk: bool)
    ensures var arm := ExecStep(s, c, oldTid, adoptOk, clearOk, disarmOk).arm;
      arm == s.arm || (arm == 0 && OwnsPreExec(s, c, oldTid))
  {
    hide ExecStep, TaskFlags;
    ExecFrame(s, c, oldTid, adoptOk, clearOk, disarmOk);
  }

  /** The arm is cleared only by an exec that owns PRE_EXEC or by the end of the armed parent;
      an unrelated exec never clears it. */
  lemma ArmClearedByOwner(s: State, l: Label)
    requires Step(s, l).arm != s.arm
    ensures Step(s, l).arm == 0
    ensures
      || (l.ExecDone? && OwnsPreExec(s, l.c, l.oldTid))
      || (l.TaskExit? && l.c.tid == l.c.pid == s.arm)
      || (l.Free? && l.freed == s.arm)
  {
    hide EnterStep, ExitStep, ForkStep, ExecStep, TaskExitStep, FreeStep, RecvmsgStep;
    match l
    case Enter(c, id, args, ei) => EnterFrame(s, c, id, args, ei);
    case Exit(c, id, ret, xi) => ExitFrame(s, c, id, ret, xi);
    case Fork(c, child, preOk, installOk, unknownOk) => ForkFrame(s, c, child, preOk, installOk, unknownOk);
    case ExecDone(c, oldTid, adoptOk, clearOk, disarmOk) => ExecDisarms(s, c, oldTid, adoptOk, clearOk, disarmOk);
    case TaskExit(c, code, markOk, disarmOk) => TaskExitFrame(s, c, code, markOk, disarmOk);
    case Free(c, freed, disarmOk) => FreeFrame(s, c, freed, disarmOk);
    case Kvm(c, reason, error) =>
    case RecvmsgReturn(c, ret, tails) => RecvmsgFrame(s, c, ret, tails);
  }

  lemma ExecKeepsOthers(s: State, c: Ctx, oldTid: int, adoptOk: bool, clearOk: bool, disarmOk: bool, t: int)
    requires AllTracked(s.filter) && HasPreExec(s.filter, t)
    ensures t == c.tid || t == oldTid || HasPreExec(ExecStep(s, c, oldTid, adoptOk, clearOk, disarmOk).filter, t)
  {
    ExecFrame(s, c, oldTid, adoptOk, clearOk, disarmOk);
    assert t == oldTid || HasPreExec(Adopt(s, c, oldTid, adoptOk).0.filter, t);
  }

  /** PRE_EXEC leaves a task only by its exec (where it may move to the group id first) or by
      the cleanup of that task. */
  lemma PreExecLeavesByExecOrCleanup(s: State, l: Label, t: int)
    requires AllTracked(s.filter)
    requires HasPreExec(s.filter, t) && !HasPreExec(Step(s, l).filter, t)
    ensures
      || (l.ExecDone? && (t == l.c.tid || t == l.oldTid))
      || (l.TaskExit? && t == l.c.tid)
      || (l.Free? && t == l.freed)
  {
    match l
    case Enter(c, id, args, ei) => EnterFrame(s, c, id, args, ei);
    case Exit(c, id, ret, xi) => ExitFrame(s, c, id, ret, xi);
    case Fork(c, child, preOk, installOk, unknownOk) => ForkFrame(s, c, child, preOk, installOk, unknownOk);
    case ExecDone(c, oldTid, adoptOk, clearOk, disarmOk) =>
      ExecKeepsOthers(s, c, oldTid, adoptOk, clearOk, disarmOk, t);
    case TaskExit(c, code, markOk, disarmOk) => TaskExitFrame(s, c, code, markOk, disarmOk);
    case Free(c, freed, disarmOk) => FreeFrame(s, c, freed, disarmOk);
    case Kvm(c, reason, error) =>
    case RecvmsgReturn(c, ret, tails) => RecvmsgFrame(s, c, ret, tails);
  }
}
