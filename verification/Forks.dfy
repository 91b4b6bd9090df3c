/** Process creation: the fork event carries the flags of the clone call it belongs to, and a
    child that is not followed is announced to its tracer exactly once. */
module Forks {
  import opened Abi
  import opened PendingCore
  import opened Protocol
  import opened Steps
  import opened Generations

  // ----- clone flags ---------------------------------------------------------------------

  /** The step belongs to another thread, and does not free this one. */
  predicate Elsewhere(l: Label, tid: int) { l.c.tid != tid && (l.Free? ==> l.freed != tid) }

  function FlagsOf(s: State, tid: int): Option<int> { if tid in s.forkFlags then Some(s.forkFlags[tid]) else None }

  lemma RunEnterFlags(s: State, c: Ctx, prog: EnterProg, id: int, args: seq<int>, ei: EnterInput)
    ensures RunEnter(s, c, prog, id, args, ei).forkFlags == s.forkFlags
  {
    hide EmitAndSave, EmitChain, EnterChain, EnterPaths, BpfEnter;
  }

  lemma RunExitFlags(s: State, c: Ctx, prog: ExitProg, id: int, ret: int, xi: ExitInput)
    ensures RunExit(s, c, prog, id, ret, xi).forkFlags == s.forkFlags
  {
    hide CompleteAfter, Complete, Clear, CountsAsOrphan, Matches, ExitFragments, KvmReason, SkipsAll, SkipsMatched;
  }

  lemma EnterFlags(s: State, c: Ctx, id: int, args: seq<int>, ei: EnterInput, tid: int)
    requires c.tid != tid
    ensures FlagsOf(EnterStep(s, c, id, args, ei), tid) == FlagsOf(s, tid)
  {
    hide RunEnter, Clear, TaskFlags, Dispatched, IsSuppressed;
    var noted := CaptureForkFlags(ArmExec(s, c, id, ei.armOk), c, id, args, ei);
    if id in c.env.enterRoutes { RunEnterFlags(noted, c, c.env.enterRoutes[id], id, args, ei); }
  }

  lemma ExitFlags(s: State, c: Ctx, id: int, ret: int, xi: ExitInput, tid: int)
    requires c.tid != tid
    ensures FlagsOf(ExitStep(s, c, id, ret, xi), tid) == FlagsOf(s, tid)
  {
    hide RunExit, Clear, TaskFlags, Dispatched, IsSuppressed;
    var noted := ForgetForkFlags(s, c, id);
    RunExitFlags(noted, c, Plain, id, ret, xi);
    if id in c.env.exitRoutes { RunExitFlags(noted, c, c.env.exitRoutes[id], id, ret, xi); }
  }

  lemma TeardownFlags(s: State, current: Task, pid: int, tid: int, disarmOk: bool)
    ensures Teardown(s, current, pid, tid, disarmOk).forkFlags == s.forkFlags - {tid}
  {
    hide Clear;
  }

  lemma LifecycleFlags(s: State, l: Label, tid: int)
    requires Elsewhere(l, tid) && !l.Enter? && !l.Exit?
    ensures FlagsOf(Step(s, l), tid) == FlagsOf(s, tid)
  {
    hide Clear, Complete, TaskFlags, HasPreExec, Teardown, ForkStep, ExecStep;
    match l
    case Fork(c, child, preOk, installOk, unknownOk) => ForkKeepsFlags(s, c, child, preOk, installOk, unknownOk);
    case ExecDone(c, oldTid, adoptOk, clearOk, disarmOk) => ExecKeepsFlags(s, c, oldTid, adoptOk, clearOk, disarmOk);
    case TaskExit(c, code, markOk, disarmOk) =>
      TeardownFlags(MarkExited(TakeUnknown(s, c), c.tid, markOk), c.task, c.pid, c.tid, disarmOk);
    case Free(c, freed, disarmOk) => TeardownFlags(s, c.task, freed, freed, disarmOk);
    case Kvm(_, _, _) =>
    case RecvmsgReturn(_, _, _) =>
  }

  lemma ForkKeepsFlags(s: State, c: Ctx, child: int, preOk: bool, installOk: bool, unknownOk: bool)
    ensures ForkStep(s, c, child, preOk, installOk, unknownOk).forkFlags == s.forkFlags
  {
    hide ArmChild, FollowChild, TaskFlags, HasBit;
  }

  lemma AdoptKeepsFlags(s: State, c: Ctx, oldTid: int, ok: bool)
    ensures Adopt(s, c, oldTid, ok).0.forkFlags == s.forkFlags
  {
  }

  lemma CompletionKeepsFlags(s: State, c: Ctx)
    ensures ExecCompletion(s, c).forkFlags == s.forkFlags
  {
    hide Complete;
  }

  lemma ExecKeepsFlags(s: State, c: Ctx, oldTid: int, adoptOk: bool, clearOk: bool, disarmOk: bool)
    ensures ExecStep(s, c, oldTid, adoptOk, clearOk, disarmOk).forkFlags == s.forkFlags
  {
    hide LeavePreExec, TaskFlags, Complete, Adopt, ExecCompletion;
    assert Adopt(s, c, oldTid, adoptOk).0.forkFlags == s.forkFlags by { AdoptKeepsFlags(s, c, oldTid, adoptOk); }
    CompletionKeepsFlags(LeavePreExec(Adopt(s, c, oldTid, adoptOk).0, c.tid, clearOk, disarmOk), c);
  }

  lemma {:induction false} OthersKeepFlags(s: State, labels: seq<Label>, tid: int)
    requires forall l :: l in labels ==> Elsewhere(l, tid)
    ensures FlagsOf(Run(s, labels), tid) == FlagsOf(s, tid)
    decreases |labels|
  {
    hide Step;
    if labels != [] {
      var l := labels[0];
      assert l in labels;
      assert FlagsOf(Step(s, l), tid) == FlagsOf(s, tid) by { StepKeepsFlags(s, l, tid); }
      OthersKeepFlags(Step(s, l), labels[1..], tid);
    }
  }

  lemma StepKeepsFlags(s: State, l: Label, tid: int)
    requires Elsewhere(l, tid)
    ensures FlagsOf(Step(s, l), tid) == FlagsOf(s, tid)
  {
    hide EnterStep, ExitStep, FlagsOf;
    if l.Enter? {
      EnterFlags(s, l.c, l.id, l.args, l.ei, tid);
    } else if l.Exit? {
      ExitFlags(s, l.c, l.id, l.ret, l.xi, tid);
    } else {
      LifecycleFlags(s, l, tid);
    }
  }

  predicate Reported(h: History, e: Effect) {
    match h
    case Start => false
    case Then(before, last) => last == e || Reported(before, e)
  }

  /** The call is a clone with these flags: the first argument of clone, or the first word of the
      structure clone3 is given, if there is one and it can be read. */
  predicate ClonesWith(id: int, args: seq<int>, ei: EnterInput, flags: int) {
    || (id == SYS_CLONE && |args| > 0 && args[0] == flags)
    || (id == SYS_CLONE3 && |args| > 0 && args[0] != 0 && ei.clone3Flags == Some(flags))
  }

  /** No other call leaves clone flags, nor a clone3 whose structure is missing or unreadable. */
  lemma OnlyClonesLeaveFlags(s: State, c: Ctx, id: int, args: seq<int>, ei: EnterInput)
    requires |args| == 6 && id != SYS_CLONE && !(id == SYS_CLONE3 && args[0] != 0 && ei.clone3Flags.Some?)
    ensures EnterStep(s, c, id, args, ei).forkFlags == s.forkFlags
  {
    hide RunEnter, Clear, TaskFlags, Dispatched, IsSuppressed;
    var noted := CaptureForkFlags(ArmExec(s, c, id, ei.armOk), c, id, args, ei);
    if id in c.env.enterRoutes { RunEnterFlags(noted, c, c.env.enterRoutes[id], id, args, ei); }
  }

  /** A tracked, unsuppressed thread calls clone; other threads do anything; the fork happens.
      The fork event names the flags of that very call, and they decide, both ways, whether an
      unfollowed child is remembered as unknown. */
  lemma ForkCarriesItsFlags(
      s: State, c: Ctx, id: int, args: seq<int>, flags: int, ei: EnterInput, between: seq<Label>,
      cf: Ctx, child: int, preOk: bool, installOk: bool, unknownOk: bool)
    requires ei.native && ei.forkOk && ClonesWith(id, args, ei, flags)
    requires TaskFlags(s.filter, c.pid, c.tid).Some? && !IsSuppressed(TaskFlags(s.filter, c.pid, c.tid).value, id)
    requires forall l :: l in between ==> Elsewhere(l, c.tid)
    requires cf.tid == c.tid
    requires var waited := Run(EnterStep(s, c, id, args, ei), between); IsTracked(waited.filter, cf.pid, cf.tid)
    ensures
      var waited := Run(EnterStep(s, c, id, args, ei), between);
      var done := ForkStep(waited, cf, child, preOk, installOk, unknownOk);
      && (cf.env.cfg.emitLifecycle ==>
          Reported(done.core.log, Lifecycle(ForkEvent, cf.pid, cf.tid, ForkIdentity(flags, cf.pid), child)))
      && done.unknownChildren ==
           if !cf.env.cfg.followForks && HasBit(flags, CLONE_PARENT_BIT) && unknownOk
           then waited.unknownChildren[child := cf.pid]
           else waited.unknownChildren
  {
    var entered := EnterStep(s, c, id, args, ei);
    EnterNotesFlags(s, c, id, args, ei);
    OthersKeepFlags(entered, between, c.tid);
    var waited := Run(entered, between);
    assert ParentForkFlags(waited, cf) == flags;
    hide Run, EnterStep;
    ForkReports(waited, cf, child, preOk, installOk, unknownOk);
    ForkRemembersExactly(waited, cf, child, preOk, installOk, unknownOk);
  }

  lemma EnterNotesFlags(s: State, c: Ctx, id: int, args: seq<int>, ei: EnterInput)
    requires ei.native && ei.forkOk && EnterForkFlags(id, args, ei).Some?
    requires TaskFlags(s.filter, c.pid, c.tid).Some? && !IsSuppressed(TaskFlags(s.filter, c.pid, c.tid).value, id)
    ensures FlagsOf(EnterStep(s, c, id, args, ei), c.tid) == EnterForkFlags(id, args, ei)
  {
    hide RunEnter, Clear, TaskFlags, Dispatched, IsSuppressed;
    var noted := CaptureForkFlags(ArmExec(s, c, id, ei.armOk), c, id, args, ei);
    if id in c.env.enterRoutes { RunEnterFlags(noted, c, c.env.enterRoutes[id], id, args, ei); }
  }

  lemma ForkReports(s: State, c: Ctx, child: int, preOk: bool, installOk: bool, unknownOk: bool)
    requires IsTracked(s.filter, c.pid, c.tid)
    ensures var flags := ParentForkFlags(s, c); var done := ForkStep(s, c, child, preOk, installOk, unknownOk);
      c.env.cfg.emitLifecycle ==>
        Reported(done.core.log, Lifecycle(ForkEvent, c.pid, c.tid, ForkIdentity(flags, c.pid), child))
  {
    hide HasBit;
    ArmKeepsTracking(s, c, child, preOk);
    hide ArmChild, FollowChild, TaskFlags;
    var followed := FollowChild(ArmChild(s, c, child, preOk), c, child, installOk);
    var e := Lifecycle(ForkEvent, c.pid, c.tid, ForkIdentity(ParentForkFlags(s, c), c.pid), child);
    assert c.env.cfg.emitLifecycle ==> Reported(Then(followed.core.log, e), e);
  }

  lemma ForkRemembersExactly(s: State, c: Ctx, child: int, preOk: bool, installOk: bool, unknownOk: bool)
    requires IsTracked(s.filter, c.pid, c.tid)
    ensures var flags := ParentForkFlags(s, c); var done := ForkStep(s, c, child, preOk, installOk, unknownOk);
      done.unknownChildren ==
        if !c.env.cfg.followForks && HasBit(flags, CLONE_PARENT_BIT) && unknownOk then s.unknownChildren[child := c.pid]
        else s.unknownChildren
  {
    hide HasBit;
    ArmKeepsTracking(s, c, child, preOk);
    hide ArmChild, FollowChild, TaskFlags;
  }

  lemma ArmKeepsTracking(s: State, c: Ctx, child: int, ok: bool)
    requires IsTracked(s.filter, c.pid, c.tid)
    ensures IsTracked(ArmChild(s, c, child, ok).filter, c.pid, c.tid)
  {
  }

  /** The identity word of a fork event holds the clone flags above the parent's pid. */
  lemma ForkIdentityHolds(flags: int, pid: int)
    requires 0 <= pid < 0x1_0000_0000
    ensures ForkIdentity(flags, pid) % 0x1_0000_0000 == pid
    ensures ForkIdentity(flags, pid) / 0x1_0000_0000 == flags % 0x1_0000_0000
  {
  }

  /** The two clone bits are read off the flags at their own place: whatever is above and below
      does not matter. */
  lemma CloneBits(high: int, on: bool, low: int)
    ensures 0 <= low < 0x2000 ==> HasBit(high * 0x4000 + (if on then 0x2000 else 0) + low, CLONE_PTRACE_BIT) == on
    ensures 0 <= low < 0x8000 ==> HasBit(high * 0x1_0000 + (if on then 0x8000 else 0) + low, CLONE_PARENT_BIT) == on
  {
  }

  /** A child that is not followed is announced as detached exactly when it was cloned traced. */
  lemma DetachIsAnnounced(s: State, c: Ctx, child: int, preOk: bool, installOk: bool, unknownOk: bool)
    requires IsTracked(s.filter, c.pid, c.tid) && c.env.cfg.emitLifecycle
    requires !Reported(s.core.log, Lifecycle(UnknownDetach, c.pid, c.tid, child, 0))
    ensures Reported(ForkStep(s, c, child, preOk, installOk, unknownOk).core.log,
                     Lifecycle(UnknownDetach, c.pid, c.tid, child, 0)) <==>
      !c.env.cfg.followForks && HasBit(ParentForkFlags(s, c), CLONE_PTRACE_BIT)
  {
    hide HasBit;
    ArmKeepsTracking(s, c, child, preOk);
    hide ArmChild, FollowChild, TaskFlags;
    var followed := FollowChild(ArmChild(s, c, child, preOk), c, child, installOk);
    assert followed.core == s.core;
  }

  /** The exit of a clone forgets the flags of its thread; the exit of anything else does not. */
  lemma CloneExitForgetsFlags(s: State, c: Ctx, id: int, ret: int, xi: ExitInput)
    requires id >= 0 && xi.native
    requires TaskFlags(s.filter, c.pid, c.tid).Some? && !IsSuppressed(TaskFlags(s.filter, c.pid, c.tid).value, id)
    ensures FlagsOf(ExitStep(s, c, id, ret, xi), c.tid) ==
      if id == SYS_CLONE || id == SYS_CLONE3 then None else FlagsOf(s, c.tid)
  {
    hide RunExit, TaskFlags, Dispatched, IsSuppressed;
    var noted := ForgetForkFlags(s, c, id);
    RunExitFlags(noted, c, Plain, id, ret, xi);
    if id in c.env.exitRoutes { RunExitFlags(noted, c, c.env.exitRoutes[id], id, ret, xi); }
  }

  // ----- unknown children ----------------------------------------------------------------

  /** How often the exit of unknown child `child` has been announced. */
  ghost function Announced(h: History, child: int): nat {
    match h
    case Start => 0
    case Then(before, e) => Announced(before, child) + Truth(e.Lifecycle? && e.kind.UnknownExit? && e.arg0 == child)
  }

  predicate NotAnnouncement(
      e: Effect, child: int) { Neutral(e) && !(e.Lifecycle? && e.kind.UnknownExit? && e.arg0 == child) }

  /** Only the child's own exit step announces it. */
  lemma OnlyItsExitAnnounces(s: State, l: Label, child: int)
    requires !(l.TaskExit? && l.c.tid == child)
    ensures Announced(Step(s, l).core.log, child) == Announced(s.core.log, child)
  {
    var n := Announced(s.core.log, child);
    var P := (k: Core) => Announced(k.log, child) == n;
    var m := Moves(l.c.task, (e: Effect) => NotAnnouncement(e, child), AnyCall, AnyReturn);
    forall k, call | P(k) ensures P(Save(k, m.who, call)) {
      if HasValid(k, m.who) { assert Announced(Then(k.log, Overwritten(k.storage[m.who].gen)), child) == n; }
    }
    forall k, ret, kvm | P(k) && HasValid(k, m.who) ensures P(Complete(k, m.who, ret, kvm)) {
      assert Announced(Then(k.log, ExitEvent(k.storage[m.who].gen, k.storage[m.who].call, ret, kvm)), child) == n;
    }
    forall k, reason, error | P(k) && HasValid(k, m.who) ensures P(Observe(k, m.who, reason, error)) {
      assert Announced(Then(k.log, KvmSeen(k.storage[m.who].gen, reason, error)), child) == n;
    }
    StepKeeps(P, m, s, l);
  }

  lemma TeardownUnknown(s: State, current: Task, pid: int, tid: int, disarmOk: bool)
    ensures Teardown(s, current, pid, tid, disarmOk).unknownChildren == s.unknownChildren - {tid}
  {
    hide Clear;
  }

  lemma ExitForgets(s: State, c: Ctx, code: int, markOk: bool, disarmOk: bool)
    ensures TaskExitStep(s, c, code, markOk, disarmOk).unknownChildren == s.unknownChildren - {c.tid}
  {
    hide Clear, Teardown, TaskFlags, MarkExited;
    TeardownUnknown(MarkExited(TakeUnknown(s, c), c.tid, markOk), c.task, c.pid, c.tid, disarmOk);
  }

  lemma FreeForgets(s: State, c: Ctx, freed: int, disarmOk: bool)
    ensures var s' := FreeStep(s, c, freed, disarmOk);
      s'.unknownChildren == s.unknownChildren || s'.unknownChildren == s.unknownChildren - {freed}
  {
    hide Teardown, TaskFlags;
    TeardownUnknown(s, c.task, freed, freed, disarmOk);
  }

  lemma ForkRemembers(s: State, c: Ctx, child: int, preOk: bool, installOk: bool, unknownOk: bool)
    ensures var s' := ForkStep(s, c, child, preOk, installOk, unknownOk);
      s'.unknownChildren == s.unknownChildren || s'.unknownChildren == s.unknownChildren[child := c.pid]
  {
    hide ArmChild, FollowChild, TaskFlags, HasBit;
  }

  lemma ExecKeepsUnknown(s: State, c: Ctx, oldTid: int, adoptOk: bool, clearOk: bool, disarmOk: bool)
    ensures ExecStep(s, c, oldTid, adoptOk, clearOk, disarmOk).unknownChildren == s.unknownChildren
  {
    hide LeavePreExec, ExecCompletion, TaskFlags;
  }

  /** The child's exit step announces a remembered child with a parent, once, and forgets it. */
  lemma ItsExitAnnounces(s: State, c: Ctx, code: int, markOk: bool, disarmOk: bool)
    ensures var s' := TaskExitStep(s, c, code, markOk, disarmOk);
      && c.tid !in s'.unknownChildren
      && Announced(s'.core.log, c.tid) ==
         Announced(s.core.log, c.tid) +
             Truth(c.tid in s.unknownChildren && s.unknownChildren[c.tid] != 0 && c.env.cfg.emitLifecycle)
      && (c.tid in s.unknownChildren && s.unknownChildren[c.tid] != 0 && c.env.cfg.emitLifecycle ==>
            Reported(s'.core.log, AnnouncementTo(s.unknownChildren[c.tid], c.tid)))
  {
    ExitForgets(s, c, code, markOk, disarmOk);
    hide TaskFlags, Clear, Teardown, MarkExited, TakeUnknown;
    var taken := TakeUnknown(s, c);
    TakeAnnounces(s, c);
    TeardownCore(taken, c.tid, c.task, c.pid, markOk, disarmOk);
    ClearAnnounces(taken.core, c.task, c.tid);
    if c.tid in s.unknownChildren {
      ClearReports(taken.core, c.task, AnnouncementTo(s.unknownChildren[c.tid], c.tid));
    }
  }

  /** The announcement of a child's exit under the identity of its parent. */
  function AnnouncementTo(parent: int, child: int): Effect { Lifecycle(UnknownExit, parent, parent, child, 0) }

  lemma ClearReports(k: Core, task: Task, e: Effect)
    ensures Reported(k.log, e) ==> Reported(Clear(k, task).log, e)
  {
  }

  lemma TakeAnnounces(s: State, c: Ctx)
    ensures Announced(TakeUnknown(s, c).core.log, c.tid) ==
      Announced(s.core.log, c.tid) +
          Truth(c.tid in s.unknownChildren && s.unknownChildren[c.tid] != 0 && c.env.cfg.emitLifecycle)
    ensures c.tid in s.unknownChildren && s.unknownChildren[c.tid] != 0 && c.env.cfg.emitLifecycle ==>
      Reported(TakeUnknown(s, c).core.log, AnnouncementTo(s.unknownChildren[c.tid], c.tid))
  {
  }

  lemma ClearAnnounces(k: Core, task: Task, child: int)
    ensures Announced(Clear(k, task).log, child) == Announced(k.log, child)
  {
  }

  /** A step that may forget the child or remember it anew. */
  predicate Touches(l: Label, child: int) {
    (l.TaskExit? && l.c.tid == child) || (l.Free? && l.freed == child) || (l.Fork? && l.child == child)
  }

  lemma OthersKeepUnknown(s: State, l: Label, child: int)
    requires !Touches(l, child)
    ensures (child in Step(s, l).unknownChildren) == (child in s.unknownChildren)
    ensures child in s.unknownChildren ==> Step(s, l).unknownChildren[child] == s.unknownChildren[child]
  {
    hide EnterStep, ExitStep, RecvmsgStep, ForkStep, ExecStep, TaskExitStep, FreeStep;
    match l
    case Enter(c, id, args, ei) => assert SameTracking(s, EnterStep(s, c, id, args, ei));
    case Exit(c, id, ret, xi) => assert SameTracking(s, ExitStep(s, c, id, ret, xi));
    case RecvmsgReturn(c, ret, tails) => assert SameTracking(s, RecvmsgStep(s, c, ret, tails));
    case Fork(c, other, preOk, installOk, unknownOk) => ForkRemembers(s, c, other, preOk, installOk, unknownOk);
    case ExecDone(c, oldTid, adoptOk, clearOk, disarmOk) => ExecKeepsUnknown(s, c, oldTid, adoptOk, clearOk, disarmOk);
    case TaskExit(c, code, markOk, disarmOk) => ExitForgets(s, c, code, markOk, disarmOk);
    case Free(c, freed, disarmOk) => FreeForgets(s, c, freed, disarmOk);
    case Kvm(_, _, _) =>
  }

  lemma {:induction false} UnknownWaits(s: State, labels: seq<Label>, child: int)
    requires forall l :: l in labels ==> !Touches(l, child)
    ensures (child in Run(s, labels).unknownChildren) == (child in s.unknownChildren)
    ensures child in s.unknownChildren ==> Run(s, labels).unknownChildren[child] == s.unknownChildren[child]
    ensures Announced(Run(s, labels).core.log, child) == Announced(s.core.log, child)
    decreases |labels|
  {
    hide Step, Announced;
    if labels != [] {
      assert labels[0] in labels;
      OthersKeepUnknown(s, labels[0], child);
      OnlyItsExitAnnounces(s, labels[0], child);
      UnknownWaits(Step(s, labels[0]), labels[1..], child);
    }
  }

  /** From the moment a child is remembered as unknown, whatever else happens before and after,
      its exit is announced to its parent exactly once, tracked or not. */
  lemma UnknownChildIsAnnouncedOnce(
      s: State, child: int, before: seq<Label>, c: Ctx, code: int, markOk: bool, disarmOk: bool, after: seq<Label>)
    requires child in s.unknownChildren && s.unknownChildren[child] != 0
    requires c.tid == child && c.env.cfg.emitLifecycle
    requires forall l :: l in before + after ==> !Touches(l, child)
    ensures var exited := TaskExitStep(Run(s, before), c, code, markOk, disarmOk);
      && Announced(Run(exited, after).core.log, child) == Announced(s.core.log, child) + 1
      && Reported(exited.core.log, AnnouncementTo(s.unknownChildren[child], child))
  {
    hide Run, TaskExitStep, Touches;
    forall l | l in before ensures !Touches(l, child) { assert l in before + after; }
    forall l | l in after ensures !Touches(l, child) { assert l in before + after; }
    UnknownWaits(s, before, child);
    ItsExitAnnounces(Run(s, before), c, code, markOk, disarmOk);
    UnknownWaits(TaskExitStep(Run(s, before), c, code, markOk, disarmOk), after, child);
  }

  /** How many forks of the run created this tid. */
  ghost function Births(labels: seq<Label>, child: int): nat {
    if labels == [] then 0 else Truth(labels[0].Fork? && labels[0].child == child) + Births(labels[1..], child)
  }

  lemma StepAnnounces(s: State, l: Label, child: int)
    ensures
      Announced(Step(s, l).core.log, child) + Truth(child in Step(s, l).unknownChildren) <=
      Announced(s.core.log, child) + Truth(child in s.unknownChildren) + Truth(l.Fork? && l.child == child)
  {
    hide Announced, EnterStep, ExitStep, RecvmsgStep, ForkStep, ExecStep, TaskExitStep, FreeStep, KvmStep;
    if l.TaskExit? && l.c.tid == child {
      ItsExitAnnounces(s, l.c, l.code, l.markOk, l.disarmOk);
    } else {
      OnlyItsExitAnnounces(s, l, child);
      if !Touches(l, child) {
        OthersKeepUnknown(s, l, child);
      } else if l.Free? {
        FreeForgets(s, l.c, l.freed, l.disarmOk);
      }
    }
  }

  /** In every run the announcements of a tid, and the one still owed, are at most as many as
      the forks that created it. */
  lemma {:induction false} EveryAnnouncementHasItsFork(s: State, labels: seq<Label>, child: int)
    ensures
      Announced(Run(s, labels).core.log, child) + Truth(child in Run(s, labels).unknownChildren) <=
      Announced(s.core.log, child) + Truth(child in s.unknownChildren) + Births(labels, child)
    decreases |labels|
  {
    hide Step, Announced;
    if labels != [] {
      StepAnnounces(s, labels[0], child);
      EveryAnnouncementHasItsFork(Step(s, labels[0]), labels[1..], child);
    }
  }
}
