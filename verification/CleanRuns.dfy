/** Clean runs are clean: when the environment behaves, no exit is counted as an orphan or a
    mismatch, over any number of tasks and any interleaving. */
module CleanRuns {
  import opened Abi
  import opened PendingCore
  import opened Protocol
  import opened Steps
  import opened Generations
  import opened Chains
  import opened Handoff

  /** What the environment knows about a task that is inside a system call: the raw edge it
      entered by, whether that edge got past the dispatcher's filters, and whether the exec
      step has run since. */
  datatype Inside = Inside(id: int, pid: int, tid: int, reached: bool, execed: bool)

  type Phases = map<Task, Inside>

  /** The environment's side of the contract.
      - Raw edges of a task alternate, with equal ids, on the native ABI, under one identity
        unless an exec step changed it in between.
      - The routed enter program saves for its id and storage can be obtained; a terminating
        call never returns.
      - The dispatcher decides alike on both edges (filters, tracking and PRE_EXEC did not
        change in between as far as this call is concerned).
      - An exec step happens inside execve and then the call returns 0. A non-leader thread
        takes it under its leader's identity, and finds its tracking there or by its old tid.
      - A new task's first edge is the return of the call that created it, with value 0.
      - The free step does not run on top of a task that has a record to lose.
      Forks, signals, KVM exits, recvmsg returns and exits of tasks may happen anywhere. */
  ghost predicate Behaves(s: State, ph: Phases, l: Label) {
    match l
    case Enter(c, id, _, ei) =>
      && c.task !in ph && id >= 0 && ei.native
      && (ReachesEnter(s, c, id, ei) && !IsTerminating(id) ==>
            LeavesRecord(c, id, ei) && CanSave(s, c.task, ei.saveOk))
    case Exit(c, id, ret, xi) =>
      && xi.native
      && (c.task !in ph ==> c.task !in s.core.storage && IsCreation(id) && ret == 0)
      && (c.task in ph ==>
            var i := ph[c.task];
            && id == i.id && c.pid == i.pid && c.tid == i.tid && !IsTerminating(id)
            && ReachesExit(s, c, id, xi) == i.reached
            && (i.execed ==> ret == 0))
    case ExecDone(c, oldTid, adoptOk, _, _) =>
      && c.task in ph && IsExec(ph[c.task].id) && c.pid == ph[c.task].pid
      && (c.tid == ph[c.task].tid ||
          (c.tid == c.pid && (ph[c.task].reached ==> Adopt(s, c, oldTid, adoptOk).1)))
    case Free(c, _, _) => c.task !in ph || !ph[c.task].reached
    case _ => true
  }

  ghost function NextPhases(s: State, ph: Phases, l: Label): Phases {
    match l
    case Enter(c, id, _, ei) => ph[c.task := Inside(id, c.pid, c.tid, ReachesEnter(s, c, id, ei), false)]
    case Exit(c, _, _, _) => ph - {c.task}
    case ExecDone(c, _, _, _, _) => if c.task in ph then ph[c.task := ph[c.task].(tid := c.tid, execed := true)] else ph
    case TaskExit(c, _, _, _) => ph - {c.task}
    case _ => ph
  }

  /** The record of a task inside a dispatched call is that call's own; it can be gone only
      because the exec step or the recvmsg return probe has already completed it. */
  ghost predicate Ready(k: Core, task: Task, i: Inside) {
    && (i.execed ==> IsExec(i.id))
    && (i.reached && !IsTerminating(i.id) ==>
          if HasValid(k, task) then k.storage[task].call.sysId == i.id && k.storage[task].call.tid == i.tid
          else i.execed || i.id == SYS_RECVMSG)
  }

  ghost predicate AllReady(s: State, ph: Phases) {
    forall task :: task in ph ==> Ready(s.core, task, ph[task])
  }

  lemma ReadyDependsOnRecord(k: Core, k': Core, task: Task, i: Inside)
    requires Recorded(k', task) == Recorded(k, task)
    ensures Ready(k', task, i) == Ready(k, task, i)
  {
  }

  /** The task that takes the step is ready afterwards, if it is still inside a call. */
  lemma ActorReady(s: State, ph: Phases, l: Label)
    requires AllReady(s, ph) && Behaves(s, ph, l) && l.c.task in NextPhases(s, ph, l)
    ensures Ready(Step(s, l).core, l.c.task, NextPhases(s, ph, l)[l.c.task])
  {
    match l
    case Enter(c, id, args, ei) =>
      if ReachesEnter(s, c, id, ei) && !IsTerminating(id) { EnterLeavesOneRecord(s, c, id, args, ei); }
    case Exit(c, id, ret, xi) => assert false;
    case Fork(c, child, preOk, installOk, unknownOk) =>
      ForkKeepsRecord(s, c, child, preOk, installOk, unknownOk);
      ReadyDependsOnRecord(s.core, Step(s, l).core, c.task, ph[c.task]);
    case ExecDone(c, oldTid, adoptOk, clearOk, disarmOk) =>
      ExecReady(s, c, oldTid, adoptOk, clearOk, disarmOk, ph[c.task]);
    case TaskExit(c, code, markOk, disarmOk) => assert false;
    case Free(c, freed, disarmOk) => assert Ready(s.core, c.task, ph[c.task]);
    case Kvm(c, reason, error) => KvmReady(s, c, reason, error, ph[c.task]);
    case RecvmsgReturn(c, ret, tails) => RecvmsgReady(s, c, ret, tails, ph[c.task]);
  }

  lemma ExecReady(s: State, c: Ctx, oldTid: int, adoptOk: bool, clearOk: bool, disarmOk: bool, i: Inside)
    requires Ready(s.core, c.task, i) && IsExec(i.id)
    requires c.tid == i.tid || (i.reached ==> Adopt(s, c, oldTid, adoptOk).1)
    ensures Ready(ExecStep(s, c, oldTid, adoptOk, clearOk, disarmOk).core, c.task, i.(tid := c.tid, execed := true))
  {
    EnterExecCore(s, c, oldTid, adoptOk, clearOk, disarmOk);
  }

  lemma KvmReady(s: State, c: Ctx, reason: int, error: int, i: Inside)
    requires Ready(s.core, c.task, i)
    ensures Ready(KvmStep(s, c, reason, error).core, c.task, i)
  {
  }

  lemma ForkKeepsRecord(s: State, c: Ctx, child: int, preOk: bool, installOk: bool, unknownOk: bool)
    ensures Recorded(ForkStep(s, c, child, preOk, installOk, unknownOk).core, c.task) == Recorded(s.core, c.task)
  {
    var followed := FollowChild(ArmChild(s, c, child, preOk), c, child, installOk);
    assert followed.core == s.core;
  }

  lemma RecvmsgReady(s: State, c: Ctx, ret: int, tails: set<Slot>, i: Inside)
    requires Ready(s.core, c.task, i)
    ensures Ready(RecvmsgStep(s, c, ret, tails).core, c.task, i)
  {
  }

  lemma BehavedStepReady(s: State, ph: Phases, l: Label)
    requires AllReady(s, ph) && Behaves(s, ph, l)
    ensures AllReady(Step(s, l), NextPhases(s, ph, l))
  {
    var next := NextPhases(s, ph, l);
    forall task | task in next ensures Ready(Step(s, l).core, task, next[task]) {
      if task == l.c.task {
        ActorReady(s, ph, l);
      } else {
        OthersKeepRecord(s, l, task);
        ReadyDependsOnRecord(s.core, Step(s, l).core, task, ph[task]);
      }
    }
  }

  /** A raw exit of a well-behaved task is neither a mismatch nor, unless it is recvmsg's, an
      orphan. */
  lemma BehavedExitIsClean(s: State, ph: Phases, c: Ctx, id: int, ret: int, xi: ExitInput)
    requires AllReady(s, ph) && Behaves(s, ph, Exit(c, id, ret, xi))
    ensures ExitStep(s, c, id, ret, xi).mismatches == s.mismatches
    ensures id != SYS_RECVMSG ==> ExitStep(s, c, id, ret, xi).orphans == s.orphans
    ensures ExitStep(s, c, id, ret, xi).orphans <= s.orphans + 1
  {
    if ReachesExit(s, c, id, xi) {
      ExitRunsProgram(s, c, id, ret, xi);
      var noted := ForgetForkFlags(s, c, id);
      if HasValid(s.core, c.task) {
        assert Owns(noted, c, id, ret);
        OwnedExitIsClean(noted, c, ExitProgram(c, id, xi), id, ret, xi);
      } else {
        UnmatchedExit(noted, c, ExitProgram(c, id, xi), id, ret, xi);
        assert id != SYS_RECVMSG ==> IsExpectedUnmatched(id, ret);
      }
    } else {
      FilteredExit(s, c, id, ret, xi);
    }
  }

  lemma OwnedExitIsClean(s: State, c: Ctx, prog: ExitProg, id: int, ret: int, xi: ExitInput)
    requires Owns(s, c, id, ret)
    ensures RunExit(s, c, prog, id, ret, xi).mismatches == s.mismatches
    ensures RunExit(s, c, prog, id, ret, xi).orphans == s.orphans
  {
  }

  lemma UnmatchedExit(s: State, c: Ctx, prog: ExitProg, id: int, ret: int, xi: ExitInput)
    requires !HasValid(s.core, c.task)
    ensures RunExit(s, c, prog, id, ret, xi) == s || RunExit(s, c, prog, id, ret, xi) == Unmatched(s, c, id, ret)
  {
  }

  lemma FilteredExit(s: State, c: Ctx, id: int, ret: int, xi: ExitInput)
    requires !ReachesExit(s, c, id, xi) && xi.native
    ensures ExitStep(s, c, id, ret, xi) == s || ExitStep(s, c, id, ret, xi) == ForgetForkFlags(s, c, id)
  {
  }

  lemma OtherStepsCountNothing(s: State, l: Label)
    requires !l.Exit?
    ensures Step(s, l).orphans == s.orphans && Step(s, l).mismatches == s.mismatches
  {
    match l
    case Enter(c, id, args, ei) => assert SameCounts(s, EnterStep(s, c, id, args, ei));
    case Exit(c, id, ret, xi) => assert false;
    case Fork(c, child, preOk, installOk, unknownOk) => ForkCountsNothing(s, c, child, preOk, installOk, unknownOk);
    case ExecDone(c, oldTid, adoptOk, clearOk, disarmOk) => ExecCountsNothing(s, c, oldTid, adoptOk, clearOk, disarmOk);
    case TaskExit(c, code, markOk, disarmOk) => TaskExitCountsNothing(s, c, code, markOk, disarmOk);
    case Free(c, freed, disarmOk) =>
    case Kvm(c, reason, error) =>
    case RecvmsgReturn(c, ret, tails) =>
  }

  lemma ForkCountsNothing(s: State, c: Ctx, child: int, preOk: bool, installOk: bool, unknownOk: bool)
    ensures var r := ForkStep(s, c, child, preOk, installOk, unknownOk);
      r.orphans == s.orphans && r.mismatches == s.mismatches
  {
  }

  lemma ExecCountsNothing(s: State, c: Ctx, oldTid: int, adoptOk: bool, clearOk: bool, disarmOk: bool)
    ensures var r := ExecStep(s, c, oldTid, adoptOk, clearOk, disarmOk);
      r.orphans == s.orphans && r.mismatches == s.mismatches
  {
    var entered := LeavePreExec(Adopt(s, c, oldTid, adoptOk).0, c.tid, clearOk, disarmOk);
    assert entered.orphans == s.orphans && entered.mismatches == s.mismatches;
    assert ExecCompletion(entered, c).orphans == s.orphans;
  }

  lemma TaskExitCountsNothing(s: State, c: Ctx, code: int, markOk: bool, disarmOk: bool)
    ensures var r := TaskExitStep(s, c, code, markOk, disarmOk); r.orphans == s.orphans && r.mismatches == s.mismatches
  {
    var marked := MarkExited(TakeUnknown(s, c), c.tid, markOk);
    assert marked.orphans == s.orphans && marked.mismatches == s.mismatches;
  }

  // ----- whole runs ----------------------------------------------------------------------

  ghost predicate Behaved(s: State, ph: Phases, labels: seq<Label>)
    decreases |labels|
  {
    labels == [] ||
    (Behaves(s, ph, labels[0]) && Behaved(Step(s, labels[0]), NextPhases(s, ph, labels[0]), labels[1..]))
  }

  ghost function RecvmsgExits(labels: seq<Label>): nat {
    if labels == [] then 0
    else (if labels[0].Exit? && labels[0].id == SYS_RECVMSG then 1 else 0) + RecvmsgExits(labels[1..])
  }

  /** In every behaved run no exit is a mismatch, and only recvmsg exits (whose record the
      return probe may already have completed) can be orphans. */
  lemma {:induction false} CleanRunIsClean(s: State, ph: Phases, labels: seq<Label>)
    requires AllReady(s, ph) && Behaved(s, ph, labels)
    ensures Run(s, labels).mismatches == s.mismatches
    ensures s.orphans <= Run(s, labels).orphans <= s.orphans + RecvmsgExits(labels)
    decreases |labels|
  {
    if labels != [] {
      var l := labels[0];
      BehavedStepReady(s, ph, l);
      if l.Exit? {
        BehavedExitIsClean(s, ph, l.c, l.id, l.ret, l.xi);
        OrphansOnlyGrow(s, l.c, l.id, l.ret, l.xi);
      } else {
        OtherStepsCountNothing(s, l);
      }
      CleanRunIsClean(Step(s, l), NextPhases(s, ph, l), labels[1..]);
    }
  }

  lemma RunExitOrphans(s: State, c: Ctx, prog: ExitProg, id: int, ret: int, xi: ExitInput)
    ensures s.orphans <= RunExit(s, c, prog, id, ret, xi).orphans
  {
    hide CompleteAfter, Complete, Clear, CountsAsOrphan, Matches, ExitFragments, KvmReason, SkipsAll, SkipsMatched;
  }

  lemma OrphansOnlyGrow(s: State, c: Ctx, id: int, ret: int, xi: ExitInput)
    ensures s.orphans <= ExitStep(s, c, id, ret, xi).orphans
  {
    hide RunExit, Clear, TaskFlags, Dispatched;
    var noted := if id == SYS_CLONE || id == SYS_CLONE3 then s.(forkFlags := s.forkFlags - {c.tid}) else s;
    RunExitOrphans(noted, c, Plain, id, ret, xi);
    if id in c.env.exitRoutes { RunExitOrphans(noted, c, c.env.exitRoutes[id], id, ret, xi); }
  }
}
