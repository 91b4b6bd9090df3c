/** Late edges of an attached task: sched_process_exit can run before the task's last raw exit.
    The exit fact recorded for an attach root outlives everything, so that edge is teardown. */
module Attach {
  import opened Abi
  import opened PendingCore
  import opened Protocol

  /** No step forgets an exit fact. */
  lemma ExitFactStays(s: State, l: Label)
    ensures s.attachExited <= Step(s, l).attachExited
  {
    hide EnterStep, ExitStep, RecvmsgStep, Clear, LogLifecycle, TaskFlags, Complete, ReportUnfollowed, LeavePreExec;
    match l
    case Enter(c, id, args, ei) => assert SameTracking(s, EnterStep(s, c, id, args, ei));
    case Exit(c, id, ret, xi) => assert SameTracking(s, ExitStep(s, c, id, ret, xi));
    case RecvmsgReturn(c, ret, tails) => assert SameTracking(s, RecvmsgStep(s, c, ret, tails));
    case _ =>
  }

  lemma {:induction false} ExitFactsStay(s: State, labels: seq<Label>)
    ensures s.attachExited <= Run(s, labels).attachExited
    decreases |labels|
  {
    if labels != [] {
      ExitFactStays(s, labels[0]);
      ExitFactsStay(Step(s, labels[0]), labels[1..]);
    }
  }

  /** The exit step records the fact for a tracked attach root that is no replaced leader. */
  lemma ExitRecordsFact(s: State, c: Ctx, code: int, disarmOk: bool)
    requires IsTracked(s.filter, c.pid, c.tid) && c.tid != 0 && c.tid in s.attachRoots
    requires !IsReplacedLeader(s, c.pid, c.tid)
    ensures c.tid in TaskExitStep(s, c, code, true, disarmOk).attachExited
  {
    hide Clear, LogLifecycle, TaskFlags;
  }

  lemma ExitedCountsNothing(s: State, c: Ctx, prog: ExitProg, id: int, ret: int, xi: ExitInput)
    requires c.tid in s.attachExited
    ensures RunExit(s, c, prog, id, ret, xi).orphans == s.orphans
  {
    hide CompleteAfter, Complete, Clear, Matches, ExitFragments, KvmReason, SkipsAll, SkipsMatched;
  }

  /** Once an attach root has exited, no raw exit of that thread is ever counted as an orphan,
      whatever happens in between. */
  lemma LateEdgeIsTeardown(
      s: State, c: Ctx, code: int, disarmOk: bool, between: seq<Label>, c': Ctx, id: int, ret: int, xi: ExitInput)
    requires IsTracked(s.filter, c.pid, c.tid) && c.tid != 0 && c.tid in s.attachRoots
    requires !IsReplacedLeader(s, c.pid, c.tid)
    requires c'.tid == c.tid
    ensures var waited := Run(TaskExitStep(s, c, code, true, disarmOk), between);
      ExitStep(waited, c', id, ret, xi).orphans == waited.orphans
  {
    hide RunExit, Clear, TaskFlags, Dispatched;
    ExitRecordsFact(s, c, code, disarmOk);
    ExitFactsStay(TaskExitStep(s, c, code, true, disarmOk), between);
    var waited := Run(TaskExitStep(s, c, code, true, disarmOk), between);
    var noted := if id == SYS_CLONE ||
        id == SYS_CLONE3 then waited.(forkFlags := waited.forkFlags - {c'.tid}) else waited;
    ExitedCountsNothing(noted, c', Plain, id, ret, xi);
    if id in c'.env.exitRoutes { ExitedCountsNothing(noted, c', c'.env.exitRoutes[id], id, ret, xi); }
  }
}
