/** An induction principle for runs.

    Every step changes the pending core only through a few moves on the record of the task
    that takes it. A property of the core that those moves keep is therefore kept by every
    step and every run, whatever the interleaving, the routing, the faults and the tail calls
    that fail. */
module Steps {
  import opened Abi
  import opened PendingCore
  import opened Protocol

  /** Effects that end or begin nothing and belong to no generation. */
  predicate Neutral(e: Effect) {
    e.EnterCall? || e.TerminatingExit? || e.Lifecycle? || e.UnsupportedAbi?
  }

  /** trace_kvm_userspace_exit on a pending KVM_RUN */
  function Observe(k: Core, task: Task, reason: int, error: int): Core
    requires HasValid(k, task)
  {
    SetAux(Note(k, KvmSeen(k.storage[task].gen, reason, error)), task, KvmAux(reason, error))
  }

  function Fragment(k: Core, task: Task, part: nat): Core
    requires HasValid(k, task)
  {
    Note(k, ExitFragment(k.storage[task].gen, k.storage[task].call, part))
  }

  /** Which moves to consider: those of task `who`, noting only effects in `noise`, with enter
      handlers writing aux0 only for the calls in `auxOk` and completions only in `retOk`. */
  datatype Moves = Moves(who: Task, noise: Effect -> bool, auxOk: Call -> bool, retOk: (Call, int) -> bool)

  /** The label can complete `call` with return value `ret`: the raw exit of that very system
      call with that value, under the tid that entered it or, for a successful exec, the one it
      was handed over to; the exec step, with 0; or the return of recvmsg. */
  predicate Closes(l: Label, call: Call, ret: int) {
    match l
    case Exit(c, id, r, _) => r == ret && id == call.sysId && (call.tid == c.tid || (ret == 0 && IsExec(id)))
    case ExecDone(_, _, _, _, _) => ret == 0 && IsExec(call.sysId)
    case RecvmsgReturn(_, r, _) => r == ret && call.sysId == SYS_RECVMSG
    case _ => false
  }

  /** Kept by everything an enter handler does after it has saved. */
  ghost predicate TailClosed(P: Core -> bool, m: Moves) {
    && (forall k, e :: P(k) && m.noise(e) ==> P(Note(k, e)))
    && (forall k, part: nat :: P(k) && HasValid(k, m.who) ==> P(Fragment(k, m.who, part)))
    && (forall k, v :: P(k) && HasValid(k, m.who) && m.auxOk(k.storage[m.who].call) ==> P(SetAux(k, m.who, v)))
  }

  /** Kept by every move of a native enter. */
  ghost predicate EnterClosed(P: Core -> bool, m: Moves) {
    && TailClosed(P, m)
    && (forall k, call :: P(k) ==> P(Save(k, m.who, call)))
  }

  /** Kept by every move that neither saves nor drops a record. */
  ghost predicate DoneClosed(P: Core -> bool, m: Moves) {
    && TailClosed(P, m)
    && (forall k, ret ::
          P(k) && HasValid(k, m.who) && m.retOk(k.storage[m.who].call, ret) ==> P(Complete(k, m.who, ret, None)))
    && (forall k, ret ::
          P(k) && HasValid(k, m.who) && m.retOk(k.storage[m.who].call, ret) ==>
            P(Complete(k, m.who, ret, KvmReason(k.storage[m.who], ret))))
    && (forall k, reason, error ::
          P(k) && HasValid(k, m.who) && IsKvmRun(k.storage[m.who].call) ==> P(Observe(k, m.who, reason, error)))
  }

  /** Kept by every move but saving. */
  ghost predicate EndClosed(P: Core -> bool, m: Moves) {
    DoneClosed(P, m) && forall k :: P(k) ==> P(Clear(k, m.who))
  }

  /** Kept by every move. */
  ghost predicate Closed(P: Core -> bool, m: Moves) { EnterClosed(P, m) && EndClosed(P, m) }

  /** The enter programs that write aux0 after saving. */
  predicate WritesAux(prog: EnterProg, id: int) {
    prog.Network? || prog.Bpf? || (prog.Msg? && id == SYS_RECVMSG)
  }

  /** The step belongs to `m`: its task takes it, an aux0-writing program is only reached for
      calls in `auxOk`, and what it notes is in `noise`. Only a task's own exit is reported as
      its exit, as a traced task or as an unknown child. */
  ghost predicate Fits(l: Label, m: Moves) {
    && l.c.task == m.who
    && (l.Enter? && l.id in l.c.env.enterRoutes && WritesAux(l.c.env.enterRoutes[l.id], l.id) ==>
          m.auxOk(Call(l.c.pid, l.c.tid, l.id, l.args)))
    && (forall call, ret :: Closes(l, call, ret) ==> m.retOk(call, ret))
    && forall e: Effect ::
         Neutral(e) &&
         (e.Lifecycle? && e.kind.ExitedEvent? ==> l.TaskExit? && e.pid == l.c.pid && e.tid == l.c.tid) &&
         (e.Lifecycle? && e.kind.UnknownExit? ==> l.TaskExit? && e.arg0 == l.c.tid) ==>
           m.noise(e)
  }

  ghost predicate AllowsEnter(m: Moves) {
    forall e: Effect :: e.EnterCall? || e.TerminatingExit? ==> m.noise(e)
  }

  // ----- enter ---------------------------------------------------------------------------

  lemma FragmentsKeep(P: Core -> bool, m: Moves, k: Core, first: nat, last: nat)
    requires TailClosed(P, m) && P(k) && HasValid(k, m.who)
    ensures P(Fragments(k, k.storage[m.who], first, last))
    decreases last
  {
    if last > first {
      var before := Fragments(k, k.storage[m.who], first, last - 1);
      FragmentsKeep(P, m, k, first, last - 1);
      FragmentsKeepStorage(k, k.storage[m.who], first, last - 1);
      assert P(Fragment(before, m.who, last - 1));
    }
  }

  lemma EmitPartsKeep(P: Core -> bool, m: Moves, k: Core, c: Ctx, id: int, part: nat, count: nat)
    requires TailClosed(P, m) && P(k) && AllowsEnter(m)
    ensures P(EmitParts(k, c, id, part, count))
    ensures EmitParts(k, c, id, part, count).storage == k.storage
    decreases count
  {
    if count > 0 {
      assert m.noise(EnterCall(c.pid, c.tid, id, part));
      EmitPartsKeep(P, m, Note(k, EnterCall(c.pid, c.tid, id, part)), c, id, part + 1, count - 1);
    }
  }

  lemma EmitChainKeeps(
      P: Core -> bool, m: Moves, k: Core, c: Ctx, id: int, links: seq<Link>, tails: set<Slot>, part: nat)
    requires TailClosed(P, m) && P(k) && AllowsEnter(m)
    ensures P(EmitChain(k, c, id, links, tails, part))
    ensures EmitChain(k, c, id, links, tails, part).storage == k.storage
    decreases |links|
  {
    if links != [] && links[0].slot in tails {
      EmitPartsKeep(P, m, k, c, id, part, links[0].parts);
      EmitChainKeeps(P, m, EmitParts(k, c, id, part, links[0].parts), c, id, links[1..], tails, part + links[0].parts);
    }
  }

  lemma EnterPathsKeep(P: Core -> bool, m: Moves, s: State, c: Ctx, id: int, ei: EnterInput)
    requires TailClosed(P, m) && P(s.core) && m.who == c.task
    ensures P(EnterPaths(s, c, id, ei).core)
  {
    if HasValid(s.core, c.task) {
      FragmentsKeep(P, m, s.core, 0, PathLinks(ei.nested, ei.tails, EnterPath1, EnterPath2, EnterPath3));
    }
  }

  lemma EmitAndSaveKeeps(P: Core -> bool, m: Moves, s: State, c: Ctx, id: int, args: seq<int>, ei: EnterInput)
    requires EnterClosed(P, m) && P(s.core) && m.who == c.task && AllowsEnter(m)
    ensures P(EmitAndSave(s, c, id, args, ei).core)
  {
    var noted := Note(s.core, EnterCall(c.pid, c.tid, id, 0));
    assert m.noise(EnterCall(c.pid, c.tid, id, 0));
    assert P(noted);
    assert P(Save(noted, c.task, Call(c.pid, c.tid, id, args)));
  }

  /** After emit-and-save the task's record, if it has a valid one, is this call's. */
  lemma SavedIsCurrent(s: State, c: Ctx, id: int, args: seq<int>, ei: EnterInput)
    ensures var k := EmitAndSave(s, c, id, args, ei).core;
      HasValid(k, c.task) <==> CanSave(s, c.task, ei.saveOk)
    ensures var k := EmitAndSave(s, c, id, args, ei).core;
      HasValid(k, c.task) ==> k.storage[c.task] == TaskState(Call(c.pid, c.tid, id, args), 0, true, s.core.nextGen)
  {
  }

  /** The programs that save for this id. */
  predicate Saves(prog: EnterProg, id: int) {
    !prog.Terminating? && (prog.Guarded? ==> id in prog.family)
  }

  /** What a saving program does beyond emit-and-save is tail moves only. */
  lemma AuxTail(P: Core -> bool, m: Moves, s: State, c: Ctx, prog: EnterProg, id: int, args: seq<int>, ei: EnterInput)
    requires TailClosed(P, m) && m.who == c.task && AllowsEnter(m) && (prog.Bpf? || prog.Msg? || prog.Network?)
    requires WritesAux(prog, id) ==> m.auxOk(Call(c.pid, c.tid, id, args))
    requires P(EmitAndSave(s, c, id, args, ei).core)
    ensures P(RunEnter(s, c, prog, id, args, ei).core)
  {
    hide EmitAndSave, EmitChain, EnterChain;
    SavedIsCurrent(s, c, id, args, ei);
    var saved := EmitAndSave(s, c, id, args, ei);
    match prog
    case Bpf => EmitChainKeeps(P, m, saved.core, c, id, [Link(BpfProgLoadDebug, 1)], ei.tails, 1);
    case Msg =>
      var noted := if id == SYS_RECVMSG && CanSave(s, c.task, ei.saveOk)
                   then SaveAux(saved, c.task, if ei.aux.Some? then ei.aux.value else 0) else saved;
      EmitChainKeeps(P, m, noted.core, c, id, EnterChain(prog, id), ei.tails, 1);
    case Network =>
  }

  lemma SavingTail(
      P: Core -> bool, m: Moves, s: State, c: Ctx, prog: EnterProg, id: int, args: seq<int>, ei: EnterInput)
    requires TailClosed(P, m) && m.who == c.task && Saves(prog, id) && AllowsEnter(m)
    requires WritesAux(prog, id) ==> m.auxOk(Call(c.pid, c.tid, id, args))
    requires P(EmitAndSave(s, c, id, args, ei).core)
    ensures P(RunEnter(s, c, prog, id, args, ei).core)
  {
    hide EmitAndSave, EmitChain, EnterChain, EnterPaths, BpfEnter;
    SavedIsCurrent(s, c, id, args, ei);
    var saved := EmitAndSave(s, c, id, args, ei);
    match prog
    case Poll => EnterPathsKeep(P, m, saved, c, id, ei);
    case Select => EnterPathsKeep(P, m, saved, c, id, ei);
    case Terminating => assert false;
    case Bpf => AuxTail(P, m, s, c, prog, id, args, ei);
    case Msg => AuxTail(P, m, s, c, prog, id, args, ei);
    case Network => AuxTail(P, m, s, c, prog, id, args, ei);
    case Exec =>
    case Guarded(_) =>
    case _ => EmitChainKeeps(P, m, saved.core, c, id, EnterChain(prog, id), ei.tails, 1);
  }

  lemma TerminatingKeeps(P: Core -> bool, m: Moves, s: State, c: Ctx, id: int, ei: EnterInput)
    requires TailClosed(P, m) && P(s.core) && AllowsEnter(m)
    ensures P(TerminatingEnter(s, c, id, ei).core)
  {
    var noted := Note(s.core, EnterCall(c.pid, c.tid, id, 0));
    assert m.noise(EnterCall(c.pid, c.tid, id, 0)) && m.noise(TerminatingExit(c.pid, c.tid, id));
    assert P(noted);
    assert P(Note(noted, TerminatingExit(c.pid, c.tid, id)));
  }

  lemma RunEnterKeeps(
      P: Core -> bool, m: Moves, s: State, c: Ctx, prog: EnterProg, id: int, args: seq<int>, ei: EnterInput)
    requires TailClosed(P, m) && P(s.core) && P(EmitAndSave(s, c, id, args, ei).core) && m.who == c.task
    requires AllowsEnter(m)
    requires WritesAux(prog, id) ==> m.auxOk(Call(c.pid, c.tid, id, args))
    ensures P(RunEnter(s, c, prog, id, args, ei).core)
  {
    hide EmitAndSave, TerminatingEnter;
    if Saves(prog, id) {
      SavingTail(P, m, s, c, prog, id, args, ei);
    } else if prog.Terminating? {
      TerminatingKeeps(P, m, s, c, id, ei);
    }
  }

  /** What the dispatcher does before it hands over leaves the core alone. */
  lemma ArmedCore(s: State, c: Ctx, id: int, args: seq<int>, ei: EnterInput)
    ensures ArmExec(s, c, id, ei.armOk).core == s.core
    ensures var noted := CaptureForkFlags(ArmExec(s, c, id, ei.armOk), c, id, args, ei);
      noted.core == s.core && EmitAndSave(noted, c, id, args, ei).core == EmitAndSave(s, c, id, args, ei).core
  {
  }

  /** A native enter saves at most once: what holds before and after that save holds after the
      step, if the rest of the handlers keep it. */
  lemma SavedEnterKeeps(P: Core -> bool, m: Moves, s: State, c: Ctx, id: int, args: seq<int>, ei: EnterInput)
    requires TailClosed(P, m) && P(s.core) && P(EmitAndSave(s, c, id, args, ei).core)
    requires Fits(Enter(c, id, args, ei), m) && ei.native
    ensures P(EnterStep(s, c, id, args, ei).core)
  {
    hide RunEnter, EmitAndSave, Dispatched, TaskFlags, IsSuppressed, ArmExec, CaptureForkFlags;
    var noted := CaptureForkFlags(ArmExec(s, c, id, ei.armOk), c, id, args, ei);
    ArmedCore(s, c, id, args, ei);
    if id in c.env.enterRoutes { RunEnterKeeps(P, m, noted, c, c.env.enterRoutes[id], id, args, ei); }
  }

  lemma NativeEnterKeeps(P: Core -> bool, m: Moves, s: State, c: Ctx, id: int, args: seq<int>, ei: EnterInput)
    requires EnterClosed(P, m) && P(s.core) && Fits(Enter(c, id, args, ei), m) && ei.native
    ensures P(EnterStep(s, c, id, args, ei).core)
  {
    hide EnterStep, EmitAndSave;
    EmitAndSaveKeeps(P, m, s, c, id, args, ei);
    SavedEnterKeeps(P, m, s, c, id, args, ei);
  }

  lemma RejectAbiKeeps(P: Core -> bool, m: Moves, s: State, c: Ctx, id: int)
    requires EndClosed(P, m) && P(s.core) && m.who == c.task && m.noise(UnsupportedAbi(c.pid, c.tid, id))
    ensures P(RejectAbi(s, c, id).core)
  {
    assert P(Clear(s.core, c.task));
    assert P(Note(Clear(s.core, c.task), UnsupportedAbi(c.pid, c.tid, id)));
  }

  lemma EnterKeeps(P: Core -> bool, m: Moves, s: State, c: Ctx, id: int, args: seq<int>, ei: EnterInput)
    requires Closed(P, m) && P(s.core) && Fits(Enter(c, id, args, ei), m)
    ensures P(EnterStep(s, c, id, args, ei).core)
  {
    if ei.native {
      NativeEnterKeeps(P, m, s, c, id, args, ei);
    } else {
      RejectAbiKeeps(P, m, s, c, id);
    }
  }

  // ----- exit ----------------------------------------------------------------------------

  lemma CompleteAfterKeeps(P: Core -> bool, m: Moves, k: Core, n: nat, ret: int)
    requires DoneClosed(P, m) && P(k) && HasValid(k, m.who) && m.retOk(k.storage[m.who].call, ret)
    ensures P(CompleteAfter(k, m.who, n, ret, None))
    ensures P(CompleteAfter(k, m.who, n, ret, KvmReason(k.storage[m.who], ret)))
  {
    FragmentsKeep(P, m, k, 0, n);
    FragmentsKeepStorage(k, k.storage[m.who], 0, n);
    var k' := Fragments(k, k.storage[m.who], 0, n);
    assert P(Complete(k', m.who, ret, None));
    assert P(Complete(k', m.who, ret, KvmReason(k'.storage[m.who], ret)));
  }

  /** A raw exit leaves the core alone, clears the record, or completes it. */
  lemma RunExitCore(s: State, c: Ctx, prog: ExitProg, id: int, ret: int, xi: ExitInput)
    ensures var k := RunExit(s, c, prog, id, ret, xi).core;
      || k == s.core
      || k == Clear(s.core, c.task)
      || (HasValid(s.core, c.task) &&
          Closes(Exit(c, id, ret, xi), s.core.storage[c.task].call, ret) &&
          var n := ExitFragments(prog, id, ret, xi);
          (k == CompleteAfter(s.core, c.task, n, ret, None) ||
           k == CompleteAfter(s.core, c.task, n, ret, KvmReason(s.core.storage[c.task], ret))))
  {
  }

  lemma RunExitKeeps(P: Core -> bool, m: Moves, s: State, c: Ctx, prog: ExitProg, id: int, ret: int, xi: ExitInput)
    requires EndClosed(P, m) && P(s.core) && m.who == c.task
    requires forall call :: Closes(Exit(c, id, ret, xi), call, ret) ==> m.retOk(call, ret)
    ensures P(RunExit(s, c, prog, id, ret, xi).core)
  {
    assert P(Clear(s.core, c.task));
    RunExitCore(s, c, prog, id, ret, xi);
    if HasValid(s.core, c.task) && Closes(Exit(c, id, ret, xi), s.core.storage[c.task].call, ret) {
      CompleteAfterKeeps(P, m, s.core, ExitFragments(prog, id, ret, xi), ret);
    }
  }

  lemma ExitKeeps(P: Core -> bool, m: Moves, s: State, c: Ctx, id: int, ret: int, xi: ExitInput)
    requires EndClosed(P, m) && P(s.core) && Fits(Exit(c, id, ret, xi), m)
    ensures P(ExitStep(s, c, id, ret, xi).core)
  {
    var noted := if id == SYS_CLONE || id == SYS_CLONE3 then s.(forkFlags := s.forkFlags - {c.tid}) else s;
    RejectAbiKeeps(P, m, s, c, id);
    RunExitKeeps(P, m, noted, c, Plain, id, ret, xi);
    if id in c.env.exitRoutes { RunExitKeeps(P, m, noted, c, c.env.exitRoutes[id], id, ret, xi); }
  }

  /** A recvmsg return emits up to two fragments of the pending recvmsg, then may complete it. */
  lemma RecvmsgCore(s: State, c: Ctx, ret: int, tails: set<Slot>)
    ensures var k := RecvmsgStep(s, c, ret, tails).core;
      || k == s.core
      || (HasValid(s.core, c.task) && s.core.storage[c.task].call.sysId == SYS_RECVMSG &&
          var named := if ret > 0 then Fragment(s.core, c.task, 0) else s.core;
          var controlled := if ret >= 0 then Fragment(named, c.task, 1) else named;
          k == named || k == controlled || k == Complete(controlled, c.task, ret, None))
  {
    hide Complete;
  }

  lemma RecvmsgKeeps(P: Core -> bool, m: Moves, s: State, c: Ctx, ret: int, tails: set<Slot>)
    requires DoneClosed(P, m) && P(s.core) && m.who == c.task
    requires forall call :: Closes(RecvmsgReturn(c, ret, tails), call, ret) ==> m.retOk(call, ret)
    ensures P(RecvmsgStep(s, c, ret, tails).core)
  {
    hide RecvmsgStep, Complete;
    RecvmsgCore(s, c, ret, tails);
    if HasValid(s.core, c.task) && s.core.storage[c.task].call.sysId == SYS_RECVMSG {
      assert Closes(RecvmsgReturn(c, ret, tails), s.core.storage[c.task].call, ret);
      var named := if ret > 0 then Fragment(s.core, c.task, 0) else s.core;
      assert P(named) && HasValid(named, c.task);
      var controlled := if ret >= 0 then Fragment(named, c.task, 1) else named;
      assert P(controlled) && HasValid(controlled, c.task);
      assert P(Complete(controlled, c.task, ret, None));
    }
  }

  // ----- lifecycle -----------------------------------------------------------------------

  // Which part of each lifecycle step touches the core.

  lemma EnterExecCore(s: State, c: Ctx, oldTid: int, adoptOk: bool, clearOk: bool, disarmOk: bool)
    ensures Adopt(s, c, oldTid, adoptOk).0.core == s.core
    ensures LeavePreExec(Adopt(s, c, oldTid, adoptOk).0, c.tid, clearOk, disarmOk).core == s.core
  {
  }

  /** An exec step leaves the core alone or completes a pending exec, and may report itself. */
  lemma ExecStepCore(s: State, c: Ctx, oldTid: int, adoptOk: bool, clearOk: bool, disarmOk: bool)
    ensures var k := ExecStep(s, c, oldTid, adoptOk, clearOk, disarmOk).core;
      var done := if HasValid(s.core, c.task) && IsExec(s.core.storage[c.task].call.sysId)
                  then Complete(s.core, c.task, 0, None) else s.core;
      k == s.core || k == done || k == Note(done, Lifecycle(ExecEvent, c.pid, c.tid, oldTid, c.tid))
  {
    hide Adopt, LeavePreExec, Complete;
    EnterExecCore(s, c, oldTid, adoptOk, clearOk, disarmOk);
  }

  lemma TeardownCore(s: State, tid: int, current: Task, pid: int, markOk: bool, disarmOk: bool)
    ensures Teardown(s, current, pid, tid, disarmOk).core == Clear(s.core, current)
    ensures Teardown(MarkExited(s, tid, markOk), current, pid, tid, disarmOk).core == Clear(s.core, current)
  {
  }

  lemma LogLifecycleKeeps(
      P: Core -> bool, m: Moves, s: State, c: Ctx, kind: LifecycleKind, pid: int, tid: int, arg0: int, arg1: int)
    requires TailClosed(P, m) && P(s.core) && m.noise(Lifecycle(kind, pid, tid, arg0, arg1))
    ensures P(LogLifecycle(s, c, kind, pid, tid, arg0, arg1).core)
  {
    assert P(Note(s.core, Lifecycle(kind, pid, tid, arg0, arg1)));
  }

  lemma ForkKeeps(
      P: Core -> bool, m: Moves, s: State, c: Ctx, child: int, preOk: bool, installOk: bool, unknownOk: bool)
    requires DoneClosed(P, m) && P(s.core) && Fits(Fork(c, child, preOk, installOk, unknownOk), m)
    ensures P(ForkStep(s, c, child, preOk, installOk, unknownOk).core)
  {
    var flags := ParentForkFlags(s, c);
    var followed := FollowChild(ArmChild(s, c, child, preOk), c, child, installOk);
    assert followed.core == s.core;
    var forked := LogLifecycle(followed, c, ForkEvent, c.pid, c.tid, ForkIdentity(flags, c.pid), child);
    LogLifecycleKeeps(P, m, followed, c, ForkEvent, c.pid, c.tid, ForkIdentity(flags, c.pid), child);
    LogLifecycleKeeps(P, m, forked, c, UnknownDetach, c.pid, c.tid, child, 0);
  }

  lemma ExecKeeps(
      P: Core -> bool, m: Moves, s: State, c: Ctx, oldTid: int, adoptOk: bool, clearOk: bool, disarmOk: bool)
    requires DoneClosed(P, m) && P(s.core) && Fits(ExecDone(c, oldTid, adoptOk, clearOk, disarmOk), m)
    ensures P(ExecStep(s, c, oldTid, adoptOk, clearOk, disarmOk).core)
  {
    hide ExecStep, Complete;
    ExecStepCore(s, c, oldTid, adoptOk, clearOk, disarmOk);
    var done := if HasValid(s.core, c.task) && IsExec(s.core.storage[c.task].call.sysId)
                then Complete(s.core, c.task, 0, None) else s.core;
    if HasValid(s.core, c.task) && IsExec(s.core.storage[c.task].call.sysId) {
      assert Closes(ExecDone(c, oldTid, adoptOk, clearOk, disarmOk), s.core.storage[c.task].call, 0);
    }
    assert P(done);
    assert P(Note(done, Lifecycle(ExecEvent, c.pid, c.tid, oldTid, c.tid)));
  }

  lemma TakeUnknownKeeps(P: Core -> bool, m: Moves, s: State, c: Ctx)
    requires TailClosed(P, m) && P(s.core)
    requires forall e: Effect :: e.Lifecycle? && e.kind.UnknownExit? && e.arg0 == c.tid ==> m.noise(e)
    ensures P(TakeUnknown(s, c).core)
  {
    if c.tid in s.unknownChildren {
      LogLifecycleKeeps(P, m, s, c, UnknownExit, s.unknownChildren[c.tid], s.unknownChildren[c.tid], c.tid, 0);
    }
  }

  lemma TaskExitKeeps(P: Core -> bool, m: Moves, s: State, c: Ctx, code: int, markOk: bool, disarmOk: bool)
    requires EndClosed(P, m) && P(s.core) && Fits(TaskExit(c, code, markOk, disarmOk), m)
    ensures P(TaskExitStep(s, c, code, markOk, disarmOk).core)
  {
    var taken := TakeUnknown(s, c);
    TakeUnknownKeeps(P, m, s, c);
    assert P(Clear(taken.core, c.task));
    TeardownCore(taken, c.tid, c.task, c.pid, markOk, disarmOk);
    var torn := Teardown(MarkExited(taken, c.tid, markOk), c.task, c.pid, c.tid, disarmOk);
    LogLifecycleKeeps(P, m, torn, c, ExitedEvent, c.pid, c.tid, code, 0);
  }

  lemma FreeKeeps(P: Core -> bool, m: Moves, s: State, c: Ctx, freed: int, disarmOk: bool)
    requires EndClosed(P, m) && P(s.core) && Fits(Free(c, freed, disarmOk), m)
    ensures P(FreeStep(s, c, freed, disarmOk).core)
  {
    assert P(Clear(s.core, c.task));
    TeardownCore(s, freed, c.task, freed, true, disarmOk);
    LogLifecycleKeeps(P, m, Teardown(s, c.task, freed, freed, disarmOk), c, FreeEvent, freed, freed, freed, 0);
  }

  // ----- runs ----------------------------------------------------------------------------

  /** Forks, execs, KVM exits and recvmsg returns neither save nor drop a record. */
  predicate KeepsRecords(l: Label) { l.Fork? || l.ExecDone? || l.Kvm? || l.RecvmsgReturn? }

  lemma RecordStepKeeps(P: Core -> bool, m: Moves, s: State, l: Label)
    requires DoneClosed(P, m) && P(s.core) && Fits(l, m) && KeepsRecords(l)
    ensures P(Step(s, l).core)
  {
    match l
    case Fork(c, child, preOk, installOk, unknownOk) => ForkKeeps(P, m, s, c, child, preOk, installOk, unknownOk);
    case ExecDone(c, oldTid, adoptOk, clearOk, disarmOk) =>
      ExecKeeps(P, m, s, c, oldTid, adoptOk, clearOk, disarmOk);
    case Kvm(c, reason, error) =>
      assert HasValid(s.core, c.task) && IsKvmRun(s.core.storage[c.task].call) ==>
          P(Observe(s.core, c.task, reason, error));
    case RecvmsgReturn(c, ret, tails) => RecvmsgKeeps(P, m, s, c, ret, tails);
  }

  /** No step but an enter saves. */
  lemma OtherStepKeeps(P: Core -> bool, m: Moves, s: State, l: Label)
    requires EndClosed(P, m) && P(s.core) && Fits(l, m) && !l.Enter?
    ensures P(Step(s, l).core)
  {
    if l.Exit? {
      ExitKeeps(P, m, s, l.c, l.id, l.ret, l.xi);
    } else if l.TaskExit? {
      TaskExitKeeps(P, m, s, l.c, l.code, l.markOk, l.disarmOk);
    } else if l.Free? {
      FreeKeeps(P, m, s, l.c, l.freed, l.disarmOk);
    } else {
      RecordStepKeeps(P, m, s, l);
    }
  }

  lemma StepKeeps(P: Core -> bool, m: Moves, s: State, l: Label)
    requires Closed(P, m) && P(s.core) && Fits(l, m)
    ensures P(Step(s, l).core)
  {
    if l.Enter? {
      EnterKeeps(P, m, s, l.c, l.id, l.args, l.ei);
    } else {
      OtherStepKeeps(P, m, s, l);
    }
  }

  /** The moves of any task, with nothing forbidden but aux0 writes outside `auxOk`. */
  ghost function AnyMove(who: Task, auxOk: Call -> bool): Moves { Moves(who, Neutral, auxOk, AnyReturn) }

  ghost predicate AllFit(labels: seq<Label>, auxOk: Call -> bool) {
    forall i :: 0 <= i < |labels| ==> Fits(labels[i], AnyMove(labels[i].c.task, auxOk))
  }

  /** Whatever the moves of every task keep, every run keeps. */
  lemma {:induction false} RunKeeps(P: Core -> bool, auxOk: Call -> bool, s: State, labels: seq<Label>)
    requires forall who :: Closed(P, AnyMove(who, auxOk))
    requires P(s.core) && AllFit(labels, auxOk)
    ensures P(Run(s, labels).core)
    decreases |labels|
  {
    if labels != [] {
      StepKeeps(P, AnyMove(labels[0].c.task, auxOk), s, labels[0]);
      RunKeeps(P, auxOk, Step(s, labels[0]), labels[1..]);
    }
  }

  predicate AnyCall(call: Call) { true }

  predicate AnyReturn(call: Call, ret: int) { true }
}
