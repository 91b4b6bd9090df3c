/** The tracer's steps as functions on one shared state.

    A run is any interleaving of tracepoint programs, each executed in the context of some
    task. Everything the program cannot decide by itself (native ABI, user memory, whether a
    map update, a storage allocation or a tail call succeeds) is part of the step's label. */
module Protocol {
  import opened Abi
  import opened PendingCore

  datatype State = State(
    core: Core,
    filter: map<int, Flags>,
    pendingExec: map<int, int>,
    mainExited: set<int>,
    attachRoots: set<int>,
    attachExited: set<int>,
    forkFlags: map<int, int>,
    unknownChildren: map<int, int>,
    arm: int,
    orphans: nat,
    mismatches: nat,
    mapFails: nat,
    saveFails: nat)

  /** The current task: its identity as a kernel object, its group id and its thread id. */
  datatype Ctx = Ctx(task: Task, pid: int, tid: int, env: Env)

  datatype BpfCommand = BpfCommand(progLoad: bool, uprobeMulti: bool, tracingMulti: bool)

  /** `aux` is the value an enter handler computed for aux0, `nested` the number of fd
      candidates its collector found, `tails` the tail calls that go through. */
  datatype EnterInput = EnterInput(
    native: bool, armOk: bool, clone3Flags: Option<int>, forkOk: bool, saveOk: bool,
    mainOk: bool, execOk: bool, aux: Option<int>, bpf: BpfCommand, nested: nat, tails: set<Slot>)

  datatype ExitInput = ExitInput(native: bool, nested: nat, tails: set<Slot>)

  datatype Label =
    | Enter(c: Ctx, id: int, args: seq<int>, ei: EnterInput)
    | Exit(c: Ctx, id: int, ret: int, xi: ExitInput)
    | Fork(c: Ctx, child: int, preOk: bool, installOk: bool, unknownOk: bool)
    | ExecDone(c: Ctx, oldTid: int, adoptOk: bool, clearOk: bool, disarmOk: bool)
    | TaskExit(c: Ctx, code: int, markOk: bool, disarmOk: bool)
    | Free(c: Ctx, freed: int, disarmOk: bool)
    | Kvm(c: Ctx, reason: int, error: int)
    | RecvmsgReturn(c: Ctx, ret: int, tails: set<Slot>)

  function Arg(args: seq<int>, i: nat): int { if i < |args| then args[i] else 0 }

  /** Nothing that decides who is traced has changed. */
  predicate SameTracking(s: State, r: State) {
    && r.filter == s.filter && r.arm == s.arm
    && r.attachRoots == s.attachRoots && r.attachExited == s.attachExited
    && r.unknownChildren == s.unknownChildren
  }

  /** Nothing has been counted against the tracer. */
  predicate SameCounts(s: State, r: State) { r.orphans == s.orphans && r.mismatches == s.mismatches }

  function FailMap(s: State): State { s.(mapFails := s.mapFails + 1) }

  function Log(s: State, e: Effect): State { s.(core := Note(s.core, e)) }

  function ClearTask(s: State, task: Task): State { s.(core := Clear(s.core, task)) }

  // ----- raw enter -----------------------------------------------------------------------

  function RejectAbi(s: State, c: Ctx, id: int): (r: State)
    ensures SameTracking(s, r) && SameCounts(s, r)
  {
    Log(ClearTask(s, c.task).(pendingExec := s.pendingExec - {c.pid}), UnsupportedAbi(c.pid, c.tid, id))
  }

  function PutPendingExec(s: State, c: Ctx, ok: bool): State {
    if ok then s.(pendingExec := s.pendingExec[c.pid := c.tid]) else FailMap(s)
  }

  function ArmExec(s: State, c: Ctx, id: int, ok: bool): (r: State)
    ensures SameTracking(s, r) && SameCounts(s, r)
  {
    if !IsExec(id) || c.tid == c.pid || !IsTracked(s.filter, c.pid, c.tid) then s
    else PutPendingExec(s, c, ok)
  }

  function EnterForkFlags(id: int, args: seq<int>, ei: EnterInput): Option<int> {
    if id == SYS_CLONE then Some(Arg(args, 0))
    else if id == SYS_CLONE3 && Arg(args, 0) != 0 then ei.clone3Flags
    else None
  }

  function CaptureForkFlags(s: State, c: Ctx, id: int, args: seq<int>, ei: EnterInput): (r: State)
    ensures SameTracking(s, r) && SameCounts(s, r)
  {
    var flags := EnterForkFlags(id, args, ei);
    if flags.None? then s
    else if ei.forkOk then s.(forkFlags := s.forkFlags[c.tid := flags.value])
    else FailMap(s)
  }

  /** Storage is created on first use, and only that creation can fail. */
  predicate CanSave(s: State, task: Task, ok: bool) { ok || task in s.core.storage }

  function SaveCall(s: State, c: Ctx, id: int, args: seq<int>, ok: bool): (r: State)
    ensures r == s.(core := r.core, saveFails := r.saveFails)
  {
    if CanSave(s, c.task, ok) then s.(core := Save(s.core, c.task, Call(c.pid, c.tid, id, args)))
    else s.(saveFails := s.saveFails + 1)
  }

  function SaveAux(s: State, task: Task, value: int): (r: State)
    ensures r == s.(core := r.core, saveFails := r.saveFails)
  {
    if HasValid(s.core, task) then s.(core := SetAux(s.core, task, value))
    else s.(saveFails := s.saveFails + 1)
  }

  /** One link of an enter fragment chain: the slot that leads to it and how many fragment
      events it emits. */
  datatype Link = Link(slot: Slot, parts: nat)

  function EnterChain(prog: EnterProg, id: int): seq<Link> {
    match prog
    case Iovec => if IsIovecBaseEnter(id) then [Link(IovecBase, 1)] else []
    case Msg => if id == SYS_SENDMSG then [Link(SendmsgBase, 1)] else []
    case Mmsg =>
      if !IsMmsg(id) then []
      else
        [Link(MmsgBase01, 2), Link(MmsgBase2, 1), Link(MmsgBase3, 1)] +
        (if id == SYS_SENDMMSG
         then [Link(MmsgBytes0, 1), Link(MmsgBytes1, 1), Link(MmsgBytes2, 1), Link(MmsgBytes3, 1)]
         else [])
    case Aio => if id == SYS_IO_SUBMIT then [Link(AioIovec, 1), Link(AioBuf, 1)] else []
    case _ => []
  }

  /** Fragment events of one link, numbered from `part`. */
  function EmitParts(k: Core, c: Ctx, id: int, part: nat, count: nat): Core
    decreases count
  {
    if count == 0 then k
    else EmitParts(Note(k, EnterCall(c.pid, c.tid, id, part)), c, id, part + 1, count - 1)
  }

  /** The chain runs until the first tail call that does not go through. */
  function EmitChain(k: Core, c: Ctx, id: int, links: seq<Link>, tails: set<Slot>, part: nat): Core
    decreases |links|
  {
    if links == [] || links[0].slot !in tails then k
    else EmitChain(EmitParts(k, c, id, part, links[0].parts), c, id, links[1..], tails, part + links[0].parts)
  }

  /** How many of a four-link path chain run once its first link has been entered. */
  function PathLinks(count: nat, tails: set<Slot>, second: Slot, third: Slot, fourth: Slot): nat {
    if !(count > 1 && second in tails) then 1
    else if !(count > 2 && third in tails) then 2
    else if !(count > 3 && fourth in tails) then 3
    else 4
  }

  function EnterPaths(s: State, c: Ctx, id: int, ei: EnterInput): (r: State)
    ensures r == s.(core := r.core, saveFails := r.saveFails)
  {
    if c.env.cfg.fdState && 0 < ei.nested <= 4 && EnterPath0 in ei.tails &&
       (id == SYS_SELECT || IsPoll(id)) && HasValid(s.core, c.task)
    then
      var links := PathLinks(ei.nested, ei.tails, EnterPath1, EnterPath2, EnterPath3);
      s.(core := Fragments(s.core, s.core.storage[c.task], 0, links))
    else s
  }

  function EmitAndSave(s: State, c: Ctx, id: int, args: seq<int>, ei: EnterInput): (r: State)
    ensures r == s.(core := r.core, saveFails := r.saveFails)
  {
    SaveCall(Log(s, EnterCall(c.pid, c.tid, id, 0)), c, id, args, ei.saveOk)
  }

  function BpfEnter(s: State, c: Ctx, id: int, args: seq<int>, ei: EnterInput): (r: State)
    ensures r == s.(core := r.core, saveFails := r.saveFails)
  {
    var saved := EmitAndSave(s, c, id, args, ei);
    if ei.bpf.progLoad && BpfProgLoad in ei.tails then
      saved.(core := EmitChain(saved.core, c, id, [Link(BpfProgLoadDebug, 1)], ei.tails, 1))
    else if ei.bpf.uprobeMulti && BpfUprobeMulti in ei.tails then saved
    else if ei.bpf.tracingMulti && BpfTracingMulti in ei.tails then saved
    else if ei.aux.Some? then SaveAux(saved, c.task, ei.aux.value)
    else saved
  }

  function TerminatingEnter(s: State, c: Ctx, id: int, ei: EnterInput): (r: State)
    ensures SameTracking(s, r) && SameCounts(s, r)
  {
    var marked :=
      if c.tid != c.pid then s
      else if ei.mainOk then s.(mainExited := s.mainExited + {c.pid})
      else FailMap(s);
    Log(Log(marked, EnterCall(c.pid, c.tid, id, 0)), TerminatingExit(c.pid, c.tid, id))
  }

  function RunEnter(s: State, c: Ctx, prog: EnterProg, id: int, args: seq<int>, ei: EnterInput): (r: State)
    ensures SameTracking(s, r) && SameCounts(s, r)
  {
    match prog
    case Terminating => TerminatingEnter(s, c, id, ei)
    case Guarded(family) => if id in family then EmitAndSave(s, c, id, args, ei) else s
    case Exec =>
      var saved := EmitAndSave(s, c, id, args, ei);
      if c.tid != c.pid then PutPendingExec(saved, c, ei.execOk) else saved
    case Network =>
      var saved := EmitAndSave(s, c, id, args, ei);
      if CanSave(s, c.task, ei.saveOk)
      then SaveAux(saved, c.task, if ei.aux.Some? then ei.aux.value else 0) else saved
    case Bpf => BpfEnter(s, c, id, args, ei)
    case Poll => EnterPaths(EmitAndSave(s, c, id, args, ei), c, id, ei)
    case Select => EnterPaths(EmitAndSave(s, c, id, args, ei), c, id, ei)
    case Msg =>
      var saved := EmitAndSave(s, c, id, args, ei);
      var noted :=
        if id == SYS_RECVMSG && CanSave(s, c.task, ei.saveOk)
        then SaveAux(saved, c.task, if ei.aux.Some? then ei.aux.value else 0) else saved;
      noted.(core := EmitChain(noted.core, c, id, EnterChain(prog, id), ei.tails, 1))
    case _ =>
      var saved := EmitAndSave(s, c, id, args, ei);
      saved.(core := EmitChain(saved.core, c, id, EnterChain(prog, id), ei.tails, 1))
  }

  function EnterStep(s: State, c: Ctx, id: int, args: seq<int>, ei: EnterInput): (r: State)
    ensures SameTracking(s, r) && SameCounts(s, r)
  {
    var flags := TaskFlags(s.filter, c.pid, c.tid);
    if flags.None? then s
    else if !ei.native then RejectAbi(s, c, id)
    else if id == SYS_RT_SIGRETURN then s
    else
      var armed := ArmExec(s, c, id, ei.armOk);
      if IsSuppressed(flags.value, id) then armed
      else
        var noted := CaptureForkFlags(armed, c, id, args, ei);
        if !Dispatched(c.env.cfg, id) then noted
        else if id in c.env.enterRoutes && EnterRoute in ei.tails
        then RunEnter(noted, c, c.env.enterRoutes[id], id, args, ei)
        else EmitAndSave(noted, c, id, args, ei)
  }

  // ----- raw exit ------------------------------------------------------------------------

  datatype Found = Found(state: TaskState, pendingTid: int, viaExec: bool)

  function LookupForExit(s: State, c: Ctx, ret: int): Option<Found> {
    if !HasValid(s.core, c.task) then None
    else
      var t := s.core.storage[c.task];
      if t.call.tid != c.tid && ret == 0 && IsExec(t.call.sysId) &&
         c.pid in s.pendingExec && s.pendingExec[c.pid] == t.call.tid
      then Some(Found(t, t.call.tid, true))
      else Some(Found(t, c.tid, false))
  }

  predicate Matches(f: Found, id: int) {
    f.state.call.sysId == id && f.state.call.tid == f.pendingTid
  }

  predicate CountsAsOrphan(s: State, c: Ctx, id: int, ret: int) {
    && IsTracked(s.filter, c.pid, c.tid)
    && c.tid !in s.attachExited
    && Dispatched(c.env.cfg, id)
    && !IsExpectedUnmatched(id, ret)
  }

  function Unmatched(s: State, c: Ctx, id: int, ret: int): (r: State)
    ensures SameTracking(s, r)
  {
    if CountsAsOrphan(s, c, id, ret) then s.(orphans := s.orphans + 1) else s
  }

  function Mismatch(s: State, c: Ctx): (r: State)
    ensures SameTracking(s, r)
  {
    ClearTask(s, c.task).(mismatches := s.mismatches + 1, pendingExec := s.pendingExec - {c.pid})
  }

  /** The maps after consume_pending_syscall. */
  function ConsumeMaps(s: State, c: Ctx, f: Found): (r: State)
    ensures SameTracking(s, r)
  {
    if f.viaExec then
      s.(pendingExec := s.pendingExec - {c.pid}, mainExited := s.mainExited - {c.pid})
    else if IsExec(f.state.call.sysId) && f.pendingTid != f.state.call.pid then
      s.(pendingExec := s.pendingExec - {c.pid})
    else s
  }

  /** One completed exit event, then consume. */
  function Close(s: State, c: Ctx, f: Found, ret: int, kvm: Option<int>): (r: State)
    requires HasValid(s.core, c.task)
    ensures SameTracking(s, r)
  {
    ConsumeMaps(s.(core := Complete(s.core, c.task, ret, kvm)), c, f)
  }

  function KvmReason(t: TaskState, ret: int): Option<int> {
    if t.call.sysId == SYS_IOCTL && ret >= 0 && Arg(t.call.args, 1) == KVM_RUN_IOCTL &&
       (t.aux0 / KVM_EXIT_AUX_VALID) % 2 == 1
    then Some(t.aux0 % KVM_EXIT_AUX_VALID)
    else None
  }

  /** How many fragments precede the completion of a matched exit. */
  function ExitFragments(prog: ExitProg, id: int, ret: int, xi: ExitInput): nat {
    match prog
    case Io =>
      if IsEpollWait(id) && ret > 0 && xi.nested > 0 && ExitPath0 in xi.tails
      then PathLinks(xi.nested, xi.tails, ExitPath1, ExitPath2, ExitPath3) else 0
    case RecvmmsgBase01 =>
      if ret <= 0 then 0 else if RecvmmsgBase23 in xi.tails then 4 else 2
    case _ => 0
  }

  predicate SkipsMatched(prog: ExitProg, id: int, ret: int, xi: ExitInput) {
    (prog.GuardAfter? && id !in prog.family) ||
    (prog.Io? && IsEpollWait(id) && ret > 0 && xi.nested > 4 && ExitPath0 in xi.tails)
  }

  predicate SkipsAll(prog: ExitProg, id: int) {
    (prog.GuardBefore? && id !in prog.family) || (prog.RecvmmsgBase01? && id != SYS_RECVMMSG)
  }

  /** `n` fragments in order, then the one completed exit event, then retirement. */
  function CompleteAfter(k: Core, task: Task, n: nat, ret: int, kvm: Option<int>): Core
    requires HasValid(k, task)
  {
    FragmentsKeepStorage(k, k.storage[task], 0, n);
    Complete(Fragments(k, k.storage[task], 0, n), task, ret, kvm)
  }

  function RunExit(s: State, c: Ctx, prog: ExitProg, id: int, ret: int, xi: ExitInput): (r: State)
    ensures SameTracking(s, r)
  {
    if SkipsAll(prog, id) then s
    else
      var found := LookupForExit(s, c, ret);
      if found.None? then Unmatched(s, c, id, ret)
      else if !Matches(found.value, id) then Mismatch(s, c)
      else if SkipsMatched(prog, id, ret, xi) then s
      else
        var t := found.value.state;
        var kvm := if prog.Control? then KvmReason(t, ret) else None;
        ConsumeMaps(s.(core := CompleteAfter(s.core, c.task, ExitFragments(prog, id, ret, xi), ret, kvm)), c,
            found.value)
  }

  lemma FragmentsKeepStorage(k: Core, t: TaskState, first: nat, last: nat)
    ensures Fragments(k, t, first, last).storage == k.storage
    ensures Fragments(k, t, first, last).nextGen == k.nextGen
    decreases last
  {
    if last > first { FragmentsKeepStorage(k, t, first, last - 1); }
  }

  function ExitStep(s: State, c: Ctx, id: int, ret: int, xi: ExitInput): (r: State)
    ensures SameTracking(s, r)
  {
    if id < 0 then s
    else
      var flags := TaskFlags(s.filter, c.pid, c.tid);
      if flags.None? then s
      else if !xi.native then RejectAbi(s, c, id)
      else if id == SYS_RT_SIGRETURN || IsSuppressed(flags.value, id) then s
      else
        var noted :=
          if id == SYS_CLONE || id == SYS_CLONE3 then s.(forkFlags := s.forkFlags - {c.tid}) else s;
        if !Dispatched(c.env.cfg, id) then noted
        else if id in c.env.exitRoutes && ExitRoute in xi.tails
        then RunExit(noted, c, c.env.exitRoutes[id], id, ret, xi)
        else RunExit(noted, c, Plain, id, ret, xi)
  }

  // ----- lifecycle -----------------------------------------------------------------------

  function LogLifecycle(s: State, c: Ctx, kind: LifecycleKind, pid: int, tid: int, arg0: int, arg1: int): (r: State)
    ensures r == s.(core := r.core)
  {
    if c.env.cfg.emitLifecycle then Log(s, Lifecycle(kind, pid, tid, arg0, arg1)) else s
  }

  function PutFilter(s: State, tid: int, flags: Flags, ok: bool): State {
    if ok then s.(filter := s.filter[tid := flags]) else FailMap(s)
  }

  predicate HasPreExec(filter: map<int, Flags>, tid: int) { tid in filter && filter[tid].preExec }

  predicate HasBit(flags: int, bit: int)
    requires bit > 0
  {
    (flags / bit) % 2 == 1
  }

  function ParentForkFlags(s: State, c: Ctx): int { if c.tid in s.forkFlags then s.forkFlags[c.tid] else 0 }

  function ForkIdentity(flags: int, pid: int): int { (flags % 0x1_0000_0000) * 0x1_0000_0000 + pid }

  function ArmChild(s: State, c: Ctx, child: int, ok: bool): (r: State)
    ensures r == s.(filter := r.filter, mapFails := r.mapFails)
  {
    if s.arm != 0 && s.arm == c.pid then PutFilter(s, child, Flags(true, true), ok) else s
  }

  function FollowChild(s: State, c: Ctx, child: int, ok: bool): (r: State)
    ensures r == s.(filter := r.filter, mapFails := r.mapFails)
  {
    if c.env.cfg.followForks then PutFilter(s, child, Flags(true, HasPreExec(s.filter, child)), ok) else s
  }

  /** A child that is not followed may still have to be announced to the tracer. */
  function ReportUnfollowed(s: State, c: Ctx, child: int, flags: int, ok: bool): (r: State)
    ensures r == s.(core := r.core, unknownChildren := r.unknownChildren, mapFails := r.mapFails)
  {
    var detached :=
      if HasBit(flags, CLONE_PTRACE_BIT) then LogLifecycle(s, c, UnknownDetach, c.pid, c.tid, child, 0) else s;
    if !HasBit(flags, CLONE_PARENT_BIT) then detached
    else if ok then detached.(unknownChildren := detached.unknownChildren[child := c.pid])
    else FailMap(detached)
  }

  function ForkStep(s: State, c: Ctx, child: int, preOk: bool, installOk: bool, unknownOk: bool): State {
    var flags := ParentForkFlags(s, c);
    var armed := ArmChild(s, c, child, preOk);
    if !IsTracked(armed.filter, c.pid, c.tid) then armed
    else
      var followed := FollowChild(armed, c, child, installOk);
      var forked := LogLifecycle(followed, c, ForkEvent, c.pid, c.tid, ForkIdentity(flags, c.pid), child);
      if c.env.cfg.followForks then forked else ReportUnfollowed(forked, c, child, flags, unknownOk)
  }

  /** adopt_exec_task_tracking: the state afterwards and whether the task counts as tracked. */
  function Adopt(s: State, c: Ctx, oldTid: int, ok: bool): (State, bool) {
    if IsTracked(s.filter, c.pid, c.tid) then (s, true)
    else if oldTid == 0 || oldTid == c.tid || oldTid !in s.filter || !s.filter[oldTid].tracked then (s, false)
    else if ok then (s.(filter := s.filter[c.pid := s.filter[oldTid]] - {oldTid}), true)
    else (FailMap(s), false)
  }

  function ExecCompletion(s: State, c: Ctx): (r: State)
    ensures SameTracking(s, r)
  {
    if HasValid(s.core, c.task) && IsExec(s.core.storage[c.task].call.sysId) then
      var t := s.core.storage[c.task];
      Close(s, c, Found(t, t.call.tid, false), 0, None)
    else s
  }

  /** clear_pre_exec_filter followed by the disarm it allows. */
  function LeavePreExec(s: State, tid: int, clearOk: bool, disarmOk: bool): (r: State)
    ensures r == s.(filter := r.filter, arm := r.arm, mapFails := r.mapFails)
  {
    if !HasPreExec(s.filter, tid) then s
    else if !clearOk then FailMap(s)
    else
      var cleared := s.(filter := s.filter[tid := s.filter[tid].(preExec := false)]);
      if s.arm == 0 then cleared
      else if disarmOk then cleared.(arm := 0)
      else FailMap(cleared)
  }

  function ExecStep(s: State, c: Ctx, oldTid: int, adoptOk: bool, clearOk: bool, disarmOk: bool): State {
    var adopted := Adopt(s, c, oldTid, adoptOk);
    if !adopted.1 then adopted.0
    else
      var completed := ExecCompletion(LeavePreExec(adopted.0, c.tid, clearOk, disarmOk), c);
      LogLifecycle(completed, c, ExecEvent, c.pid, c.tid, oldTid, c.tid)
        .(pendingExec := completed.pendingExec - {c.pid})
  }

  function Disarm(s: State, pid: int, ok: bool): (r: State)
    ensures r == s.(arm := r.arm, mapFails := r.mapFails)
  {
    if s.arm != pid then s else if ok then s.(arm := 0) else FailMap(s)
  }

  /** clear_lifecycle_task_state: process-scoped for a leader, thread-scoped otherwise. */
  function Teardown(s: State, current: Task, pid: int, tid: int, disarmOk: bool): State {
    var cleared := ClearTask(s, current);
    var dropped := cleared.(
      filter := s.filter - {tid},
      attachRoots := s.attachRoots - {tid},
      forkFlags := s.forkFlags - {tid},
      unknownChildren := s.unknownChildren - {tid});
    if tid != pid then
      if pid in s.pendingExec && s.pendingExec[pid] == tid
      then dropped.(pendingExec := s.pendingExec - {pid}) else dropped
    else
      Disarm(dropped.(pendingExec := s.pendingExec - {pid}, mainExited := s.mainExited - {pid}), pid, disarmOk)
  }

  predicate IsReplacedLeader(s: State, pid: int, tid: int) {
    tid == pid && pid in s.pendingExec && s.pendingExec[pid] != pid
  }

  function TakeUnknown(s: State, c: Ctx): (r: State)
    ensures r == s.(core := r.core, unknownChildren := r.unknownChildren)
  {
    if c.tid !in s.unknownChildren then s
    else
      var parent := s.unknownChildren[c.tid];
      var taken := s.(unknownChildren := s.unknownChildren - {c.tid});
      if parent != 0 then LogLifecycle(taken, c, UnknownExit, parent, parent, c.tid, 0) else taken
  }

  function MarkExited(s: State, tid: int, ok: bool): (r: State)
    ensures r == s.(attachExited := r.attachExited, mapFails := r.mapFails)
  {
    if tid == 0 || tid !in s.attachRoots then s
    else if ok then s.(attachExited := s.attachExited + {tid})
    else FailMap(s)
  }

  function TaskExitStep(s: State, c: Ctx, code: int, markOk: bool, disarmOk: bool): State {
    var taken := TakeUnknown(s, c);
    if !IsTracked(taken.filter, c.pid, c.tid) then taken
    else if IsReplacedLeader(taken, c.pid, c.tid) then ClearTask(taken, c.task)
    else
      var torn := Teardown(MarkExited(taken, c.tid, markOk), c.task, c.pid, c.tid, disarmOk);
      LogLifecycle(torn, c, ExitedEvent, c.pid, c.tid, code, 0)
  }

  /** The freed thread is named by the tracepoint, but the pending record that is cleared
      belongs to whichever task happens to be current. */
  function FreeStep(s: State, c: Ctx, freed: int, disarmOk: bool): State {
    if freed == 0 || !IsTracked(s.filter, freed, freed) then s
    else LogLifecycle(Teardown(s, c.task, freed, freed, disarmOk), c, FreeEvent, freed, freed, freed, 0)
  }

  // ----- side channels -------------------------------------------------------------------

  predicate IsKvmRun(call: Call) { call.sysId == SYS_IOCTL && Arg(call.args, 1) == KVM_RUN_IOCTL }

  function KvmAux(reason: int, error: int): int {
    if error < 0 then 0 else KVM_EXIT_AUX_VALID + reason % KVM_EXIT_AUX_VALID
  }

  function KvmStep(s: State, c: Ctx, reason: int, error: int): State {
    if c.env.cfg.kvmExit && HasValid(s.core, c.task) && IsKvmRun(s.core.storage[c.task].call) then
      var t := s.core.storage[c.task];
      s.(core := SetAux(Note(s.core, KvmSeen(t.gen, reason, error)), c.task, KvmAux(reason, error)))
    else s
  }

  function RecvmsgStep(s: State, c: Ctx, ret: int, tails: set<Slot>): (r: State)
    ensures SameTracking(s, r)
  {
    if !(HasValid(s.core, c.task) && s.core.storage[c.task].call.sysId == SYS_RECVMSG && RecvmsgName in tails) then s
    else
      var t := s.core.storage[c.task];
      var named := if ret > 0 then Note(s.core, ExitFragment(t.gen, t.call, 0)) else s.core;
      if RecvmsgControl !in tails then s.(core := named)
      else
        var controlled := if ret >= 0 then Note(named, ExitFragment(t.gen, t.call, 1)) else named;
        if RecvmsgFinal !in tails then s.(core := controlled)
        else Close(s.(core := controlled), c, Found(t, c.tid, false), ret, None)
  }

  // ----- runs ----------------------------------------------------------------------------

  function Step(s: State, l: Label): State {
    match l
    case Enter(c, id, args, ei) => EnterStep(s, c, id, args, ei)
    case Exit(c, id, ret, xi) => ExitStep(s, c, id, ret, xi)
    case Fork(c, child, preOk, installOk, unknownOk) => ForkStep(s, c, child, preOk, installOk, unknownOk)
    case ExecDone(c, oldTid, adoptOk, clearOk, disarmOk) => ExecStep(s, c, oldTid, adoptOk, clearOk, disarmOk)
    case TaskExit(c, code, markOk, disarmOk) => TaskExitStep(s, c, code, markOk, disarmOk)
    case Free(c, freed, disarmOk) => FreeStep(s, c, freed, disarmOk)
    case Kvm(c, reason, error) => KvmStep(s, c, reason, error)
    case RecvmsgReturn(c, ret, tails) => RecvmsgStep(s, c, ret, tails)
  }

  function Run(s: State, labels: seq<Label>): State
    decreases |labels|
  {
    if labels == [] then s else Run(Step(s, labels[0]), labels[1..])
  }

  /** Nothing saved yet, nothing observed yet. */
  predicate Initial(s: State) {
    && s.core.log == Start
    && s.core.nextGen == 0
    && forall task :: task in s.core.storage ==> !s.core.storage[task].valid && s.core.storage[task].gen == 0
  }
}
