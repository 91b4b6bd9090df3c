/** The BPF programs themselves, on the data they really have.

    Task storage holds no generation, filter words are bit flags, records leave through a ring
    without generations, and path fragments share one scratch area. `Abs` relates that to the
    state of `Protocol`; generations and history are ghost. Every program refines its step, so
    what is proved about runs of steps holds of `TraceAll`, stated there about the ring. A tail
    call that goes through is a call followed by `return`: control never comes back. */
module Tracer {
  import opened Abi
  import opened PendingCore
  import opened Protocol
  import opened UserMemory
  import opened Tlv
  import opened FdPaths
  import opened Collectors
  import opened Programs
  import DentryWalk
  import Generations

  class Maps {
    var storage: map<Task, Pending>
    var filter: map<int, Word>
    var pendingExec: map<int, int>
    var mainExited: set<int>
    var attachRoots: set<int>
    var attachExited: set<int>
    var forkFlags: map<int, int>
    var unknownChildren: map<int, int>
    var arm: int
    var orphans: nat
    var mismatches: nat
    var mapFails: nat
    var saveFails: nat
    var ring: seq<Event>
    var paths: seq<seq<Byte>>
    const scratch: Scratch
    const components: array<int>
    ghost var gens: map<Task, nat>
    ghost var nextGen: nat
    ghost var log: History

    constructor (filter: map<int, Word>, attachRoots: set<int>, arm: int, scratch: Scratch, components: array<int>)
      requires scratch.Valid() && components.Length == DentryWalk.DENTRY_MAX && scratch.fdset as object != components
      ensures Valid() && Initial(Abs()) && ring == [] && Abs().filter == Flagged(filter)
      ensures this.scratch == scratch && this.components == components
    {
      storage, gens, nextGen, log, ring, paths := map[], map[], 0, Start, [], [];
      this.filter, this.attachRoots, this.arm := filter, attachRoots, arm;
      pendingExec, mainExited, attachExited, forkFlags, unknownChildren := map[], {}, {}, map[], map[];
      orphans, mismatches, mapFails, saveFails := 0, 0, 0, 0;
      this.scratch, this.components := scratch, components;
    }

    /** The ring holds what the history shows, and the scratch area is in order. */
    ghost predicate Valid()
      reads this, scratch
    {
      ring == Shown(log) && scratch.Valid() && components.Length == DentryWalk.DENTRY_MAX &&
          scratch.fdset as object != components
    }

    ghost function Abs(): State
      reads this
    {
      State(Core(Stamped(storage, gens), nextGen, log), Flagged(filter), pendingExec, mainExited, attachRoots,
          attachExited,
            forkFlags, unknownChildren, arm, orphans, mismatches, mapFails, saveFails)
    }

    ghost function Gen(task: Task): nat
      reads this
    {
      GenOf(gens, task)
    }

    ghost function Seen(task: Task, l: Lookup): Found
      reads this
    {
      Found(Stamp(l.p, Gen(task)), l.pendingTid, l.viaExec)
    }

    /** A record leaves through the ring. */
    method Emit(e: Event, ghost effect: Effect)
      requires Valid() && ShownBy(effect) == [e]
      modifies this`ring, this`log
      ensures Valid() && Abs() == Log(old(Abs()), effect)
    {
      ring := ring + [e];
      log := Then(log, effect);
    }

    /** Something happened to a generation; no program can tell. */
    method Mark(ghost effect: Effect)
      requires Valid() && ShownBy(effect) == []
      modifies this`log
      ensures Valid() && Abs() == Log(old(Abs()), effect)
    {
      log := Then(log, effect);
    }

    method FailUpdate()
      requires Valid()
      modifies this`mapFails
      ensures Valid() && Abs() == FailMap(old(Abs()))
    {
      mapFails := mapFails + 1;
    }

    /** Overwrites the task's storage in place; its generation stays. */
    method PutPending(task: Task, p: Pending)
      requires Valid() && task in storage
      modifies this`storage
      ensures Valid() && storage == old(storage)[task := p]
      ensures Abs().core == old(Abs()).core.(storage := old(Abs()).core.storage[task := Stamp(p, Gen(task))])
    {
      PutStamped(storage, gens, task, p, Gen(task));
      storage := storage[task := p];
    }

    /** clear_pending_task_state */
    method ClearPending(task: Task)
      requires Valid()
      modifies this`storage, this`log
      ensures Valid() && Abs() == ClearTask(old(Abs()), task)
    {
      if task in storage {
        var p := storage[task];
        PutPending(task, p.(aux0 := 0, valid := false));
        if p.valid {
          Mark(Retired(Gen(task)));
        }
      }
    }

    /** A new record, under the next generation */
    method PutFresh(task: Task, call: Call)
      requires Valid()
      modifies this`storage, this`gens, this`nextGen, this`log
      ensures Valid()
      ensures var k := old(Abs()).core;
        Abs().core == Core(k.storage[task := TaskState(call, 0, true, k.nextGen)], k.nextGen +
            1, Then(k.log, Saved(k.nextGen, call)))
    {
      hide Stamped, Flagged, Shown;
      PutStamped(storage, gens, task, Pending(call, 0, true), nextGen);
      storage := storage[task := Pending(call, 0, true)];
      gens, nextGen := gens[task := nextGen], nextGen + 1;
      Mark(Saved(nextGen - 1, call));
    }

    /** save_pending_syscall_args */
    method SavePending(c: Ctx, id: int, args: seq<int>, created: bool) returns (saved: bool)
      requires Valid()
      modifies this`storage, this`gens, this`nextGen, this`log, this`saveFails
      ensures Valid() && Abs() == SaveCall(old(Abs()), c, id, args, created)
      ensures saved == CanSave(old(Abs()), c.task, created)
    {
      hide Stamped, Flagged, Shown;
      StampedAt(storage, gens, c.task);
      if !created && c.task !in storage {
        saveFails := saveFails + 1;
        return false;
      }
      if c.task in storage && storage[c.task].valid {
        Mark(Overwritten(Gen(c.task)));
      }
      PutFresh(c.task, Call(c.pid, c.tid, id, args));
      return true;
    }

    /** save_pending_syscall_aux */
    method SavePendingAux(task: Task, value: int)
      requires Valid()
      modifies this`storage, this`log, this`saveFails
      ensures Valid() && Abs() == SaveAux(old(Abs()), task, value)
    {
      if task !in storage || !storage[task].valid {
        saveFails := saveFails + 1;
        return;
      }
      PutPending(task, storage[task].(aux0 := value));
      Mark(AuxSet(Gen(task), value));
    }

    /** lookup_lifecycle_task_filter_flags: the process word first, then the thread's. */
    method LookupFilter(pid: int, tid: int) returns (word: Option<Word>)
      requires Valid()
      ensures TaskFlags(Abs().filter, pid, tid) == if word.None? then None else Some(Decode(word.value))
    {
      if pid in filter && filter[pid] & TRACKED != 0 {
        return Some(filter[pid]);
      }
      if tid != pid && tid in filter && filter[tid] & TRACKED != 0 {
        return Some(filter[tid]);
      }
      return None;
    }

    method Tracked(pid: int, tid: int) returns (yes: bool)
      requires Valid()
      ensures yes == IsTracked(Abs().filter, pid, tid)
    {
      var word := LookupFilter(pid, tid);
      return word.Some?;
    }

    // ----- exit ----------------------------------------------------------------------------

    /** lookup_pending_syscall_for_exit */
    method LookupPending(c: Ctx, ret: int) returns (found: Option<Lookup>)
      requires Valid()
      ensures LookupForExit(Abs(), c, ret) == if found.None? then None else Some(Seen(c.task, found.value))
      ensures found.Some? ==> c.task in storage && found.value.p == storage[c.task]
    {
      if c.task !in storage || !storage[c.task].valid {
        return None;
      }
      var p := storage[c.task];
      if p.call.tid == c.tid {
        return Some(Lookup(p, c.tid, false));
      }
      if ret == 0 && IsExec(p.call.sysId) {
        if c.pid in pendingExec && pendingExec[c.pid] == p.call.tid {
          return Some(Lookup(p, pendingExec[c.pid], true));
        }
      }
      return Some(Lookup(p, c.tid, false));
    }

    /** record_unmatched_exit_if_needed */
    method RecordUnmatched(c: Ctx, id: int, ret: int)
      requires Valid()
      modifies this`orphans
      ensures Valid() && Abs() == Unmatched(old(Abs()), c, id, ret)
    {
      var tracked := Tracked(c.pid, c.tid);
      if !tracked || c.tid in attachExited {
        return;
      }
      if !Dispatched(c.env.cfg, id) || IsExpectedUnmatched(id, ret) {
        return;
      }
      orphans := orphans + 1;
    }

    /** validate_pending_syscall_exit */
    method Validate(c: Ctx, l: Lookup, id: int) returns (ok: bool)
      requires Valid()
      modifies this`storage, this`log, this`mismatches, this`pendingExec
      ensures Valid() && ok == Matches(Seen(c.task, l), id)
      ensures Abs() == if ok then old(Abs()) else Mismatch(old(Abs()), c)
      ensures ok ==> storage == old(storage)
    {
      if l.p.call.sysId == id && l.p.call.tid == l.pendingTid {
        return true;
      }
      mismatches := mismatches + 1;
      ClearPending(c.task);
      pendingExec := pendingExec - {c.pid};
      return false;
    }

    /** EXIT_PROLOGUE */
    method BeginExit(c: Ctx, id: int, ret: int) returns (found: Option<Lookup>)
      requires Valid()
      modifies this`storage, this`log, this`mismatches, this`pendingExec, this`orphans
      ensures Valid()
      ensures Prologue(old(Abs()), c, id, ret) == (Abs(), if found.None? then None else Some(Seen(c.task, found.value)))
      ensures found.Some? ==> c.task in storage && found.value.p == storage[c.task] && Abs() == old(Abs())
    {
      found := LookupPending(c, ret);
      if found.None? {
        RecordUnmatched(c, id, ret);
        return;
      }
      var ok := Validate(c, found.value, id);
      if !ok {
        found := None;
      }
    }

    /** consume_pending_syscall */
    method Consume(c: Ctx, l: Lookup)
      requires Valid()
      modifies this`storage, this`log, this`pendingExec, this`mainExited
      ensures Valid() && Abs() == ConsumeMaps(ClearTask(old(Abs()), c.task), c, old(Seen(c.task, l)))
    {
      ClearPending(c.task);
      if l.viaExec {
        pendingExec := pendingExec - {c.pid};
        mainExited := mainExited - {c.pid};
      } else if IsExec(l.p.call.sysId) && l.pendingTid != l.p.call.pid {
        pendingExec := pendingExec - {c.pid};
      }
    }

    /** The completed exit event of the pending call, then consume. */
    method Finish(c: Ctx, l: Lookup, ret: int, kvm: Option<int>)
      requires Valid() && HasValid(Abs().core, c.task) && l.p == storage[c.task]
      modifies this`storage, this`log, this`ring, this`pendingExec, this`mainExited
      ensures Valid() && Abs() == Close(old(Abs()), c, old(Seen(c.task, l)), ret, kvm)
    {
      Emit(Exited(l.p.call, ret, kvm), ExitEvent(Gen(c.task), l.p.call, ret, kvm));
      Consume(c, l);
    }

    /** The handlers that complete with one event, and the dispatcher's fallback */
    method ExitPlain(c: Ctx, id: int, ret: int, xi: ExitInput)
      requires Valid()
      modifies this
      ensures Valid() && Abs() == RunExit(old(Abs()), c, Plain, id, ret, xi)
    {
      hide RunExit, Close, Shown, Flagged;
      SimpleExit(Abs(), c, Plain, id, ret, xi);
      var found := BeginExit(c, id, ret);
      if found.Some? {
        Finish(c, found.value, ret, None);
      }
    }

    /** exit_control: an ioctl may carry the KVM exit reason kept in aux0. */
    method ExitControl(c: Ctx, id: int, ret: int, xi: ExitInput)
      requires Valid()
      modifies this
      ensures Valid() && Abs() == RunExit(old(Abs()), c, Control, id, ret, xi)
    {
      hide RunExit, Close, Shown, Flagged;
      SimpleExit(Abs(), c, Control, id, ret, xi);
      var found := BeginExit(c, id, ret);
      if found.Some? {
        var p := found.value.p;
        Finish(c, found.value, ret, KvmReason(TaskState(p.call, p.aux0, p.valid, 0), ret));
      }
    }

    method ExitGuardBefore(c: Ctx, family: set<int>, id: int, ret: int, xi: ExitInput)
      requires Valid()
      modifies this
      ensures Valid() && Abs() == RunExit(old(Abs()), c, GuardBefore(family), id, ret, xi)
    {
      hide RunExit, Close, Shown, Flagged;
      SimpleExit(Abs(), c, GuardBefore(family), id, ret, xi);
      if id !in family {
        return;
      }
      SimpleExit(Abs(), c, Plain, id, ret, xi);
      ExitPlain(c, id, ret, xi);
    }

    method ExitGuardAfter(c: Ctx, family: set<int>, id: int, ret: int, xi: ExitInput)
      requires Valid()
      modifies this
      ensures Valid() && Abs() == RunExit(old(Abs()), c, GuardAfter(family), id, ret, xi)
    {
      hide RunExit, Close, Shown, Flagged;
      SimpleExit(Abs(), c, GuardAfter(family), id, ret, xi);
      var found := BeginExit(c, id, ret);
      if found.None? || id !in family {
        return;
      }
      Finish(c, found.value, ret, None);
    }

    /** emit_nested_fd_path_fragment_event_v2_direct for candidate `k`: the path walk works in
        the scratch area the candidates live in. */
    method EmitPath(task: Task, call: Call, k: nat, w: World)
      requires Valid() && GoodWorld(w) && k < scratch.count
      modifies this`ring, this`log, this`paths, components
      ensures Valid() && Abs() == Log(old(Abs()), ExitFragment(Gen(task), call, k))
      ensures paths == old(paths) + PathPayloads(w, scratch.Fds(), k, k + 1)
    {
      hide EncodeAll, EncodeHeader, Encode, FdSection, Shown, Stamped, Flagged;
      var buf := new Byte[FD_SECTION_MAX];
      var fd := scratch.Fds()[k];
      var size := CaptureFdPath(buf, 0, components, w.vfs, NESTED_ARG_INDEX, w.files(fd));
      paths := paths + [buf[0..0 + size]];
      Emit(Part(call, k), ExitFragment(Gen(task), call, k));
    }

    /** exit_nested_fd_path0 to 3: link `k` reloads its context from the pending record and the
        scratch area, emits its fragment, and goes on or finishes. */
    method ExitPath(c: Ctx, id: int, ret: int, tails: set<Slot>, w: World, k: nat)
      requires Valid() && GoodWorld(w) && k < 4
      modifies this, components
      ensures Valid() && Abs() == PathLink(old(Abs()), c, id, ret, scratch.count, tails, k)
      ensures paths == old(paths) +
        if LinkRuns(old(Abs()), c, id, ret, scratch.count, k)
        then PathPayloads(w, scratch.Fds(), k, LastPath(false, k, scratch.count, tails)) else []
      decreases 4 - k
    {
      hide EncodeAll, FdSection, Shown, Flagged, Stamped, PathLink, Close, Prologue, PathPayloads;
      PathLinkUnfolds(Abs(), c, id, ret, scratch.count, tails, k);
      if !IsEpollWait(id) {
        return;
      }
      var found := BeginExit(c, id, ret);
      if found.None? || scratch.count == 0 || scratch.count > 4 || scratch.count <= k {
        return;
      }
      EmitPath(c.task, found.value.p.call, k, w);
      ghost var last := LastPath(false, k, scratch.count, tails);
      if k < 3 && scratch.count > k + 1 && NextPath(false, k) in tails {
        PathPayloadsFirst(w, scratch.Fds(), k, last);
        ExitPath(c, id, ret, tails, w, k + 1);
        return;
      }
      Finish(c, found.value, ret, None);
    }

    /** exit_io: the epoll collector fills the scratch area, then the chain runs over it. The
        fragments carry, in order, the paths of the fds the window holds, as many as links
        are reached. */
    method ExitIo(c: Ctx, id: int, ret: int, xi: ExitInput, w: World) returns (ghost nested: nat)
      requires Valid() && GoodWorld(w)
      modifies this, scratch, components
      ensures Valid() && nested <= 4 && Abs() == RunExit(old(Abs()), c, Io, id, ret, xi.(nested := nested))
      ensures var found := Prologue(old(Abs()), c, id, ret).1;
        var n := ExitFragments(Io, id, ret, xi.(nested := nested));
        if found.Some? && CollectsEpoll(c, id, found.value.state.call, ret)
        then var fds := EpollFds(w, found.value.state.call, ret);
            nested == |fds| && n <= |fds| && paths == old(paths) + PathPayloads(w, fds, 0, n)
        else paths == old(paths)
    {
      hide EncodeAll, FdSection, Shown, Flagged, Stamped, Window, Eligible, RunExit, PathLink, Close, PathPayloads;
      nested := 0;
      IoIsChain(Abs(), c, id, ret, xi.(nested := 0));
      var found := BeginExit(c, id, ret);
      if found.None? {
        return;
      }
      var call := found.value.p.call;
      if IsEpollWait(call.sysId) && ret > 0 {
        var count := scratch.CollectEpoll(w.memory, c.env.cfg.fdState, call.sysId, Arg(call.args, 1), ret);
        nested := count;
        LastPathIsPathLinks(count, xi.tails);
        IoIsChain(Abs(), c, id, ret, xi.(nested := nested));
        PathPayloadsFirst(w, scratch.Fds(), 0, 0);
        if count > 0 && ExitPath0 in xi.tails {
          ExitPath(c, id, ret, xi.tails, w, 0);
          return;
        }
      }
      Finish(c, found.value, ret, None);
    }

    /** exit_mmsg_final */
    method ExitMmsgFinal(c: Ctx, id: int, ret: int)
      requires Valid()
      modifies this
      ensures var p := Prologue(old(Abs()), c, id, ret);
        Abs() == if !IsMmsg(id) then old(Abs()) else if p.1.None?
            then p.0 else FinishFrom(old(Abs()), c, p.1.value, 0, 0, ret)
      ensures Valid()
    {
      if !IsMmsg(id) {
        return;
      }
      var found := BeginExit(c, id, ret);
      if found.Some? {
        Finish(c, found.value, ret, None);
      }
    }

    /** Two recvmmsg fragments, which emit nothing for a failed or empty call */
    method RecvmmsgFragments(task: Task, call: Call, first: nat, ret: int)
      requires Valid() && task in storage && storage[task].call == call
      modifies this`log, this`ring
      ensures Valid() && Abs() == old(Abs()).(
        core := Fragments(old(Abs()).core, old(Abs()).core.storage[task], first, if ret > 0 then first + 2 else first))
    {
      if ret > 0 {
        ghost var t := Stamp(storage[task], Gen(task));
        FragmentsFromFirst(Abs().core, t, first, first + 2);
        FragmentsFromFirst(Note(Abs().core, ExitFragment(t.gen, call, first)), t, first + 1, first + 2);
        Emit(Part(call, first), ExitFragment(Gen(task), call, first));
        Emit(Part(call, first + 1), ExitFragment(Gen(task), call, first + 1));
      }
    }

    /** exit_recvmmsg_base23 */
    method ExitRecvmmsgBase23(c: Ctx, id: int, ret: int, tails: set<Slot>)
      requires Valid()
      modifies this
      ensures var p := Prologue(old(Abs()), c, id, ret);
        Abs() ==
        if id != SYS_RECVMMSG then old(Abs())
        else if p.1.None? then p.0
        else FinishFrom(old(Abs()), c, p.1.value, 2, if ret > 0 then 4 else 2, ret)
      ensures Valid()
    {
      hide Shown, Flagged;
      if id != SYS_RECVMMSG {
        return;
      }
      var found := BeginExit(c, id, ret);
      if found.None? {
        return;
      }
      RecvmmsgFragments(c.task, found.value.p.call, 2, ret);
      if Slot.MmsgFinal in tails {
        ExitMmsgFinal(c, id, ret);
        return;
      }
      Finish(c, found.value, ret, None);
    }

    /** exit_recvmmsg_base01 */
    method ExitRecvmmsgBase01(c: Ctx, id: int, ret: int, xi: ExitInput)
      requires Valid()
      modifies this
      ensures Valid() && Abs() == RunExit(old(Abs()), c, ExitProg.RecvmmsgBase01, id, ret, xi)
    {
      hide Shown, Flagged, Close, FinishFrom, RunExit;
      if id != SYS_RECVMMSG {
        RunExitSkips(Abs(), c, id, ret, xi);
        return;
      }
      RecvmmsgIsChain(Abs(), c, ret, xi);
      var found := BeginExit(c, id, ret);
      if found.None? {
        return;
      }
      RecvmmsgFragments(c.task, found.value.p.call, 0, ret);
      if Slot.RecvmmsgBase23 in xi.tails {
        ExitRecvmmsgBase23(c, id, ret, xi.tails);
        return;
      }
      Finish(c, found.value, ret, None);
    }

    method RunExitProgram(c: Ctx, prog: ExitProg, id: int, ret: int, xi: ExitInput, w: World)
        returns (ghost nested: nat)
      requires Valid() && GoodWorld(w)
      modifies this, scratch, components
      ensures Valid() && nested <= 4 && Abs() == RunExit(old(Abs()), c, prog, id, ret, xi.(nested := nested))
    {
      hide RunExit, Shown, Flagged, Stamped;
      nested := 0;
      var none := xi.(nested := 0);
      match prog
      case Plain => ExitPlain(c, id, ret, none);
      case GuardBefore(family) => ExitGuardBefore(c, family, id, ret, none);
      case GuardAfter(family) => ExitGuardAfter(c, family, id, ret, none);
      case Control => ExitControl(c, id, ret, none);
      case Io => nested := ExitIo(c, id, ret, xi, w);
      case RecvmmsgBase01 => ExitRecvmmsgBase01(c, id, ret, none);
    }

    /** reject_unsupported_syscall_abi */
    method Reject(c: Ctx, id: int)
      requires Valid()
      modifies this`storage, this`log, this`ring, this`pendingExec
      ensures Valid() && Abs() == RejectAbi(old(Abs()), c, id)
    {
      ClearPending(c.task);
      pendingExec := pendingExec - {c.pid};
      Emit(Rejected(c.pid, c.tid, id), UnsupportedAbi(c.pid, c.tid, id));
    }

    /** trace_sys_exit */
    method TraceSysExit(c: Ctx, id: int, ret: int, xi: ExitInput, w: World) returns (ghost nested: nat)
      requires Valid() && GoodWorld(w)
      modifies this, scratch, components
      ensures Valid() && nested <= 4 && Abs() == ExitStep(old(Abs()), c, id, ret, xi.(nested := nested))
    {
      hide RunExit, Shown, Flagged, Stamped;
      nested := 0;
      if id < 0 {
        return;
      }
      var word := LookupFilter(c.pid, c.tid);
      if word.None? {
        return;
      }
      if !xi.native {
        Reject(c, id);
        return;
      }
      if id == SYS_RT_SIGRETURN || (word.value & PRE_EXEC != 0 && !IsExec(id)) {
        return;
      }
      if id == SYS_CLONE || id == SYS_CLONE3 {
        forkFlags := forkFlags - {c.tid};
      }
      if !Dispatched(c.env.cfg, id) {
        return;
      }
      if id in c.env.exitRoutes && ExitRoute in xi.tails {
        nested := RunExitProgram(c, c.env.exitRoutes[id], id, ret, xi, w);
        return;
      }
      ExitPlain(c, id, ret, xi.(nested := 0));
    }

    // ----- enter ---------------------------------------------------------------------------

    method EmitEnter(c: Ctx, id: int, part: nat)
      requires Valid()
      modifies this`log, this`ring
      ensures Valid() && Abs() == Log(old(Abs()), EnterCall(c.pid, c.tid, id, part))
    {
      Emit(Entered(c.pid, c.tid, id, part), EnterCall(c.pid, c.tid, id, part));
    }

    /** A handler that emits and saves; also emit_enter_dispatch_fallback */
    method EnterPlain(c: Ctx, id: int, args: seq<int>, ei: EnterInput) returns (saved: bool)
      requires Valid()
      modifies this`storage, this`gens, this`nextGen, this`log, this`ring, this`saveFails
      ensures Valid() && Abs() == EmitAndSave(old(Abs()), c, id, args, ei)
      ensures saved == CanSave(old(Abs()), c.task, ei.saveOk)
    {
      EmitEnter(c, id, 0);
      saved := SavePending(c, id, args, ei.saveOk);
    }

    method PutPendingExecEntry(c: Ctx, ok: bool)
      requires Valid()
      modifies this`pendingExec, this`mapFails
      ensures Valid() && Abs() == PutPendingExec(old(Abs()), c, ok)
    {
      if ok {
        pendingExec := pendingExec[c.pid := c.tid];
      } else {
        FailUpdate();
      }
    }

    method EnterTerminating(c: Ctx, id: int, ei: EnterInput)
      requires Valid()
      modifies this`log, this`ring, this`mainExited, this`mapFails
      ensures Valid() && Abs() == TerminatingEnter(old(Abs()), c, id, ei)
    {
      if c.tid == c.pid {
        if ei.mainOk {
          mainExited := mainExited + {c.pid};
        } else {
          FailUpdate();
        }
      }
      EmitEnter(c, id, 0);
      Emit(Terminated(c.pid, c.tid, id), TerminatingExit(c.pid, c.tid, id));
    }

    method EnterExec(c: Ctx, id: int, args: seq<int>, ei: EnterInput)
      requires Valid()
      modifies this
      ensures Valid() && Abs() == RunEnter(old(Abs()), c, Exec, id, args, ei)
    {
      hide Shown, Flagged, Stamped, EmitAndSave;
      var _ := EnterPlain(c, id, args, ei);
      if c.tid != c.pid {
        PutPendingExecEntry(c, ei.execOk);
      }
    }

    method EnterNetwork(c: Ctx, id: int, args: seq<int>, ei: EnterInput)
      requires Valid()
      modifies this
      ensures Valid() && Abs() == RunEnter(old(Abs()), c, Network, id, args, ei)
    {
      hide Shown, Flagged, Stamped, EmitAndSave, SaveAux;
      var sockaddrLen := if ei.aux.Some? then ei.aux.value else 0;
      var saved := EnterPlain(c, id, args, ei);
      if saved {
        SavePendingAux(c.task, sockaddrLen);
      }
    }

    method EnterBpfProgLoad(c: Ctx, id: int, args: seq<int>, ei: EnterInput)
      requires Valid()
      modifies this
      ensures var saved := EmitAndSave(old(Abs()), c, id, args, ei);
        Valid() && Abs() == Chain(saved, c, id, [Link(BpfProgLoadDebug, 1)], ei.tails, 1)
    {
      hide Shown, Flagged, Stamped, EmitAndSave;
      var _ := EnterPlain(c, id, args, ei);
      RunLink(c, id, BpfProgLoadDebug, ei.tails, true);
    }

    /** enter_bpf: the three sub-programs are tried before anything is emitted or saved. */
    method EnterBpf(c: Ctx, id: int, args: seq<int>, ei: EnterInput)
      requires Valid()
      modifies this
      ensures Valid() && Abs() == RunEnter(old(Abs()), c, Bpf, id, args, ei)
    {
      hide Shown, Flagged, Stamped, EmitAndSave, SaveAux, EmitChain;
      if ei.bpf.progLoad && BpfProgLoad in ei.tails {
        EnterBpfProgLoad(c, id, args, ei);
        return;
      }
      if ei.bpf.uprobeMulti && BpfUprobeMulti in ei.tails {
        var _ := EnterPlain(c, id, args, ei);
        return;
      }
      if ei.bpf.tracingMulti && BpfTracingMulti in ei.tails {
        var _ := EnterPlain(c, id, args, ei);
        return;
      }
      var _ := EnterPlain(c, id, args, ei);
      if ei.aux.Some? {
        SavePendingAux(c.task, ei.aux.value);
      }
    }

    /** A chain of one fragment program behind a guard */
    method RunLink(c: Ctx, id: int, slot: Slot, tails: set<Slot>, guard: bool)
      requires Valid()
      modifies this`log, this`ring
      ensures Valid() && Abs() == Chain(old(Abs()), c, id, if guard then [Link(slot, 1)] else [], tails, 1)
    {
      ChainFirst(Abs(), c, id, slot, 1, [], tails, 1);
      assert [Link(slot, 1)] + [] == [Link(slot, 1)];
      if guard && slot in tails {
        EmitEnter(c, id, 1);
      }
    }

    method EnterIovec(c: Ctx, id: int, args: seq<int>, ei: EnterInput)
      requires Valid()
      modifies this
      ensures Valid() && Abs() == RunEnter(old(Abs()), c, Iovec, id, args, ei)
    {
      hide Shown, Flagged, Stamped, EmitAndSave, EmitChain;
      var _ := EnterPlain(c, id, args, ei);
      RunLink(c, id, IovecBase, ei.tails, IsIovecBaseEnter(id));
    }

    method EnterMsg(c: Ctx, id: int, args: seq<int>, ei: EnterInput)
      requires Valid()
      modifies this
      ensures Valid() && Abs() == RunEnter(old(Abs()), c, Msg, id, args, ei)
    {
      hide Shown, Flagged, Stamped, EmitAndSave, SaveAux, EmitChain;
      var nameLen := if ei.aux.Some? then ei.aux.value else 0;
      var saved := EnterPlain(c, id, args, ei);
      if saved && id == SYS_RECVMSG {
        SavePendingAux(c.task, nameLen);
      }
      RunLink(c, id, SendmsgBase, ei.tails, id == SYS_SENDMSG);
    }

    method EnterAioIovec(c: Ctx, id: int, tails: set<Slot>)
      requires Valid()
      modifies this`log, this`ring
      ensures Valid() && Abs() ==
        if id != SYS_IO_SUBMIT then old(Abs()) else EnteredLink(old(Abs()), c, id, 1, 1, [Link(AioBuf, 1)], tails)
    {
      if id != SYS_IO_SUBMIT {
        return;
      }
      EmitEnter(c, id, 1);
      ChainFirst(Abs(), c, id, AioBuf, 1, [], tails, 2);
      assert [Link(AioBuf, 1)] + [] == [Link(AioBuf, 1)];
      if AioBuf in tails {
        EmitEnter(c, id, 2);
        return;
      }
    }

    method EnterAio(c: Ctx, id: int, args: seq<int>, ei: EnterInput)
      requires Valid()
      modifies this
      ensures Valid() && Abs() == RunEnter(old(Abs()), c, Aio, id, args, ei)
    {
      hide Shown, Flagged, Stamped, EmitAndSave;
      var _ := EnterPlain(c, id, args, ei);
      ChainFirst(Abs(), c, id, AioIovec, 1, [Link(AioBuf, 1)], ei.tails, 1);
      assert [Link(AioIovec, 1)] + [Link(AioBuf, 1)] == [Link(AioIovec, 1), Link(AioBuf, 1)];
      if id == SYS_IO_SUBMIT && AioIovec in ei.tails {
        EnterAioIovec(c, id, ei.tails);
        return;
      }
    }

    /** enter_mmsg_bytes0 to 3 */
    method EnterMmsgBytes(c: Ctx, id: int, tails: set<Slot>, k: nat)
      requires Valid() && k < 4
      modifies this`log, this`ring
      ensures Valid() && Abs() ==
        if id != SYS_SENDMMSG then old(Abs()) else EnteredLink(old(Abs()), c, id, 5 + k, 1, BytesLinks(k + 1), tails)
      decreases 4 - k
    {
      if id != SYS_SENDMMSG {
        return;
      }
      EmitEnter(c, id, 5 + k);
      if k < 3 {
        ChainFirst(Abs(), c, id, BytesSlot(k + 1), 1, BytesLinks(k + 2), tails, 6 + k);
        if BytesSlot(k + 1) in tails {
          EnterMmsgBytes(c, id, tails, k + 1);
          return;
        }
      }
    }

    method EnterMmsgBase3(c: Ctx, id: int, tails: set<Slot>)
      requires Valid()
      modifies this`log, this`ring
      ensures Valid() && Abs() ==
        if !IsMmsg(id) then old(Abs()) else EnteredLink(old(Abs()), c, id, 4, 1, AfterBase3(id), tails)
    {
      if !IsMmsg(id) {
        return;
      }
      EmitEnter(c, id, 4);
      ChainFirst(Abs(), c, id, MmsgBytes0, 1, BytesLinks(1), tails, 5);
      if id == SYS_SENDMMSG && MmsgBytes0 in tails {
        EnterMmsgBytes(c, id, tails, 0);
        return;
      }
    }

    method EnterMmsgBase2(c: Ctx, id: int, tails: set<Slot>)
      requires Valid()
      modifies this`log, this`ring
      ensures Valid() && Abs() ==
        if !IsMmsg(id) then old(Abs()) else EnteredLink(old(Abs()), c, id, 3, 1, AfterBase2(id), tails)
    {
      if !IsMmsg(id) {
        return;
      }
      EmitEnter(c, id, 3);
      ChainFirst(Abs(), c, id, MmsgBase3, 1, AfterBase3(id), tails, 4);
      if MmsgBase3 in tails {
        EnterMmsgBase3(c, id, tails);
        return;
      }
    }

    method EnterMmsgBase01(c: Ctx, id: int, tails: set<Slot>)
      requires Valid()
      modifies this`log, this`ring
      ensures Valid() && Abs() ==
        if !IsMmsg(id) then old(Abs()) else EnteredLink(old(Abs()), c, id, 1, 2, AfterBase01(id), tails)
    {
      if !IsMmsg(id) {
        return;
      }
      EmitEnter(c, id, 1);
      EmitEnter(c, id, 2);
      ChainFirst(Abs(), c, id, MmsgBase2, 1, AfterBase2(id), tails, 3);
      if MmsgBase2 in tails {
        EnterMmsgBase2(c, id, tails);
        return;
      }
    }

    method EnterMmsg(c: Ctx, id: int, args: seq<int>, ei: EnterInput)
      requires Valid()
      modifies this
      ensures Valid() && Abs() == RunEnter(old(Abs()), c, Mmsg, id, args, ei)
    {
      hide Shown, Flagged, Stamped, EmitAndSave;
      var _ := EnterPlain(c, id, args, ei);
      ghost var saved := Abs();
      if MmsgBase01 in ei.tails {
        EnterMmsgBase01(c, id, ei.tails);
      }
      if IsMmsg(id) {
        MmsgChainIs(id);
        ChainFirst(saved, c, id, MmsgBase01, 2, AfterBase01(id), ei.tails, 1);
      }
    }

    /** enter_nested_fd_path0 to 3: link `k` checks that the record is this call's, emits its
        fragment and goes on; it never touches pending state. */
    method EnterNestedPath(c: Ctx, id: int, tails: set<Slot>, w: World, k: nat)
      requires Valid() && GoodWorld(w) && k < 4
      modifies this`log, this`ring, this`paths, components
      ensures Valid() && Abs() == EnterPathLink(old(Abs()), c, id, scratch.count, tails, k)
      ensures paths == old(paths) +
        if EnterLinkRuns(old(Abs()), c, id, scratch.count, k)
        then PathPayloads(w, scratch.Fds(), k, LastPath(true, k, scratch.count, tails)) else []
      decreases 4 - k
    {
      hide EncodeAll, FdSection, Shown, Flagged, Stamped, EnterPathLink, PathPayloads;
      EnterPathLinkUnfolds(Abs(), c, id, scratch.count, tails, k);
      StampedAt(storage, gens, c.task);
      if (id != SYS_SELECT && !IsPoll(id)) || !c.env.cfg.fdState || c.task !in storage || !storage[c.task].valid {
        return;
      }
      var call := storage[c.task].call;
      if call.pid != c.pid || call.tid != c.tid || call.sysId != id {
        return;
      }
      if scratch.count == 0 || scratch.count > 4 || scratch.count <= k {
        return;
      }
      EmitPath(c.task, call, k, w);
      PathPayloadsFirst(w, scratch.Fds(), k, LastPath(true, k, scratch.count, tails));
      if k < 3 && scratch.count > k + 1 && NextPath(true, k) in tails {
        EnterNestedPath(c, id, tails, w, k + 1);
      }
    }

    /** Emit, save, and run the path chain over the candidates `fds` */
    method EnterCollected(c: Ctx, id: int, args: seq<int>, ei: EnterInput, w: World, ghost fds: seq<int>)
      requires Valid() && GoodWorld(w) && |fds| == ei.nested
      requires (ei.nested > 0 ==> c.env.cfg.fdState && fds == scratch.Fds())
      modifies this, components
      ensures Valid() && Abs() == EnterPaths(EmitAndSave(old(Abs()), c, id, args, ei), c, id, ei)
      ensures paths == old(paths) + EnterPayloads(w, EmitAndSave(old(Abs()), c, id, args, ei), c, id, fds, ei.tails)
    {
      hide EncodeAll, FdSection, Shown, Flagged, Stamped, PathPayloads, EmitAndSave, EnterPaths, EnterPathLink;
      var _ := EnterPlain(c, id, args, ei);
      EnterPathsIsChain(old(Abs()), c, id, args, ei);
      if ei.nested > 0 && EnterPath0 in ei.tails {
        EnterNestedPath(c, id, ei.tails, w, 0);
      }
    }

    method CollectPollFds(c: Ctx, id: int, args: seq<int>, w: World) returns (count: nat)
      requires Valid() && Arg(args, 1) >= 0
      modifies scratch
      ensures Valid() && count == |PollFds(w, c.env.cfg, id, args)| <= 4
      ensures count > 0 ==> c.env.cfg.fdState && scratch.Fds() == PollFds(w, c.env.cfg, id, args)
    {
      hide Window, Eligible, Shown;
      if !c.env.cfg.fdState {
        return 0;
      }
      count := scratch.CollectPoll(w.memory, id, Arg(args, 0), Arg(args, 1));
    }

    /** enter_poll: the fragments carry the paths of the window's fds. */
    method EnterPoll(c: Ctx, id: int, args: seq<int>, ei: EnterInput, w: World) returns (ghost nested: nat)
      requires Valid() && GoodWorld(w) && Arg(args, 1) >= 0
      modifies this, scratch, components
      ensures Valid() && nested <= 4 && Abs() == RunEnter(old(Abs()), c, Poll, id, args, ei.(nested := nested))
      ensures nested == |PollFds(w, c.env.cfg, id, args)|
      ensures paths == old(paths) +
        EnterPayloads(w, EmitAndSave(old(Abs()), c, id, args, ei), c, id, PollFds(w, c.env.cfg, id, args), ei.tails)
    {
      hide EmitAndSave, EnterPaths, RunEnter, EnterPayloads, PollFds, Shown, Stamped, Flagged;
      var count := CollectPollFds(c, id, args, w);
      nested := count;
      EnterIgnoresNested(Abs(), c, id, args, ei, count);
      PathsProgram(Abs(), c, id, args, ei.(nested := count));
      EnterCollected(c, id, args, ei.(nested := count), w, PollFds(w, c.env.cfg, id, args));
    }

    method CollectSelectFds(c: Ctx, id: int, args: seq<int>, w: World) returns (count: nat)
      requires Valid()
      modifies scratch, scratch.fdset
      ensures Valid() && count == |SelectFds(w, c.env.cfg, args)| <= 4
      ensures count > 0 ==> c.env.cfg.fdState && scratch.Fds() == SelectFds(w, c.env.cfg, args)
    {
      hide FirstDistinct, FdsOf, Shown;
      if !c.env.cfg.fdState {
        return 0;
      }
      count := scratch.CollectSelect(w.memory, Arg(args, 0), Arg(args, 1), Arg(args, 2), Arg(args, 3));
    }

    /** enter_select: the fragments carry the paths of the first four distinct fds. */
    method EnterSelect(c: Ctx, id: int, args: seq<int>, ei: EnterInput, w: World) returns (ghost nested: nat)
      requires Valid() && GoodWorld(w)
      modifies this, scratch, scratch.fdset, components
      ensures Valid() && nested <= 4 && Abs() == RunEnter(old(Abs()), c, Select, id, args, ei.(nested := nested))
      ensures nested == |SelectFds(w, c.env.cfg, args)|
      ensures paths == old(paths) +
        EnterPayloads(w, EmitAndSave(old(Abs()), c, id, args, ei), c, id, SelectFds(w, c.env.cfg, args), ei.tails)
    {
      hide EmitAndSave, EnterPaths, RunEnter, EnterPayloads, SelectFds, Shown, Stamped, Flagged;
      var count := CollectSelectFds(c, id, args, w);
      nested := count;
      EnterIgnoresNested(Abs(), c, id, args, ei, count);
      PathsProgram(Abs(), c, id, args, ei.(nested := count));
      EnterCollected(c, id, args, ei.(nested := count), w, SelectFds(w, c.env.cfg, args));
    }

    method RunEnterProgram(c: Ctx, prog: EnterProg, id: int, args: seq<int>, ei: EnterInput, w: World)
        returns (ghost nested: nat)
      requires Valid() && GoodWorld(w) && Arg(args, 1) >= 0
      modifies this, scratch, scratch.fdset, components
      ensures Valid() && nested <= 4 && Abs() == RunEnter(old(Abs()), c, prog, id, args, ei.(nested := nested))
    {
      hide EmitAndSave, TerminatingEnter, BpfEnter, EnterPaths, EmitChain, EnterChain, SaveAux, Shown, Stamped, Flagged;
      nested := 0;
      var none := ei.(nested := 0);
      match prog
      case Simple =>
        var _ := EnterPlain(c, id, args, none);
        EnterChainNone(Abs(), c, id, none);
      case Guarded(family) =>
        if id in family {
          var _ := EnterPlain(c, id, args, none);
        }
      case Terminating => EnterTerminating(c, id, none);
      case Exec => EnterExec(c, id, args, none);
      case Network => EnterNetwork(c, id, args, none);
      case Bpf => EnterBpf(c, id, args, none);
      case Iovec => EnterIovec(c, id, args, none);
      case Msg => EnterMsg(c, id, args, none);
      case Mmsg => EnterMmsg(c, id, args, none);
      case Aio => EnterAio(c, id, args, none);
      case Poll => nested := EnterPoll(c, id, args, ei, w);
      case Select => nested := EnterSelect(c, id, args, ei, w);
    }

    /** arm_pending_exec_replacement */
    method ArmPendingExec(c: Ctx, id: int, ok: bool)
      requires Valid()
      modifies this`pendingExec, this`mapFails
      ensures Valid() && Abs() == ArmExec(old(Abs()), c, id, ok)
    {
      var tracked := Tracked(c.pid, c.tid);
      if !IsExec(id) || c.tid == c.pid || !tracked {
        return;
      }
      PutPendingExecEntry(c, ok);
    }

    /** capture_pending_fork_flags */
    method CapturePendingForkFlags(c: Ctx, id: int, args: seq<int>, ei: EnterInput)
      requires Valid()
      modifies this`forkFlags, this`mapFails
      ensures Valid() && Abs() == CaptureForkFlags(old(Abs()), c, id, args, ei)
    {
      var flags := 0;
      if id == SYS_CLONE {
        flags := Arg(args, 0);
      } else if id == SYS_CLONE3 {
        if Arg(args, 0) == 0 || ei.clone3Flags.None? {
          return;
        }
        flags := ei.clone3Flags.value;
      } else {
        return;
      }
      if ei.forkOk {
        forkFlags := forkFlags[c.tid := flags];
      } else {
        FailUpdate();
      }
    }

    /** The rest of trace_sys_enter once the filters have let the edge through */
    method DispatchEnter(c: Ctx, id: int, args: seq<int>, ei: EnterInput, w: World) returns (ghost nested: nat)
      requires Valid() && GoodWorld(w) && Arg(args, 1) >= 0
      modifies this, scratch, scratch.fdset, components
      ensures Valid() && nested <= 4 && Abs() == HandOver(old(Abs()), c, id, args, ei.(nested := nested))
    {
      hide RunEnter, EmitAndSave, CaptureForkFlags, Dispatched, Shown, Stamped, Flagged;
      nested := 0;
      var none := ei.(nested := 0);
      CapturePendingForkFlags(c, id, args, none);
      if !Dispatched(c.env.cfg, id) {
        return;
      }
      if id in c.env.enterRoutes && EnterRoute in ei.tails {
        nested := RunEnterProgram(c, c.env.enterRoutes[id], id, args, ei, w);
        EnterIgnoresNested(old(Abs()), c, id, args, ei, nested);
        return;
      }
      var _ := EnterPlain(c, id, args, none);
    }

    /** trace_sys_enter */
    method TraceSysEnter(c: Ctx, id: int, args: seq<int>, ei: EnterInput, w: World) returns (ghost nested: nat)
      requires Valid() && GoodWorld(w) && Arg(args, 1) >= 0
      modifies this, scratch, scratch.fdset, components
      ensures Valid() && nested <= 4 && Abs() == EnterStep(old(Abs()), c, id, args, ei.(nested := nested))
    {
      hide EnterStep, HandOver, ArmExec, RejectAbi, TaskFlags, Shown, Stamped, Flagged;
      nested := 0;
      EnterHandsOver(Abs(), c, id, args, ei.(nested := 0));
      var word := LookupFilter(c.pid, c.tid);
      if word.None? {
        return;
      }
      if !ei.native {
        Reject(c, id);
        return;
      }
      if id == SYS_RT_SIGRETURN {
        return;
      }
      ArmPendingExec(c, id, ei.armOk);
      if word.value & PRE_EXEC != 0 && !IsExec(id) {
        return;
      }
      nested := DispatchEnter(c, id, args, ei, w);
      EnterHandsOver(old(Abs()), c, id, args, ei.(nested := nested));
    }

    // ----- lifecycle -----------------------------------------------------------------------

    /** emit_lifecycle_event */
    method EmitLifecycle(c: Ctx, kind: LifecycleKind, pid: int, tid: int, arg0: int, arg1: int)
      requires Valid()
      modifies this`log, this`ring
      ensures Valid() && Abs() == LogLifecycle(old(Abs()), c, kind, pid, tid, arg0, arg1)
    {
      if c.env.cfg.emitLifecycle {
        Emit(Life(kind, pid, tid, arg0, arg1), Lifecycle(kind, pid, tid, arg0, arg1));
      }
    }

    method UpdateFilter(tid: int, word: Word, ok: bool)
      requires Valid()
      modifies this`filter, this`mapFails
      ensures Valid() && Abs() == PutFilter(old(Abs()), tid, Decode(word), ok)
    {
      if ok {
        PutFlagged(filter, tid, word);
        filter := filter[tid := word];
      } else {
        FailUpdate();
      }
    }

    method DeleteFilter(tid: int)
      requires Valid()
      modifies this`filter
      ensures Valid() && Abs().filter == old(Abs()).filter - {tid}
    {
      PutFlagged(filter, tid, 0);
      filter := filter - {tid};
    }

    /** The announcement of a child that is not followed */
    method ReportChild(c: Ctx, child: int, flags: int, ok: bool)
      requires Valid()
      modifies this`log, this`ring, this`unknownChildren, this`mapFails
      ensures Valid() && Abs() == ReportUnfollowed(old(Abs()), c, child, flags, ok)
    {
      if HasBit(flags, CLONE_PTRACE_BIT) {
        EmitLifecycle(c, UnknownDetach, c.pid, c.tid, child, 0);
      }
      if HasBit(flags, CLONE_PARENT_BIT) {
        if ok {
          unknownChildren := unknownChildren[child := c.pid];
        } else {
          FailUpdate();
        }
      }
    }

    /** install_tracked_filter: a PRE_EXEC bit that is there stays. */
    method InstallTracked(tid: int, ok: bool)
      requires Valid()
      modifies this`filter, this`mapFails
      ensures Valid() && Abs() == PutFilter(old(Abs()), tid, Flags(true, HasPreExec(old(Abs()).filter, tid)), ok)
    {
      var word := TRACKED;
      WordFlags(word);
      if tid in filter {
        WordFlags(filter[tid]);
        word := word | (filter[tid] & PRE_EXEC);
      }
      UpdateFilter(tid, word, ok);
    }

    /** trace_sched_process_fork */
    method TraceFork(c: Ctx, child: int, preOk: bool, installOk: bool, unknownOk: bool)
      requires Valid()
      modifies this
      ensures Valid() && Abs() == ForkStep(old(Abs()), c, child, preOk, installOk, unknownOk)
    {
      hide Shown, Stamped, Flagged, Decode, TaskFlags, HasPreExec;
      var flags := if c.tid in forkFlags then forkFlags[c.tid] else 0;
      if arm != 0 && arm == c.pid {
        WordFlags(0);
        UpdateFilter(child, TRACKED | PRE_EXEC, preOk);
      }
      var tracked := Tracked(c.pid, c.tid);
      if !tracked {
        return;
      }
      if c.env.cfg.followForks {
        InstallTracked(child, installOk);
      }
      EmitLifecycle(c, ForkEvent, c.pid, c.tid, ForkIdentity(flags, c.pid), child);
      if !c.env.cfg.followForks {
        ReportChild(c, child, flags, unknownOk);
      }
    }

    /** adopt_exec_task_tracking: the whole word moves from the old thread to the process. */
    method AdoptTracking(c: Ctx, oldTid: int, ok: bool) returns (tracked: bool)
      requires Valid()
      modifies this`filter, this`mapFails
      ensures Valid() && (Abs(), tracked) == Adopt(old(Abs()), c, oldTid, ok)
    {
      tracked := Tracked(c.pid, c.tid);
      if tracked || oldTid == 0 || oldTid == c.tid || oldTid !in filter {
        return;
      }
      var word := filter[oldTid];
      if word & TRACKED == 0 {
        return;
      }
      UpdateFilter(c.pid, word, ok);
      if ok {
        DeleteFilter(oldTid);
      }
      return ok;
    }

    /** clear_pre_exec_filter, and the disarm that only its owner may do */
    method ClearPreExec(tid: int, clearOk: bool, disarmOk: bool)
      requires Valid()
      modifies this`filter, this`arm, this`mapFails
      ensures Valid() && Abs() == LeavePreExec(old(Abs()), tid, clearOk, disarmOk)
    {
      if tid !in filter || filter[tid] & PRE_EXEC == 0 {
        return;
      }
      WordFlags(filter[tid]);
      UpdateFilter(tid, filter[tid] & !PRE_EXEC, clearOk);
      if clearOk && arm != 0 {
        if disarmOk {
          arm := 0;
        } else {
          FailUpdate();
        }
      }
    }

    /** emit_successful_exec_completion */
    method CompleteExec(c: Ctx)
      requires Valid()
      modifies this`storage, this`log, this`ring, this`pendingExec, this`mainExited
      ensures Valid() && Abs() == ExecCompletion(old(Abs()), c)
    {
      hide Shown, Flagged, Stamped, Close;
      StampedAt(storage, gens, c.task);
      if c.task !in storage || !storage[c.task].valid {
        return;
      }
      var p := storage[c.task];
      if !IsExec(p.call.sysId) {
        return;
      }
      Finish(c, Lookup(p, p.call.tid, false), 0, None);
    }

    /** trace_sched_process_exec */
    method TraceExec(c: Ctx, oldTid: int, adoptOk: bool, clearOk: bool, disarmOk: bool)
      requires Valid()
      modifies this
      ensures Valid() && Abs() == ExecStep(old(Abs()), c, oldTid, adoptOk, clearOk, disarmOk)
    {
      hide Shown, Flagged, Stamped, Adopt, LeavePreExec, ExecCompletion;
      var tracked := AdoptTracking(c, oldTid, adoptOk);
      if !tracked {
        return;
      }
      ClearPreExec(c.tid, clearOk, disarmOk);
      CompleteExec(c);
      EmitLifecycle(c, ExecEvent, c.pid, c.tid, oldTid, c.tid);
      pendingExec := pendingExec - {c.pid};
    }

    /** clear_armed_fork_parent */
    method ClearArmedParent(pid: int, ok: bool)
      requires Valid()
      modifies this`arm, this`mapFails
      ensures Valid() && Abs() == Disarm(old(Abs()), pid, ok)
    {
      if arm != pid {
        return;
      }
      if ok {
        arm := 0;
      } else {
        FailUpdate();
      }
    }

    /** The entries that go with a thread, whether or not it leads its group */
    method DropThread(tid: int)
      requires Valid()
      modifies this`filter, this`attachRoots, this`forkFlags, this`unknownChildren
      ensures Valid() && Abs().filter == old(Abs()).filter - {tid} && attachRoots == old(attachRoots) - {tid}
      ensures forkFlags == old(forkFlags) - {tid} && unknownChildren == old(unknownChildren) - {tid}
    {
      hide Shown, Stamped, Flagged;
      DeleteFilter(tid);
      attachRoots := attachRoots - {tid};
      forkFlags := forkFlags - {tid};
      unknownChildren := unknownChildren - {tid};
    }

    /** clear_process_lifecycle_state */
    method ClearProcess(pid: int, disarmOk: bool)
      requires Valid()
      modifies this`filter, this`attachRoots, this`pendingExec, this`mainExited, this`forkFlags, this`unknownChildren
      modifies this`arm, this`mapFails
      ensures Valid() && Abs() == ForgetProcess(old(Abs()), pid, disarmOk)
    {
      hide Shown, Flagged, Stamped;
      DropThread(pid);
      pendingExec := pendingExec - {pid};
      mainExited := mainExited - {pid};
      ClearArmedParent(pid, disarmOk);
    }

    /** clear_lifecycle_task_state: the pending record of whichever task is current goes. */
    method ClearLifecycle(current: Task, pid: int, tid: int, disarmOk: bool)
      requires Valid()
      modifies this
      ensures Valid() && Abs() == Teardown(old(Abs()), current, pid, tid, disarmOk)
    {
      hide Shown, Flagged, Stamped, ClearTask, Teardown, ForgetProcess;
      TeardownParts(Abs(), current, pid, tid, disarmOk);
      ClearPending(current);
      if tid != pid {
        if pid in pendingExec && pendingExec[pid] == tid {
          pendingExec := pendingExec - {pid};
        }
        DropThread(tid);
        return;
      }
      ClearProcess(pid, disarmOk);
    }

    /** take_unknown_child, and its announcement */
    method TakeUnknownChild(c: Ctx)
      requires Valid()
      modifies this`log, this`ring, this`unknownChildren
      ensures Valid() && Abs() == TakeUnknown(old(Abs()), c)
    {
      if c.tid !in unknownChildren {
        return;
      }
      var parent := unknownChildren[c.tid];
      unknownChildren := unknownChildren - {c.tid};
      if parent != 0 {
        EmitLifecycle(c, UnknownExit, parent, parent, c.tid, 0);
      }
    }

    /** mark_attach_task_exited */
    method MarkAttachExited(tid: int, ok: bool)
      requires Valid()
      modifies this`attachExited, this`mapFails
      ensures Valid() && Abs() == MarkExited(old(Abs()), tid, ok)
    {
      if tid == 0 || tid !in attachRoots {
        return;
      }
      if ok {
        attachExited := attachExited + {tid};
      } else {
        FailUpdate();
      }
    }

    /** trace_sched_process_exit */
    method TraceExit(c: Ctx, code: int, markOk: bool, disarmOk: bool)
      requires Valid()
      modifies this
      ensures Valid() && Abs() == TaskExitStep(old(Abs()), c, code, markOk, disarmOk)
    {
      hide Shown, Flagged, Stamped, Clear, Teardown, TakeUnknown, MarkExited, TaskFlags;
      TakeUnknownChild(c);
      var tracked := Tracked(c.pid, c.tid);
      if !tracked {
        return;
      }
      if c.tid == c.pid && c.pid in pendingExec && pendingExec[c.pid] != c.pid {
        ClearPending(c.task);
        return;
      }
      MarkAttachExited(c.tid, markOk);
      ClearLifecycle(c.task, c.pid, c.tid, disarmOk);
      EmitLifecycle(c, ExitedEvent, c.pid, c.tid, code, 0);
    }

    /** trace_sched_process_free */
    method TraceFree(c: Ctx, freed: int, disarmOk: bool)
      requires Valid()
      modifies this
      ensures Valid() && Abs() == FreeStep(old(Abs()), c, freed, disarmOk)
    {
      hide Shown, Flagged, Stamped, Teardown, TaskFlags;
      var tracked := Tracked(freed, freed);
      if freed == 0 || !tracked {
        return;
      }
      ClearLifecycle(c.task, freed, freed, disarmOk);
      EmitLifecycle(c, FreeEvent, freed, freed, freed, 0);
    }

    // ----- side channels -------------------------------------------------------------------

    /** trace_kvm_userspace_exit */
    method TraceKvmExit(c: Ctx, reason: int, error: int)
      requires Valid()
      modifies this
      ensures Valid() && Abs() == KvmStep(old(Abs()), c, reason, error)
    {
      hide Shown, Flagged, Stamped;
      StampedAt(storage, gens, c.task);
      if !c.env.cfg.kvmExit || c.task !in storage || !storage[c.task].valid {
        return;
      }
      var p := storage[c.task];
      if p.call.sysId != SYS_IOCTL || Arg(p.call.args, 1) != KVM_RUN_IOCTL {
        return;
      }
      Mark(KvmSeen(Gen(c.task), reason, error));
      var aux := if error < 0 then 0 else KVM_EXIT_AUX_VALID + reason % KVM_EXIT_AUX_VALID;
      PutPending(c.task, p.(aux0 := aux));
      Mark(AuxSet(Gen(c.task), aux));
    }

    /** current_pending_syscall, when it is a recvmsg */
    method PendingRecvmsg(c: Ctx) returns (p: Option<Pending>)
      requires Valid()
      ensures p.Some? <==> HasValid(Abs().core, c.task) && Abs().core.storage[c.task].call.sysId == SYS_RECVMSG
      ensures p.Some? ==> p.value == storage[c.task] && Abs().core.storage[c.task] == Stamp(p.value, Gen(c.task))
    {
      if c.task !in storage || !storage[c.task].valid || storage[c.task].call.sysId != SYS_RECVMSG {
        return None;
      }
      return Some(storage[c.task]);
    }

    /** trace_kretprobe_recvmsg_name, control and final: each looks the record up again */
    method TraceRecvmsg(c: Ctx, ret: int, tails: set<Slot>)
      requires Valid()
      modifies this
      ensures Valid() && Abs() == RecvmsgStep(old(Abs()), c, ret, tails)
    {
      hide Shown, Flagged, Close;
      if RecvmsgName !in tails {
        return;
      }
      var p := PendingRecvmsg(c);
      if p.None? {
        return;
      }
      if ret > 0 {
        Emit(Part(p.value.call, 0), ExitFragment(Gen(c.task), p.value.call, 0));
      }
      if RecvmsgControl !in tails {
        return;
      }
      p := PendingRecvmsg(c);
      if ret >= 0 {
        Emit(Part(p.value.call, 1), ExitFragment(Gen(c.task), p.value.call, 1));
      }
      if RecvmsgFinal !in tails {
        return;
      }
      p := PendingRecvmsg(c);
      Finish(c, Lookup(p.value, c.tid, false), ret, None);
    }

    // ----- runs ----------------------------------------------------------------------------

    /** Whichever program a tracepoint starts refines the step of its label, with the candidate
        count the collectors really found. */
    method Trace(l: Label, w: World) returns (ghost done: Label)
      requires Valid() && GoodWorld(w) && GoodLabel(l)
      modifies this, scratch, scratch.fdset, components
      ensures Valid() && SameButCount(l, done) && Abs() == Step(old(Abs()), done)
    {
      hide Shown, Flagged, Stamped, EnterStep, ExitStep, ForkStep, ExecStep, TaskExitStep, FreeStep, KvmStep,
          RecvmsgStep;
      done := l;
      match l
      case Enter(c, id, args, ei) =>
        ghost var n := TraceSysEnter(c, id, args, ei, w);
        done := Enter(c, id, args, ei.(nested := n));
      case Exit(c, id, ret, xi) =>
        ghost var n := TraceSysExit(c, id, ret, xi, w);
        done := Exit(c, id, ret, xi.(nested := n));
      case Fork(c, child, preOk, installOk, unknownOk) => TraceFork(c, child, preOk, installOk, unknownOk);
      case ExecDone(c, oldTid, adoptOk, clearOk, disarmOk) => TraceExec(c, oldTid, adoptOk, clearOk, disarmOk);
      case TaskExit(c, code, markOk, disarmOk) => TraceExit(c, code, markOk, disarmOk);
      case Free(c, freed, disarmOk) => TraceFree(c, freed, disarmOk);
      case Kvm(c, reason, error) => TraceKvmExit(c, reason, error);
      case RecvmsgReturn(c, ret, tails) => TraceRecvmsg(c, ret, tails);
    }

    /** Every run of the programs is a run of the steps. Started on fresh maps, its ring holds
        at most as many completed exits of a call as there were raw enter edges with that pid,
        tid, id and arguments, no exit record at all without such an edge, and each record it
        saved ended in exactly one way. */
    method TraceAll(labels: seq<Label>, worlds: seq<World>) returns (ghost done: seq<Label>)
      requires Valid() && |worlds| == |labels|
      requires forall i :: 0 <= i < |labels| ==> GoodLabel(labels[i]) && GoodWorld(worlds[i])
      modifies this, scratch, scratch.fdset, components
      ensures Valid() && |done| == |labels| && forall i :: 0 <= i < |labels| ==> SameButCount(labels[i], done[i])
      ensures Abs() == Run(old(Abs()), done)
      ensures Initial(old(Abs())) ==>
        RingBacked(ring, labels) && EndsOnce(Abs().core) && Generations.CarriesSavedCalls(log)
    {
      hide Shown, Flagged, Stamped, Step, SameButCount, RingBacked, EndsOnce;
      done := [];
      for i := 0 to |labels|
        invariant Valid() && |done| == i && Abs() == Run(old(Abs()), done)
        invariant forall j :: 0 <= j < i ==> SameButCount(labels[j], done[j])
      {
        ghost var l := Trace(labels[i], worlds[i]);
        RunSnoc(old(Abs()), done, l);
        done := done + [l];
      }
      if Initial(old(Abs())) {
        RunIsBacked(old(Abs()), labels, done, ring);
        RunEndsOnce(old(Abs()), done);
      }
    }
  }
}
