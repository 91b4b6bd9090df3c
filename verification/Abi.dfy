/** Vocabulary shared by every component of the tracer: syscall numbers (native amd64),
    syscall families, configuration flags and task filter flags. */
module Abi {

  datatype Option<+T> = None | Some(value: T)

  const SYS_RT_SIGRETURN := 15
  const SYS_IOCTL := 16
  const SYS_WRITEV := 20
  const SYS_SELECT := 23
  const SYS_POLL := 7
  const SYS_SENDMSG := 46
  const SYS_RECVMSG := 47
  const SYS_CLONE := 56
  const SYS_FORK := 57
  const SYS_VFORK := 58
  const SYS_EXECVE := 59
  const SYS_EXIT := 60
  const SYS_IO_SUBMIT := 209
  const SYS_EXIT_GROUP := 231
  const SYS_EPOLL_WAIT := 232
  const SYS_PPOLL := 271
  const SYS_VMSPLICE := 278
  const SYS_EPOLL_PWAIT := 281
  const SYS_PWRITEV := 296
  const SYS_RECVMMSG := 299
  const SYS_SENDMMSG := 307
  const SYS_PROCESS_VM_WRITEV := 311
  const SYS_EXECVEAT := 322
  const SYS_PWRITEV2 := 328
  const SYS_CLONE3 := 435
  const SYS_EPOLL_PWAIT2 := 441

  const KVM_RUN_IOCTL := 0xae80
  const KVM_EXIT_AUX_VALID := 0x8000_0000
  const CLONE_PTRACE_BIT := 0x2000
  const CLONE_PARENT_BIT := 0x8000

  predicate IsTerminating(id: int) { id == SYS_EXIT || id == SYS_EXIT_GROUP }

  predicate IsCreation(id: int) {
    id == SYS_CLONE || id == SYS_CLONE3 || id == SYS_FORK || id == SYS_VFORK
  }

  predicate IsExec(id: int) { id == SYS_EXECVE || id == SYS_EXECVEAT }

  predicate IsEpollWait(id: int) {
    id == SYS_EPOLL_WAIT || id == SYS_EPOLL_PWAIT || id == SYS_EPOLL_PWAIT2
  }

  predicate IsMmsg(id: int) { id == SYS_SENDMMSG || id == SYS_RECVMMSG }

  predicate IsPoll(id: int) { id == SYS_POLL || id == SYS_PPOLL }

  predicate IsIovecBaseEnter(id: int) {
    id == SYS_WRITEV || id == SYS_PWRITEV || id == SYS_PWRITEV2 || id == SYS_VMSPLICE ||
    id == SYS_PROCESS_VM_WRITEV
  }

  predicate IsExecRestart(ret: int) { ret == -512 || ret == -513 || ret == -514 || ret == -516 }

  /** A raw exit that never has a pending record of its own. */
  predicate IsExpectedUnmatched(id: int, ret: int) {
    IsTerminating(id) ||
    (IsCreation(id) && ret == 0) ||
    (IsExec(id) && (ret == 0 || IsExecRestart(ret)))
  }

  /** The value of one filter_map entry: FILTER_TASK_TRACKED and FILTER_TASK_PRE_EXEC. */
  datatype Flags = Flags(tracked: bool, preExec: bool)

  /** The bits of config_map that steer the protocol, the per-syscall selection, and the
      fd-state syscall family. */
  datatype Config = Config(
    followForks: bool,
    emitLifecycle: bool,
    filtered: bool,
    negated: bool,
    strictUnknown: bool,
    fdState: bool,
    kvmExit: bool,
    selection: map<int, bool>,
    fdStateIds: set<int>)

  predicate ShouldTrace(cfg: Config, id: int) {
    if !cfg.filtered then true
    else if id !in cfg.selection then !cfg.strictUnknown
    else cfg.selection[id] != cfg.negated
  }

  /** Both raw edges go on to a handler exactly when this holds. */
  predicate Dispatched(cfg: Config, id: int) {
    ShouldTrace(cfg, id) || (cfg.fdState && id in cfg.fdStateIds)
  }

  /** lookup_lifecycle_task_filter_flags: the process entry first, then the thread entry. */
  function TaskFlags(filter: map<int, Flags>, pid: int, tid: int): Option<Flags> {
    if pid in filter && filter[pid].tracked then Some(filter[pid])
    else if tid != pid && tid in filter && filter[tid].tracked then Some(filter[tid])
    else None
  }

  predicate IsTracked(filter: map<int, Flags>, pid: int, tid: int) {
    TaskFlags(filter, pid, tid).Some?
  }

  predicate IsSuppressed(flags: Flags, id: int) { flags.preExec && !IsExec(id) }

  /** The tail-call targets: program array slots that bpf_tail_call may or may not reach. */
  datatype Slot =
    | EnterRoute | ExitRoute
    | IovecBase | SendmsgBase | AioIovec | AioBuf
    | MmsgBase01 | MmsgBase2 | MmsgBase3
    | MmsgBytes0 | MmsgBytes1 | MmsgBytes2 | MmsgBytes3
    | EnterPath0 | EnterPath1 | EnterPath2 | EnterPath3
    | BpfProgLoad | BpfProgLoadDebug | BpfUprobeMulti | BpfTracingMulti
    | ExitPath0 | ExitPath1 | ExitPath2 | ExitPath3
    | RecvmmsgBase23 | MmsgFinal
    | RecvmsgName | RecvmsgControl | RecvmsgFinal

  /** The enter programs a route can name, one constructor per shape of body. `Simple` is every
      handler that emits and saves unconditionally; `Guarded` saves for its own family only. */
  datatype EnterProg =
    | Simple | Guarded(family: set<int>) | Terminating | Exec | Network
    | Bpf | Iovec | Msg | Mmsg | Aio | Poll | Select

  /** The exit programs a route can name. `Plain` is prologue, one completion, consume;
      `GuardBefore` returns before the prologue for foreign ids, `GuardAfter` after it. */
  datatype ExitProg =
    | Plain | GuardBefore(family: set<int>) | GuardAfter(family: set<int>)
    | Control | Io | RecvmmsgBase01

  datatype Env = Env(cfg: Config, enterRoutes: map<int, EnterProg>, exitRoutes: map<int, ExitProg>)
}
