/** Task-local pending state and the history of what happened to it.

    `Core` is the part of the tracer that the pending protocol owns: one record per task, a
    counter that numbers every saved record (its generation), and the history of effects in
    the order they happened. Generations and history exist only for specification. */
module PendingCore {
  import opened Abi

  type Task = nat

  datatype Call = Call(pid: int, tid: int, sysId: int, args: seq<int>)

  datatype TaskState = TaskState(call: Call, aux0: int, valid: bool, gen: nat)

  datatype LifecycleKind = ForkEvent | ExecEvent | ExitedEvent | FreeEvent | UnknownDetach | UnknownExit

  /** What a step did, either to a pending generation or to the event ring (a call of an
      emitter). `ExitEvent` is a completed exit; `ExitFragment` carries the fragment flag. */
  datatype Effect =
    | Saved(gen: nat, call: Call)
    | Overwritten(gen: nat)
    | Retired(gen: nat)
    | AuxSet(gen: nat, value: int)
    | KvmSeen(gen: nat, reason: int, error: int)
    | ExitEvent(gen: nat, call: Call, ret: int, kvm: Option<int>)
    | ExitFragment(gen: nat, call: Call, part: nat)
    | EnterCall(pid: int, tid: int, sysId: int, part: nat)
    | TerminatingExit(pid: int, tid: int, sysId: int)
    | Lifecycle(kind: LifecycleKind, pid: int, tid: int, arg0: int, arg1: int)
    | UnsupportedAbi(pid: int, tid: int, sysId: int)

  datatype History = Start | Then(before: History, last: Effect)

  datatype Core = Core(storage: map<Task, TaskState>, nextGen: nat, log: History)

  function Note(k: Core, e: Effect): Core { k.(log := Then(k.log, e)) }

  predicate HasValid(k: Core, task: Task) { task in k.storage && k.storage[task].valid }

  /** clear_pending_task_state */
  function Clear(k: Core, task: Task): Core {
    if task !in k.storage then k
    else
      var t := k.storage[task];
      var cleared := k.(storage := k.storage[task := t.(aux0 := 0, valid := false)]);
      if t.valid then Note(cleared, Retired(t.gen)) else cleared
  }

  /** save_pending_syscall_value on a task whose storage could be obtained */
  function Save(k: Core, task: Task, call: Call): Core {
    var marked := if HasValid(k, task) then Note(k, Overwritten(k.storage[task].gen)) else k;
    Core(marked.storage[task := TaskState(call, 0, true, k.nextGen)],
         k.nextGen + 1,
         Then(marked.log, Saved(k.nextGen, call)))
  }

  /** The write half of save_pending_syscall_aux. */
  function SetAux(k: Core, task: Task, value: int): Core
    requires HasValid(k, task)
  {
    var t := k.storage[task];
    k.(storage := k.storage[task := t.(aux0 := value)], log := Then(k.log, AuxSet(t.gen, value)))
  }

  /** One completed exit event for the current generation, then its retirement. */
  function Complete(k: Core, task: Task, ret: int, kvm: Option<int>): Core
    requires HasValid(k, task)
  {
    var t := k.storage[task];
    Clear(Note(k, ExitEvent(t.gen, t.call, ret, kvm)), task)
  }

  /** Fragments first .. last-1 of the current generation, in order. */
  function Fragments(k: Core, t: TaskState, first: nat, last: nat): Core
    decreases last
  {
    if last <= first then k
    else Note(Fragments(k, t, first, last - 1), ExitFragment(t.gen, t.call, last - 1))
  }
}
