/** What a reader of the history is told, in order and in full: the events of one generation,
    with their return values, and the events of one raw enter. */
module Stories {
  import opened Abi
  import opened PendingCore
  import opened Protocol
  import opened Steps
  import opened Generations
  import opened Chains
  import opened Reports

  datatype Told = Piece(part: nat) | Closing(ret: int, kvm: Option<int>)

  ghost function ToldBy(e: Effect, g: nat): seq<Told> {
    if e.ExitFragment? && e.gen == g then [Piece(e.part)]
    else if e.ExitEvent? && e.gen == g then [Closing(e.ret, e.kvm)]
    else []
  }

  /** The exit events of generation `g`, in the order they were emitted. */
  ghost function Story(h: History, g: nat): seq<Told> {
    match h
    case Start => []
    case Then(before, e) => Story(before, g) + ToldBy(e, g)
  }

  /** Fragments 0 .. n-1. */
  ghost function Pieces(n: nat): seq<Told> { seq(n, (i: nat) => Piece(i)) }

  lemma {:induction false} FragmentsStory(k: Core, t: TaskState, n: nat, g: nat)
    ensures Story(Fragments(k, t, 0, n).log, g) == Story(k.log, g) + if g == t.gen then Pieces(n) else []
  {
    if n > 0 {
      FragmentsStory(k, t, n - 1, g);
      assert Pieces(n) == Pieces(n - 1) + [Piece(n - 1)];
    }
  }

  lemma CompleteStory(k: Core, task: Task, ret: int, kvm: Option<int>, g: nat)
    requires HasValid(k, task)
    ensures Story(Complete(k, task, ret, kvm).log, g) ==
      Story(k.log, g) + if g == k.storage[task].gen then [Closing(ret, kvm)] else []
  {
    var t := k.storage[task];
    var noted := Then(k.log, ExitEvent(t.gen, t.call, ret, kvm));
    assert Complete(k, task, ret, kvm).log == Then(noted, Retired(t.gen));
    assert Story(Then(noted, Retired(t.gen)), g) == Story(noted, g);
  }

  // ----- exits ---------------------------------------------------------------------------

  /** How many fragments precede the completion. */
  ghost predicate FragmentCount(prog: ExitProg, id: int, ret: int, xi: ExitInput, n: nat)
    requires xi.nested <= 4
  {
    match prog
    case Io =>
      if IsEpollWait(id) && ret > 0
      then LongestPrefix([ExitPath0, ExitPath1, ExitPath2, ExitPath3], xi.nested, xi.tails, n)
      else n == 0
    case RecvmmsgBase01 => n == if ret <= 0 then 0 else if RecvmmsgBase23 in xi.tails then 4 else 2
    case _ => n == 0
  }

  lemma FragmentsAreCounted(prog: ExitProg, id: int, ret: int, xi: ExitInput)
    requires xi.nested <= 4
    ensures FragmentCount(prog, id, ret, xi, ExitFragments(prog, id, ret, xi))
  {
    if prog.Io? && xi.nested > 0 && ExitPath0 in xi.tails {
      PathLinksIsPrefix(xi.nested, xi.tails, ExitPath0, ExitPath1, ExitPath2, ExitPath3);
    }
  }

  /** A matched exit whose program takes the record up tells, about its own generation, its
      fragments in order and then one completion with the return value of that very exit; about
      every other generation it tells nothing. */
  lemma ExitTellsItsStory(s: State, c: Ctx, id: int, ret: int, xi: ExitInput, g: nat) returns (n: nat)
    requires ReachesExit(s, c, id, xi) && Owns(s, c, id, ret) && TakesUp(c, id, ret, xi) && xi.nested <= 4
    ensures FragmentCount(ExitProgram(c, id, xi), id, ret, xi, n)
    ensures var t := s.core.storage[c.task];
      var kvm := if ExitProgram(c, id, xi).Control? then KvmReason(t, ret) else None;
      Story(ExitStep(s, c, id, ret, xi).core.log, g) ==
      Story(s.core.log, g) + if g == t.gen then Pieces(n) + [Closing(ret, kvm)] else []
  {
    hide ExitStep, RunExit, Complete, Fragments, Story;
    var prog := ExitProgram(c, id, xi);
    var t := s.core.storage[c.task];
    n := ExitFragments(prog, id, ret, xi);
    FragmentsAreCounted(prog, id, ret, xi);
    ExitRunsProgram(s, c, id, ret, xi);
    OwnedExitCore(ForgetForkFlags(s, c, id), c, prog, id, ret, xi);
    FragmentsStory(s.core, t, n, g);
    FragmentsKeepStorage(s.core, t, 0, n);
    CompleteStory(Fragments(s.core, t, 0, n), c.task, ret, if prog.Control? then KvmReason(t, ret) else None, g);
  }

  /** The return value of the last completion of generation `g`. */
  ghost function ReturnOf(h: History, g: nat): Option<int> {
    match h
    case Start => None
    case Then(before, e) => if e.ExitEvent? && e.gen == g then Some(e.ret) else ReturnOf(before, g)
  }

  lemma CompleteReturns(k: Core, task: Task, ret: int, kvm: Option<int>)
    requires HasValid(k, task)
    ensures ReturnOf(Complete(k, task, ret, kvm).log, k.storage[task].gen) == Some(ret)
  {
    var t := k.storage[task];
    var noted := Then(k.log, ExitEvent(t.gen, t.call, ret, kvm));
    assert Complete(k, task, ret, kvm).log == Then(noted, Retired(t.gen));
    assert ReturnOf(noted, t.gen) == Some(ret);
  }

  /** A matched exit reports its own return value. */
  lemma ExitReportsItsReturn(s: State, c: Ctx, id: int, ret: int, xi: ExitInput)
    requires ReachesExit(s, c, id, xi) && Owns(s, c, id, ret) && TakesUp(c, id, ret, xi)
    ensures ReturnOf(ExitStep(s, c, id, ret, xi).core.log, s.core.storage[c.task].gen) == Some(ret)
  {
    hide ExitStep, RunExit, Complete, Fragments, ReturnOf;
    var prog := ExitProgram(c, id, xi);
    var t := s.core.storage[c.task];
    var n := ExitFragments(prog, id, ret, xi);
    ExitRunsProgram(s, c, id, ret, xi);
    OwnedExitCore(ForgetForkFlags(s, c, id), c, prog, id, ret, xi);
    FragmentsKeepStorage(s.core, t, 0, n);
    CompleteReturns(Fragments(s.core, t, 0, n), c.task, ret, if prog.Control? then KvmReason(t, ret) else None);
  }

  /** The exec step completes a pending exec with value 0. */
  lemma ExecTellsItsStory(
      s: State, c: Ctx, oldTid: int, adoptOk: bool, clearOk: bool, disarmOk: bool, g: nat)
    requires Adopt(s, c, oldTid, adoptOk).1
    requires HasValid(s.core, c.task) && IsExec(s.core.storage[c.task].call.sysId)
    ensures Story(ExecStep(s, c, oldTid, adoptOk, clearOk, disarmOk).core.log, g) ==
      Story(s.core.log, g) + if g == s.core.storage[c.task].gen then [Closing(0, None)] else []
  {
    hide Complete, Adopt, LeavePreExec, Story;
    EnterExecCore(s, c, oldTid, adoptOk, clearOk, disarmOk);
    CompleteStory(s.core, c.task, 0, None, g);
    var done := Complete(s.core, c.task, 0, None);
    LifecycleStory(done.log, Lifecycle(ExecEvent, c.pid, c.tid, oldTid, c.tid), g);
  }

  lemma LifecycleStory(h: History, e: Effect, g: nat)
    requires !e.ExitEvent? && !e.ExitFragment?
    ensures Story(Then(h, e), g) == Story(h, g)
  {
  }

  /** The return of a pending recvmsg: the name fragment if something was received, the control
      fragment unless it failed, the completion; a tail call that fails cuts the story there. */
  lemma RecvmsgTellsItsStory(s: State, c: Ctx, ret: int, tails: set<Slot>)
    requires HasValid(s.core, c.task) && s.core.storage[c.task].call.sysId == SYS_RECVMSG
    ensures var g := s.core.storage[c.task].gen;
      Story(RecvmsgStep(s, c, ret, tails).core.log, g) ==
      Story(s.core.log, g) +
      (if RecvmsgName in tails && ret > 0 then [Piece(0)] else []) +
      (if RecvmsgName in tails && RecvmsgControl in tails && ret >= 0 then [Piece(1)] else []) +
      (if RecvmsgName in tails && RecvmsgControl in tails && RecvmsgFinal in tails then [Closing(ret, None)] else [])
  {
    var t := s.core.storage[c.task];
    var named := if ret > 0 then Note(s.core, ExitFragment(t.gen, t.call, 0)) else s.core;
    assert Story(named.log, t.gen) == Story(s.core.log, t.gen) + if ret > 0 then [Piece(0)] else [];
    var controlled := if ret >= 0 then Note(named, ExitFragment(t.gen, t.call, 1)) else named;
    assert Story(controlled.log, t.gen) == Story(named.log, t.gen) + if ret >= 0 then [Piece(1)] else [];
    hide Complete, Story;
    CompleteStory(controlled, c.task, ret, None, t.gen);
  }

  // ----- runs ----------------------------------------------------------------------------

  /** Some completed exit event carries this call and this return value. */
  predicate ExitedWith(h: History, call: Call, ret: int) {
    match h
    case Start => false
    case Then(before, e) => ExitedWith(before, call, ret) || (e.ExitEvent? && e.call == call && e.ret == ret)
  }

  lemma CompleteExitedWith(k: Core, task: Task, r: int, kvm: Option<int>, call: Call, ret: int)
    requires HasValid(k, task)
    ensures ExitedWith(Complete(k, task, r, kvm).log, call, ret) ==
      (ExitedWith(k.log, call, ret) || (k.storage[task].call == call && r == ret))
  {
    var t := k.storage[task];
    var noted := Then(k.log, ExitEvent(t.gen, t.call, r, kvm));
    assert Complete(k, task, r, kvm).log == Then(noted, Retired(t.gen));
    assert ExitedWith(noted, call, ret) == (ExitedWith(k.log, call, ret) || (t.call == call && r == ret));
  }

  lemma SaveExitedWith(k: Core, task: Task, saved: Call, call: Call, ret: int)
    ensures ExitedWith(Save(k, task, saved).log, call, ret) == ExitedWith(k.log, call, ret)
  {
    if HasValid(k, task) {
      assert !ExitedWith(Then(Start, Overwritten(k.storage[task].gen)), call, ret);
      assert ExitedWith(Then(k.log, Overwritten(k.storage[task].gen)), call, ret) == ExitedWith(k.log, call, ret);
    }
  }

  /** A step that does not close this call with this value reports no such exit. */
  lemma StepReturns(s: State, l: Label, call: Call, ret: int)
    requires !ExitedWith(s.core.log, call, ret) && !Closes(l, call, ret)
    ensures !ExitedWith(Step(s, l).core.log, call, ret)
  {
    var who := l.c.task;
    var P := (k: Core) => !ExitedWith(k.log, call, ret);
    var m := Moves(who, Neutral, AnyCall, (c: Call, r: int) => !(c == call && r == ret));
    hide Step, Complete, Save;
    forall k, saved | P(k) ensures P(Save(k, who, saved)) { SaveExitedWith(k, who, saved, call, ret); }
    forall k, r, kvm | P(k) && HasValid(k, who) && m.retOk(k.storage[who].call, r) ensures P(Complete(k, who, r, kvm)) {
      CompleteExitedWith(k, who, r, kvm, call, ret);
    }
    forall k, reason, error | P(k) && HasValid(k, who) ensures P(Observe(k, who, reason, error)) {
      assert !ExitedWith(Then(k.log, KvmSeen(k.storage[who].gen, reason, error)), call, ret);
    }
    StepKeeps(P, m, s, l);
  }

  /** In every run, every completed exit event carries the return value of a label that closes
      that very call: its raw exit, its exec step with 0, or its recvmsg return. */
  lemma {:induction false} EveryReturnHasItsExit(s: State, labels: seq<Label>, call: Call, ret: int)
    requires !ExitedWith(s.core.log, call, ret) && ExitedWith(Run(s, labels).core.log, call, ret)
    ensures exists i :: 0 <= i < |labels| && Closes(labels[i], call, ret)
    decreases |labels|
  {
    hide Step, Closes, ExitedWith;
    if labels != [] && !Closes(labels[0], call, ret) {
      StepReturns(s, labels[0], call, ret);
      EveryReturnHasItsExit(Step(s, labels[0]), labels[1..], call, ret);
      var i :| 0 <= i < |labels[1..]| && Closes(labels[1..][i], call, ret);
      assert labels[i + 1] == labels[1..][i];
    }
  }

  // ----- enters --------------------------------------------------------------------------

  /** The numbers of the enter events reported under this identity and id, in order. */
  ghost function EnterParts(h: History, pid: int, tid: int, id: int): seq<nat> {
    match h
    case Start => []
    case Then(before, e) =>
      EnterParts(before, pid, tid, id) +
      if e.EnterCall? && e.pid == pid && e.tid == tid && e.sysId == id then [e.part] else []
  }

  ghost function Numbers(first: nat, count: nat): seq<nat> { seq(count, (i: nat) => first + i) }

  lemma {:induction false} ConsecutiveParts(h: History, c: Ctx, id: int, part: nat, count: nat)
    ensures EnterParts(Consecutive(h, c, id, part, count), c.pid, c.tid, id) ==
      EnterParts(h, c.pid, c.tid, id) + Numbers(part, count)
    decreases count
  {
    if count > 0 {
      ConsecutiveParts(h, c, id, part, count - 1);
      assert Numbers(part, count) == Numbers(part, count - 1) + [part + count - 1];
    }
  }

  /** How many fragments follow the enter event itself, for every pattern of tail calls. */
  function EnterFragments(prog: Option<EnterProg>, id: int, ei: EnterInput): nat {
    var t := ei.tails;
    if prog.None? then 0
    else
      match prog.value
      case Bpf => if ei.bpf.progLoad && BpfProgLoad in t && BpfProgLoadDebug in t then 1 else 0
      case Iovec => if IsIovecBaseEnter(id) && IovecBase in t then 1 else 0
      case Msg => if id == SYS_SENDMSG && SendmsgBase in t then 1 else 0
      case Aio => if id != SYS_IO_SUBMIT || AioIovec !in t then 0 else if AioBuf !in t then 1 else 2
      case Mmsg => if IsMmsg(id) then MmsgFragments(id, t) else 0
      case _ => 0
  }

  /** Two of the first program, one of each later one; only sendmmsg has the last four. */
  function MmsgFragments(id: int, t: set<Slot>): nat {
    if MmsgBase01 !in t then 0
    else if MmsgBase2 !in t then 2
    else if MmsgBase3 !in t then 3
    else if id != SYS_SENDMMSG || MmsgBytes0 !in t then 4
    else if MmsgBytes1 !in t then 5
    else if MmsgBytes2 !in t then 6
    else if MmsgBytes3 !in t then 7
    else 8
  }

  lemma ReachedFirst(slot: Slot, parts: nat, rest: seq<Link>, t: set<Slot>)
    ensures Reached([Link(slot, parts)] + rest, t) == if slot in t then parts + Reached(rest, t) else 0
  {
    assert ([Link(slot, parts)] + rest)[1..] == rest;
  }

  lemma BytesReached(t: set<Slot>)
    ensures var links := [Link(MmsgBytes0, 1), Link(MmsgBytes1, 1), Link(MmsgBytes2, 1), Link(MmsgBytes3, 1)];
      Reached(links, t) ==
      if MmsgBytes0 !in t then 0
      else if MmsgBytes1 !in t then 1
      else if MmsgBytes2 !in t then 2
      else if MmsgBytes3 !in t then 3
      else 4
  {
    var three := [Link(MmsgBytes3, 1)];
    var two := [Link(MmsgBytes2, 1)] + three;
    var one := [Link(MmsgBytes1, 1)] + two;
    ReachedFirst(MmsgBytes3, 1, [], t);
    assert three == three + [];
    ReachedFirst(MmsgBytes2, 1, three, t);
    ReachedFirst(MmsgBytes1, 1, two, t);
    ReachedFirst(MmsgBytes0, 1, one, t);
    assert [Link(MmsgBytes0, 1)] + one ==
      [Link(MmsgBytes0, 1), Link(MmsgBytes1, 1), Link(MmsgBytes2, 1), Link(MmsgBytes3, 1)];
  }

  lemma MmsgReached(id: int, t: set<Slot>)
    requires IsMmsg(id)
    ensures Reached(EnterChain(Mmsg, id), t) == MmsgFragments(id, t)
  {
    BytesReached(t);
    var bytes :=
      if id == SYS_SENDMMSG
      then [Link(MmsgBytes0, 1), Link(MmsgBytes1, 1), Link(MmsgBytes2, 1), Link(MmsgBytes3, 1)] else [];
    var two := [Link(MmsgBase3, 1)] + bytes;
    var one := [Link(MmsgBase2, 1)] + two;
    ReachedFirst(MmsgBase3, 1, bytes, t);
    ReachedFirst(MmsgBase2, 1, two, t);
    ReachedFirst(MmsgBase01, 2, one, t);
    assert EnterChain(Mmsg, id) == [Link(MmsgBase01, 2)] + one;
  }

  lemma ChainReached(prog: EnterProg, id: int, ei: EnterInput)
    requires !prog.Bpf?
    ensures Reached(EnterChain(prog, id), ei.tails) == EnterFragments(Some(prog), id, ei)
  {
    var t := ei.tails;
    if prog.Mmsg? && IsMmsg(id) { MmsgReached(id, t); }
    ReachedFirst(AioBuf, 1, [], t);
    ReachedFirst(AioIovec, 1, [Link(AioBuf, 1)], t);
    assert [Link(AioIovec, 1)] + [Link(AioBuf, 1)] == [Link(AioIovec, 1), Link(AioBuf, 1)];
    assert [Link(AioBuf, 1)] + [] == [Link(AioBuf, 1)];
  }

  lemma ChainParts(k: Core, c: Ctx, id: int, links: seq<Link>, tails: set<Slot>)
    ensures EnterParts(EmitChain(k, c, id, links, tails, 1).log, c.pid, c.tid, id) ==
      EnterParts(k.log, c.pid, c.tid, id) + Numbers(1, Reached(links, tails))
  {
    ChainEmitsPrefix(k, c, id, links, tails, 1);
    ConsecutiveParts(k.log, c, id, 1, Reached(links, tails));
  }

  lemma SaveParts(s: State, c: Ctx, id: int, args: seq<int>, ei: EnterInput)
    ensures EnterParts(EmitAndSave(s, c, id, args, ei).core.log, c.pid, c.tid, id) ==
      EnterParts(s.core.log, c.pid, c.tid, id) + [0]
  {
    var noted := Then(s.core.log, EnterCall(c.pid, c.tid, id, 0));
    assert EnterParts(noted, c.pid, c.tid, id) == EnterParts(s.core.log, c.pid, c.tid, id) + [0];
    if HasValid(s.core, c.task) {
      var marked := Then(noted, Overwritten(s.core.storage[c.task].gen));
      assert EnterParts(marked, c.pid, c.tid, id) == EnterParts(noted, c.pid, c.tid, id);
    }
  }

  lemma AuxParts(s: State, c: Ctx, id: int, value: int)
    ensures EnterParts(SaveAux(s, c.task, value).core.log, c.pid, c.tid, id) == EnterParts(s.core.log, c.pid, c.tid, id)
  {
  }

  lemma {:induction false} FragmentsParts(k: Core, t: TaskState, n: nat, pid: int, tid: int, id: int)
    ensures EnterParts(Fragments(k, t, 0, n).log, pid, tid, id) == EnterParts(k.log, pid, tid, id)
  {
    if n > 0 { FragmentsParts(k, t, n - 1, pid, tid, id); }
  }

  /** A program that saves reports the enter event and its fragments, numbered in order. */
  lemma SavingProgramReports(s: State, c: Ctx, prog: EnterProg, id: int, args: seq<int>, ei: EnterInput)
    requires Saves(prog, id)
    ensures EnterParts(RunEnter(s, c, prog, id, args, ei).core.log, c.pid, c.tid, id) ==
      EnterParts(s.core.log, c.pid, c.tid, id) + [0] + Numbers(1, EnterFragments(Some(prog), id, ei))
  {
    hide EmitAndSave, EmitChain, SaveAux, EnterChain, Reached, EnterParts, Fragments;
    SaveParts(s, c, id, args, ei);
    var saved := EmitAndSave(s, c, id, args, ei);
    var aux := if ei.aux.Some? then ei.aux.value else 0;
    AuxParts(saved, c, id, aux);
    match prog
    case Bpf =>
      var links := [Link(BpfProgLoadDebug, 1)];
      assert links == links + [];
      ReachedFirst(BpfProgLoadDebug, 1, [], ei.tails);
      ReachedNone(ei.tails);
      ChainParts(saved.core, c, id, links, ei.tails);
    case Poll => PathsParts(saved, c, id, ei);
    case Select => PathsParts(saved, c, id, ei);
    case Msg =>
      ChainReached(prog, id, ei);
      ChainParts(saved.core, c, id, EnterChain(prog, id), ei.tails);
      ChainParts(SaveAux(saved, c.task, aux).core, c, id, EnterChain(prog, id), ei.tails);
    case Terminating => assert false;
    case Exec =>
    case Network =>
    case Guarded(_) =>
    case _ =>
      ChainReached(prog, id, ei);
      ChainParts(saved.core, c, id, EnterChain(prog, id), ei.tails);
  }

  lemma ReachedNone(t: set<Slot>)
    ensures Reached([], t) == 0
  {
  }

  lemma PathsParts(s: State, c: Ctx, id: int, ei: EnterInput)
    ensures EnterParts(EnterPaths(s, c, id, ei).core.log, c.pid, c.tid, id) == EnterParts(s.core.log, c.pid, c.tid, id)
  {
    if HasValid(s.core, c.task) {
      var n := PathLinks(ei.nested, ei.tails, EnterPath1, EnterPath2, EnterPath3);
      FragmentsParts(s.core, s.core.storage[c.task], n, c.pid, c.tid, id);
    }
  }

  /** A dispatched enter that leaves a record reports itself once, then its fragments in order,
      exactly as many as the tail calls that went through allow. */
  lemma EnterTellsItsStory(s: State, c: Ctx, id: int, args: seq<int>, ei: EnterInput)
    requires ReachesEnter(s, c, id, ei) && LeavesRecord(c, id, ei)
    ensures EnterParts(EnterStep(s, c, id, args, ei).core.log, c.pid, c.tid, id) ==
      EnterParts(s.core.log, c.pid, c.tid, id) + Numbers(0, 1 + EnterFragments(EnterProgram(c, id, ei), id, ei))
  {
    hide RunEnter, EmitAndSave, EnterParts, EnterFragments;
    var noted := CaptureForkFlags(ArmExec(s, c, id, ei.armOk), c, id, args, ei);
    ArmedCore(s, c, id, args, ei);
    var prog := EnterProgram(c, id, ei);
    var n := EnterFragments(prog, id, ei);
    assert Numbers(0, 1 + n) == [0] + Numbers(1, n);
    if prog.Some? {
      SavingProgramReports(noted, c, prog.value, id, args, ei);
    } else {
      SaveParts(noted, c, id, args, ei);
      assert n == 0 by { NoFragments(id, ei); }
    }
  }

  lemma NoFragments(id: int, ei: EnterInput)
    ensures EnterFragments(None, id, ei) == 0
  {
  }

  /** A terminating call has no exit edge: its program reports enter and exit at once, saves
      nothing, and marks the process when its leader calls it. */
  lemma TerminatingCallIsReported(s: State, c: Ctx, id: int, args: seq<int>, ei: EnterInput)
    requires ReachesEnter(s, c, id, ei) && EnterProgram(c, id, ei) == Some(Terminating)
    ensures var s' := EnterStep(s, c, id, args, ei);
      && s'.core.log == Then(Then(s.core.log, EnterCall(c.pid, c.tid, id, 0)), TerminatingExit(c.pid, c.tid, id))
      && s'.core.storage == s.core.storage
      && (c.tid == c.pid && ei.mainOk ==> s'.mainExited == s.mainExited + {c.pid})
      && (c.tid != c.pid ==> s'.mainExited == s.mainExited)
  {
    hide EmitAndSave;
    var noted := CaptureForkFlags(ArmExec(s, c, id, ei.armOk), c, id, args, ei);
    assert noted.core == s.core && noted.mainExited == s.mainExited;
  }

  // ----- aux0 ----------------------------------------------------------------------------

  /** What an enter program keeps for its exit: the address length of a network call, the name
      length of recvmsg. */
  lemma EnterKeepsItsAux(s: State, c: Ctx, id: int, args: seq<int>, ei: EnterInput)
    requires ReachesEnter(s, c, id, ei) && CanSave(s, c.task, ei.saveOk)
    requires var prog := EnterProgram(c, id, ei); prog == Some(Network) || (prog == Some(Msg) && id == SYS_RECVMSG)
    ensures var s' := EnterStep(s, c, id, args, ei);
      HasValid(s'.core, c.task) && s'.core.storage[c.task].aux0 == if ei.aux.Some? then ei.aux.value else 0
  {
    hide EmitChain;
    var noted := CaptureForkFlags(ArmExec(s, c, id, ei.armOk), c, id, args, ei);
    assert noted.core == s.core;
    SavedIsCurrent(noted, c, id, args, ei);
    EmptyChain(SaveAux(EmitAndSave(noted, c, id, args, ei), c.task, if ei.aux.Some? then ei.aux.value else 0).core,
               c, id, ei.tails);
  }

  lemma EmptyChain(k: Core, c: Ctx, id: int, tails: set<Slot>)
    ensures EmitChain(k, c, id, [], tails, 1) == k
  {
  }

  // ----- select and poll -----------------------------------------------------------------

  /** The path fragments of a select or poll enter belong to the record it saved, in order, one
      per link reached. */
  lemma PathsTellTheirStory(s: State, c: Ctx, id: int, ei: EnterInput, g: nat) returns (n: nat)
    requires HasValid(s.core, c.task) && ei.nested <= 4 && c.env.cfg.fdState && (id == SYS_SELECT || IsPoll(id))
    ensures LongestPrefix([EnterPath0, EnterPath1, EnterPath2, EnterPath3], ei.nested, ei.tails, n)
    ensures Story(EnterPaths(s, c, id, ei).core.log, g) ==
      Story(s.core.log, g) + if g == s.core.storage[c.task].gen then Pieces(n) else []
  {
    hide Story, Fragments;
    if ei.nested > 0 && EnterPath0 in ei.tails {
      n := PathLinks(ei.nested, ei.tails, EnterPath1, EnterPath2, EnterPath3);
      PathLinksIsPrefix(ei.nested, ei.tails, EnterPath0, EnterPath1, EnterPath2, EnterPath3);
    } else {
      n := 0;
      FragmentsNone(s.core, s.core.storage[c.task]);
    }
    FragmentsStory(s.core, s.core.storage[c.task], n, g);
  }

  lemma SaveStory(s: State, c: Ctx, id: int, args: seq<int>, ei: EnterInput, g: nat)
    ensures Story(EmitAndSave(s, c, id, args, ei).core.log, g) == Story(s.core.log, g)
  {
    var noted := Then(s.core.log, EnterCall(c.pid, c.tid, id, 0));
    assert Story(noted, g) == Story(s.core.log, g);
    if HasValid(s.core, c.task) {
      assert Story(Then(noted, Overwritten(s.core.storage[c.task].gen)), g) == Story(noted, g);
    }
  }

  /** A select or poll enter with fd tracking tells, about the record it saves, its path fragments
      in order; without fd tracking, or for another id, it tells nothing more. */
  lemma PollTellsItsStory(s: State, c: Ctx, id: int, args: seq<int>, ei: EnterInput) returns (n: nat)
    requires ReachesEnter(s, c, id, ei) && CanSave(s, c.task, ei.saveOk) && ei.nested <= 4
    requires EnterProgram(c, id, ei) == Some(Poll) || EnterProgram(c, id, ei) == Some(Select)
    ensures if c.env.cfg.fdState && (id == SYS_SELECT || IsPoll(id))
      then LongestPrefix([EnterPath0, EnterPath1, EnterPath2, EnterPath3], ei.nested, ei.tails, n)
      else n == 0
    ensures Story(EnterStep(s, c, id, args, ei).core.log, s.core.nextGen) ==
      Story(s.core.log, s.core.nextGen) + Pieces(n)
  {
    hide Story, Fragments, EmitAndSave, EnterPaths;
    var noted := CaptureForkFlags(ArmExec(s, c, id, ei.armOk), c, id, args, ei);
    ArmedCore(s, c, id, args, ei);
    var g := s.core.nextGen;
    var saved := EmitAndSave(noted, c, id, args, ei);
    SavedIsCurrent(noted, c, id, args, ei);
    SaveStory(noted, c, id, args, ei, g);
    if c.env.cfg.fdState && (id == SYS_SELECT || IsPoll(id)) {
      n := PathsTellTheirStory(saved, c, id, ei, g);
    } else {
      n := 0;
      NoPaths(saved, c, id, ei);
    }
  }

  lemma NoPaths(s: State, c: Ctx, id: int, ei: EnterInput)
    requires !(c.env.cfg.fdState && (id == SYS_SELECT || IsPoll(id)))
    ensures EnterPaths(s, c, id, ei) == s
  {
  }

  lemma FragmentsNone(k: Core, t: TaskState)
    ensures Fragments(k, t, 0, 0) == k
  {
  }

  /** A bpf call that no sub-program takes keeps what it read for its exit. */
  lemma BpfKeepsItsAux(s: State, c: Ctx, id: int, args: seq<int>, ei: EnterInput)
    requires ReachesEnter(s, c, id, ei) && CanSave(s, c.task, ei.saveOk) && EnterProgram(c, id, ei) == Some(Bpf)
    requires !(ei.bpf.progLoad && BpfProgLoad in ei.tails) && !(ei.bpf.uprobeMulti && BpfUprobeMulti in ei.tails)
    requires !(ei.bpf.tracingMulti && BpfTracingMulti in ei.tails)
    ensures var s' := EnterStep(s, c, id, args, ei);
      HasValid(s'.core, c.task) && s'.core.storage[c.task].aux0 == if ei.aux.Some? then ei.aux.value else 0
  {
    hide EmitChain;
    var noted := CaptureForkFlags(ArmExec(s, c, id, ei.armOk), c, id, args, ei);
    assert noted.core == s.core;
    SavedIsCurrent(noted, c, id, args, ei);
  }

  /** A record that cannot be created is a counted failure and leaves every record alone. */
  lemma FailedSaveIsCounted(s: State, c: Ctx, id: int, args: seq<int>, ei: EnterInput)
    requires ReachesEnter(s, c, id, ei) && !CanSave(s, c.task, ei.saveOk)
    requires EnterProgram(c, id, ei) == None || EnterProgram(c, id, ei) == Some(Network)
    ensures var s' := EnterStep(s, c, id, args, ei);
      s'.saveFails == s.saveFails + 1 && s'.core.storage == s.core.storage && s'.core.nextGen == s.core.nextGen
  {
    var noted := CaptureForkFlags(ArmExec(s, c, id, ei.armOk), c, id, args, ei);
    assert noted.core == s.core && noted.saveFails == s.saveFails;
  }
}
