/** What the BPF programs work on and what their pieces do: the concrete data, the abstraction
    to the state of `Protocol`, and how chains of programs join into the steps. */
module Programs {
  import opened Abi
  import opened PendingCore
  import opened Protocol
  import opened UserMemory
  import opened Tlv
  import opened FdPaths
  import opened Collectors
  import DentryWalk
  import Generations
  import Edges
  import Steps
  import Stories

  // ----- concrete data -------------------------------------------------------------------

  /** pending_task_state */
  datatype Pending = Pending(call: Call, aux0: int, valid: bool)

  type Word = bv32

  const TRACKED: Word := 1
  const PRE_EXEC: Word := 2

  /** What a record in the ring says. */
  datatype Event =
    | Exited(call: Call, ret: int, kvm: Option<int>)
    | Part(call: Call, part: nat)
    | Entered(pid: int, tid: int, sysId: int, part: nat)
    | Terminated(pid: int, tid: int, sysId: int)
    | Life(kind: LifecycleKind, pid: int, tid: int, arg0: int, arg1: int)
    | Rejected(pid: int, tid: int, sysId: int)

  /** What the programs read but do not own: user memory, dentries and open files. */
  datatype World = World(memory: ByteMemory, vfs: DentryWalk.Vfs, files: int -> FdTarget)

  ghost predicate GoodWorld(w: World) { forall fd :: GoodTarget(w.files(fd)) }

  /** The record a pending lookup found and the tid it must have. */
  datatype Lookup = Lookup(p: Pending, pendingTid: int, viaExec: bool)

  const NESTED_ARG_INDEX := 0xfffd

  // ----- abstraction ---------------------------------------------------------------------

  function Decode(w: Word): Flags { Flags(w & TRACKED != 0, w & PRE_EXEC != 0) }

  ghost function Flagged(filter: map<int, Word>): map<int, Flags> { map tid | tid in filter :: Decode(filter[tid]) }

  ghost function GenOf(gens: map<Task, nat>, task: Task): nat { if task in gens then gens[task] else 0 }

  ghost function Stamp(p: Pending, gen: nat): TaskState { TaskState(p.call, p.aux0, p.valid, gen) }

  ghost function Stamped(storage: map<Task, Pending>, gens: map<Task, nat>): map<Task, TaskState> {
    map task | task in storage :: Stamp(storage[task], GenOf(gens, task))
  }

  ghost function ShownBy(e: Effect): seq<Event> {
    match e
    case ExitEvent(_, call, ret, kvm) => [Exited(call, ret, kvm)]
    case ExitFragment(_, call, part) => [Part(call, part)]
    case EnterCall(pid, tid, sysId, part) => [Entered(pid, tid, sysId, part)]
    case TerminatingExit(pid, tid, sysId) => [Terminated(pid, tid, sysId)]
    case Lifecycle(kind, pid, tid, arg0, arg1) => [Life(kind, pid, tid, arg0, arg1)]
    case UnsupportedAbi(pid, tid, sysId) => [Rejected(pid, tid, sysId)]
    case _ => []
  }

  /** The records a history leaves in the ring. */
  ghost function Shown(h: History): seq<Event> {
    match h
    case Start => []
    case Then(before, e) => Shown(before) + ShownBy(e)
  }

  /** Two effects that differ in more than their generation never look the same in the ring. */
  lemma RingTellsAll(e: Effect, f: Effect)
    requires ShownBy(e) == ShownBy(f) != []
    ensures match e
      case ExitEvent(_, call, ret, kvm) => f == ExitEvent(f.gen, call, ret, kvm)
      case ExitFragment(_, call, part) => f == ExitFragment(f.gen, call, part)
      case _ => f == e
  {
    var shown := ShownBy(e)[0];
    assert shown == ShownBy(f)[0];
  }

  lemma PutStamped(storage: map<Task, Pending>, gens: map<Task, nat>, task: Task, p: Pending, gen: nat)
    ensures Stamped(storage[task := p], gens[task := gen]) == Stamped(storage, gens)[task := Stamp(p, gen)]
    ensures GenOf(gens, task) == gen ==>
      Stamped(storage[task := p], gens) == Stamped(storage, gens)[task := Stamp(p, gen)]
  {
  }

  lemma StampedAt(storage: map<Task, Pending>, gens: map<Task, nat>, task: Task)
    ensures task in Stamped(storage, gens) <==> task in storage
    ensures task in storage ==> Stamped(storage, gens)[task] == Stamp(storage[task], GenOf(gens, task))
  {
  }

  lemma PutFlagged(filter: map<int, Word>, tid: int, w: Word)
    ensures Flagged(filter[tid := w]) == Flagged(filter)[tid := Decode(w)]
    ensures Flagged(filter - {tid}) == Flagged(filter) - {tid}
  {
  }

  /** Setting and clearing bits does to the flags what it says. */
  lemma WordFlags(w: Word)
    ensures Decode(TRACKED | PRE_EXEC) == Flags(true, true)
    ensures Decode(TRACKED | (w & PRE_EXEC)) == Flags(true, Decode(w).preExec)
    ensures Decode(w & !PRE_EXEC) == Flags(Decode(w).tracked, false)
    ensures Decode(TRACKED) == Flags(true, false)
  {
  }

  /** The path fragments of fds `first` .. `last`-1. */
  ghost function PathPayloads(w: World, fds: seq<int>, first: nat, last: nat): seq<seq<Byte>>
    requires first <= last <= |fds|
  {
    seq(last - first, i requires 0 <= i < last - first => EncodeAll([FdSection(w.vfs, NESTED_ARG_INDEX,
        w.files(fds[first + i]))]))
  }

  lemma PathPayloadsFirst(w: World, fds: seq<int>, first: nat, last: nat)
    requires first <= last <= |fds|
    ensures first < last ==>
      PathPayloads(w, fds, first, last) ==
      PathPayloads(w, fds, first, first + 1) + PathPayloads(w, fds, first + 1, last)
    ensures PathPayloads(w, fds, first, first) == []
  {
  }

  /** When the epoll collector looks at the result array, and what it finds there. */
  predicate CollectsEpoll(c: Ctx, id: int, call: Call, ret: int) {
    c.env.cfg.fdState && IsEpollWait(id) && ret > 0 && Arg(call.args, 1) != 0
  }

  ghost function EpollFds(w: World, call: Call, ret: int): seq<int>
    requires ret > 0
  {
    Window(Eligible(w.memory, Arg(call.args, 1) +
        EPOLL_DATA_OFFSET, EPOLL_EVENT_SIZE, FD_STATE_MAX_FD, Capped(ret, EPOLL_SLOT_MAX)))
  }

  /** What the poll and the select collector find, if they look. */
  ghost function PollFds(w: World, cfg: Config, id: int, args: seq<int>): seq<int>
    requires Arg(args, 1) >= 0
  {
    if !cfg.fdState || !IsPoll(id) || Arg(args, 0) == 0 || PollCount(id, Arg(args, 1)) == 0 then []
    else Window(Eligible(w.memory, Arg(args, 0), POLL_FD_SIZE, 0x8000_0000,
        Capped(PollCount(id, Arg(args, 1)), POLL_SLOT_MAX)))
  }

  ghost function SelectFds(w: World, cfg: Config, args: seq<int>): seq<int> {
    if !cfg.fdState then []
    else
      FirstDistinct(FdsOf(w.memory, Arg(args, 1), Arg(args, 0)) + FdsOf(w.memory, Arg(args, 2), Arg(args, 0)) +
                    FdsOf(w.memory, Arg(args, 3), Arg(args, 0)), NESTED_MAX)
  }

  /** The path fragments an enter emits over its candidates. */
  ghost function EnterPayloads(
      w: World, saved: State, c: Ctx, id: int, fds: seq<int>, tails: set<Slot>): seq<seq<Byte>> {
    if EnterPath0 in tails && EnterLinkRuns(saved, c, id, |fds|, 0)
    then PathPayloads(w, fds, 0, LastPath(true, 0, |fds|, tails)) else []
  }

  // ----- what the pieces of a program do -------------------------------------------------

  /** The process-scoped half of the teardown. */
  function ForgetProcess(s: State, pid: int, disarmOk: bool): State {
    Disarm(s.(filter := s.filter - {pid}, attachRoots := s.attachRoots - {pid}, forkFlags := s.forkFlags - {pid},
              unknownChildren := s.unknownChildren - {pid}, pendingExec := s.pendingExec - {pid},
              mainExited := s.mainExited - {pid}), pid, disarmOk)
  }

  /** The thread-scoped half. */
  function ForgetThread(s: State, pid: int, tid: int): State {
    s.(filter := s.filter - {tid}, attachRoots := s.attachRoots - {tid}, forkFlags := s.forkFlags - {tid},
       unknownChildren := s.unknownChildren - {tid},
       pendingExec :=
         if pid in s.pendingExec && s.pendingExec[pid] == tid then s.pendingExec - {pid} else s.pendingExec)
  }

  lemma TeardownParts(s: State, current: Task, pid: int, tid: int, disarmOk: bool)
    ensures tid == pid ==>
      Teardown(s, current, pid, tid, disarmOk) == ForgetProcess(ClearTask(s, current), pid, disarmOk)
    ensures tid != pid ==> Teardown(s, current, pid, tid, disarmOk) == ForgetThread(ClearTask(s, current), pid, tid)
    ensures ClearTask(s, current) == s.(core := ClearTask(s, current).core)
  {
    hide Clear;
  }

  /** EXIT_PROLOGUE: what is left when it returns early, and the record when it does not. */
  function Prologue(s: State, c: Ctx, id: int, ret: int): (State, Option<Found>) {
    var found := LookupForExit(s, c, ret);
    if found.None? then (Unmatched(s, c, id, ret), None)
    else if !Matches(found.value, id) then (Mismatch(s, c), None)
    else (s, found)
  }

  /** Fragments first .. last-1 of the pending call, the completed exit event, and consume. */
  function FinishFrom(s: State, c: Ctx, f: Found, first: nat, last: nat, ret: int): State
    requires HasValid(s.core, c.task)
  {
    FragmentsKeepStorage(s.core, s.core.storage[c.task], first, last);
    ConsumeMaps(s.(core := Complete(Fragments(s.core, s.core.storage[c.task], first, last), c.task, ret, None)), c, f)
  }

  function NextPath(entering: bool, k: nat): Slot {
    if entering then if k == 0 then EnterPath1 else if k == 1 then EnterPath2 else EnterPath3
    else if k == 0 then ExitPath1 else if k == 1 then ExitPath2 else ExitPath3
  }

  /** Where a path chain stops that has entered link `k`. */
  function LastPath(entering: bool, k: nat, count: nat, tails: set<Slot>): (last: nat)
    requires k < 4
    ensures k < last <= 4 && (k < count ==> last <= count)
    decreases 4 - k
  {
    if k < 3 && count > k + 1 && NextPath(entering, k) in tails then LastPath(entering, k + 1, count, tails) else k + 1
  }

  /** Link `k` of the epoll chain gets to its fragment. */
  predicate LinkRuns(s: State, c: Ctx, id: int, ret: int, count: nat, k: nat) {
    IsEpollWait(id) && Prologue(s, c, id, ret).1.Some? && k < count <= 4
  }

  /** What link `k` of the epoll path chain does, and all that follows from it. */
  function PathLink(s: State, c: Ctx, id: int, ret: int, count: nat, tails: set<Slot>, k: nat): State
    requires k < 4
  {
    var p := Prologue(s, c, id, ret);
    if !IsEpollWait(id) then s
    else if p.1.None? then p.0
    else if !LinkRuns(s, c, id, ret, count, k) then s
    else FinishFrom(s, c, p.1.value, k, LastPath(false, k, count, tails), ret)
  }

  /** Link `k` of the select and poll chain gets to its fragment: the pending record is the one
      this very enter saved. */
  predicate EnterLinkRuns(s: State, c: Ctx, id: int, count: nat, k: nat) {
    && (id == SYS_SELECT || IsPoll(id)) && c.env.cfg.fdState && k < count <= 4
    && HasValid(s.core, c.task)
    && var call := s.core.storage[c.task].call; call.pid == c.pid && call.tid == c.tid && call.sysId == id
  }

  function EnterPathLink(s: State, c: Ctx, id: int, count: nat, tails: set<Slot>, k: nat): State
    requires k < 4
  {
    if !EnterLinkRuns(s, c, id, count, k) then s
    else s.(core := Fragments(s.core, s.core.storage[c.task], k, LastPath(true, k, count, tails)))
  }

  /** Fragments emitted in two goes are in the order of one. */
  lemma {:induction false} FragmentsJoin(k: Core, t: TaskState, first: nat, mid: nat, last: nat)
    requires first <= mid <= last
    ensures Fragments(Fragments(k, t, first, mid), t, mid, last) == Fragments(k, t, first, last)
    decreases last
  {
    if mid < last { FragmentsJoin(k, t, first, mid, last - 1); }
  }

  lemma FragmentsFromFirst(k: Core, t: TaskState, first: nat, last: nat)
    requires first < last
    ensures Fragments(Note(k, ExitFragment(t.gen, t.call, first)), t, first + 1, last) == Fragments(k, t, first, last)
  {
    assert Fragments(k, t, first, first + 1) == Note(Fragments(k, t, first, first), ExitFragment(t.gen, t.call, first));
    FragmentsJoin(k, t, first, first + 1, last);
  }

  /** One link of the epoll chain: its fragment, then the next link or the end. */
  lemma PathLinkUnfolds(s: State, c: Ctx, id: int, ret: int, count: nat, tails: set<Slot>, k: nat)
    requires k < 4
    ensures !LinkRuns(s, c, id, ret, count, k) ==>
      PathLink(s, c, id, ret, count, tails, k) == if IsEpollWait(id) then Prologue(s, c, id, ret).0 else s
    ensures LinkRuns(s, c, id, ret, count, k) ==>
      var f := Prologue(s, c, id, ret).1.value; var s1 := Log(s, ExitFragment(f.state.gen, f.state.call, k));
      && HasValid(s1.core, c.task) && f.state == s1.core.storage[c.task]
      && if k < 3 && count > k + 1 && NextPath(false, k) in tails
         then LinkRuns(s1, c, id, ret, count, k + 1) &&
             PathLink(s, c, id, ret, count, tails, k) == PathLink(s1, c, id, ret, count, tails, k + 1)
         else PathLink(s, c, id, ret, count, tails, k) == Close(s1, c, f, ret, None)
  {
    if LinkRuns(s, c, id, ret, count, k) {
      FragmentsFromFirst(s.core, s.core.storage[c.task], k, LastPath(false, k, count, tails));
    }
  }

  /** One link of the select and poll chain: its fragment, then the next link. */
  lemma EnterPathLinkUnfolds(s: State, c: Ctx, id: int, count: nat, tails: set<Slot>, k: nat)
    requires k < 4
    ensures !EnterLinkRuns(s, c, id, count, k) ==> EnterPathLink(s, c, id, count, tails, k) == s
    ensures EnterLinkRuns(s, c, id, count, k) ==>
      var t := s.core.storage[c.task]; var s1 := Log(s, ExitFragment(t.gen, t.call, k));
      if k < 3 && count > k + 1 && NextPath(true, k) in tails
      then EnterLinkRuns(s1, c, id, count, k + 1) &&
          EnterPathLink(s, c, id, count, tails, k) == EnterPathLink(s1, c, id, count, tails, k + 1)
      else EnterPathLink(s, c, id, count, tails, k) == s1
  {
    if EnterLinkRuns(s, c, id, count, k) {
      FragmentsFromFirst(s.core, s.core.storage[c.task], k, LastPath(true, k, count, tails));
    }
  }

  /** The summarised path fragments of an enter are the chain over the record it saved. */
  lemma EnterPathsIsChain(s: State, c: Ctx, id: int, args: seq<int>, ei: EnterInput)
    ensures var saved := EmitAndSave(s, c, id, args, ei);
      && (c.env.cfg.fdState && ei.nested > 0 && EnterPath0 in ei.tails ==>
            EnterPaths(saved, c, id, ei) == EnterPathLink(saved, c, id, ei.nested, ei.tails, 0))
      && (!(c.env.cfg.fdState && ei.nested > 0 && EnterPath0 in ei.tails) ==> EnterPaths(saved, c, id, ei) == saved)
  {
    LastPathIsPathLinks(ei.nested, ei.tails);
  }

  lemma PathsProgram(s: State, c: Ctx, id: int, args: seq<int>, ei: EnterInput)
    ensures var r := EnterPaths(EmitAndSave(s, c, id, args, ei), c, id, ei);
      RunEnter(s, c, Poll, id, args, ei) == r && RunEnter(s, c, Select, id, args, ei) == r
  {
  }

  lemma EnterChainNone(s: State, c: Ctx, id: int, ei: EnterInput)
    ensures s.(core := EmitChain(s.core, c, id, EnterChain(Simple, id), ei.tails, 1)) == s
  {
  }

  /** Only the poll and select programs look at the candidate count. */
  lemma EnterIgnoresNested(s: State, c: Ctx, id: int, args: seq<int>, ei: EnterInput, n: nat)
    ensures CaptureForkFlags(s, c, id, args, ei.(nested := n)) == CaptureForkFlags(s, c, id, args, ei.(nested := 0))
    ensures EmitAndSave(s, c, id, args, ei.(nested := n)) == EmitAndSave(s, c, id, args, ei)
  {
  }

  /** The raw enter behind its filters: note the fork flags, then hand over. */
  function HandOver(s: State, c: Ctx, id: int, args: seq<int>, ei: EnterInput): State {
    var noted := CaptureForkFlags(s, c, id, args, ei);
    if !Dispatched(c.env.cfg, id) then noted
    else if id in c.env.enterRoutes &&
        EnterRoute in ei.tails then RunEnter(noted, c, c.env.enterRoutes[id], id, args, ei)
    else EmitAndSave(noted, c, id, args, ei)
  }

  lemma EnterHandsOver(s: State, c: Ctx, id: int, args: seq<int>, ei: EnterInput)
    ensures var flags := TaskFlags(s.filter, c.pid, c.tid);
      EnterStep(s, c, id, args, ei) ==
      if flags.None? then s
      else if !ei.native then RejectAbi(s, c, id)
      else if id == SYS_RT_SIGRETURN then s
      else if IsSuppressed(flags.value, id) then ArmExec(s, c, id, ei.armOk)
      else HandOver(ArmExec(s, c, id, ei.armOk), c, id, args, ei)
  {
  }

  /** An exit program without fragments: prologue, one completion, consume. */
  lemma SimpleExit(s: State, c: Ctx, prog: ExitProg, id: int, ret: int, xi: ExitInput)
    requires !prog.Io? && !prog.RecvmmsgBase01?
    ensures var p := Prologue(s, c, id, ret);
      RunExit(s, c, prog, id, ret, xi) ==
      if prog.GuardBefore? && id !in prog.family then s
      else if p.1.None? then p.0
      else if prog.GuardAfter? && id !in prog.family then s
      else Close(s, c, p.1.value, ret, if prog.Control? then KvmReason(p.1.value.state, ret) else None)
  {
  }

  /** The summarised I/O exit is the chain, or the completion alone. */
  lemma IoIsChain(s: State, c: Ctx, id: int, ret: int, xi: ExitInput)
    requires xi.nested <= 4
    ensures var p := Prologue(s, c, id, ret);
      RunExit(s, c, Io, id, ret, xi) ==
      if p.1.None? then p.0
      else if IsEpollWait(id) && ret > 0 && xi.nested > 0 &&
          ExitPath0 in xi.tails then PathLink(s, c, id, ret, xi.nested, xi.tails, 0)
      else Close(s, c, p.1.value, ret, None)
  {
    LastPathIsPathLinks(xi.nested, xi.tails);
  }

  lemma RunExitSkips(s: State, c: Ctx, id: int, ret: int, xi: ExitInput)
    requires id != SYS_RECVMMSG
    ensures RunExit(s, c, RecvmmsgBase01, id, ret, xi) == s
  {
  }

  /** The summarised recvmmsg exit is the first pair, then the second program or the end. */
  lemma RecvmmsgIsChain(s: State, c: Ctx, ret: int, xi: ExitInput)
    ensures var p := Prologue(s, c, SYS_RECVMMSG, ret);
      if p.1.None? then RunExit(s, c, RecvmmsgBase01, SYS_RECVMMSG, ret, xi) == p.0
      else
        var s1 := s.(core := Fragments(s.core, s.core.storage[c.task], 0, if ret > 0 then 2 else 0));
        && HasValid(s1.core, c.task) && s1.core.storage == s.core.storage
        && Prologue(s1, c, SYS_RECVMMSG, ret) == (s1, p.1)
        && RunExit(s, c, RecvmmsgBase01, SYS_RECVMMSG, ret, xi) ==
           if RecvmmsgBase23 in xi.tails then FinishFrom(s1, c, p.1.value, 2, if ret > 0 then 4 else 2, ret)
           else Close(s1, c, p.1.value, ret, None)
  {
    if Prologue(s, c, SYS_RECVMMSG, ret).1.Some? {
      FragmentsJoin(s.core, s.core.storage[c.task], 0, 2, 4);
      FragmentsKeepStorage(s.core, s.core.storage[c.task], 0, if ret > 0 then 2 else 0);
    }
  }

  /** The programs of a path chain refine the count of links that the steps use. */
  lemma LastPathIsPathLinks(count: nat, tails: set<Slot>)
    ensures LastPath(false, 0, count, tails) == PathLinks(count, tails, ExitPath1, ExitPath2, ExitPath3)
    ensures LastPath(true, 0, count, tails) == PathLinks(count, tails, EnterPath1, EnterPath2, EnterPath3)
  {
  }

  function Chain(s: State, c: Ctx, id: int, links: seq<Link>, tails: set<Slot>, part: nat): State {
    s.(core := EmitChain(s.core, c, id, links, tails, part))
  }

  /** A fragment program that has been entered: its own parts, then the rest of the chain. */
  function EnteredLink(s: State, c: Ctx, id: int, part: nat, parts: nat, rest: seq<Link>, tails: set<Slot>): State {
    Chain(s.(core := EmitParts(s.core, c, id, part, parts)), c, id, rest, tails, part + parts)
  }

  lemma ChainFirst(s: State, c: Ctx, id: int, slot: Slot, parts: nat, rest: seq<Link>, tails: set<Slot>, part: nat)
    ensures Chain(s, c, id, [Link(slot, parts)] + rest, tails, part) ==
      if slot in tails then EnteredLink(s, c, id, part, parts, rest, tails) else s
  {
    assert ([Link(slot, parts)] + rest)[1..] == rest;
  }

  function BytesSlot(k: nat): Slot {
    if k == 0 then MmsgBytes0 else if k == 1 then MmsgBytes1 else if k == 2 then MmsgBytes2 else MmsgBytes3
  }

  /** The links from bytes program `k` on. */
  function BytesLinks(k: nat): seq<Link>
    requires k <= 4
    decreases 4 - k
  {
    if k == 4 then [] else [Link(BytesSlot(k), 1)] + BytesLinks(k + 1)
  }

  function AfterBase3(id: int): seq<Link> { if id == SYS_SENDMMSG then BytesLinks(0) else [] }

  function AfterBase2(id: int): seq<Link> { [Link(MmsgBase3, 1)] + AfterBase3(id) }

  function AfterBase01(id: int): seq<Link> { [Link(MmsgBase2, 1)] + AfterBase2(id) }

  lemma MmsgChainIs(id: int)
    requires IsMmsg(id)
    ensures EnterChain(Mmsg, id) == [Link(MmsgBase01, 2)] + AfterBase01(id)
  {
    assert BytesLinks(2) == [Link(MmsgBytes2, 1), Link(MmsgBytes3, 1)];
    assert BytesLinks(0) == [Link(MmsgBytes0, 1), Link(MmsgBytes1, 1)] + BytesLinks(2);
  }

  // ----- what a run of the programs guarantees -------------------------------------------

  predicate GoodLabel(l: Label) { l.Enter? ==> Arg(l.args, 1) >= 0 }

  /** The same label, but for the candidate count, which is at most four. */
  predicate SameButCount(l: Label, done: Label) {
    match l
    case Enter(c, id, args, ei) =>
      done.Enter? && done == Enter(c, id, args, ei.(nested := done.ei.nested)) && done.ei.nested <= 4
    case Exit(c, id, ret, xi) =>
      done.Exit? && done == Exit(c, id, ret, xi.(nested := done.xi.nested)) && done.xi.nested <= 4
    case _ => done == l
  }

  lemma {:induction false} RunSnoc(s: State, labels: seq<Label>, l: Label)
    ensures Run(s, labels + [l]) == Step(Run(s, labels), l)
    decreases |labels|
  {
    hide Step;
    if labels == [] {
      assert [l][1..] == [];
    } else {
      assert (labels + [l])[1..] == labels[1..] + [l];
      RunSnoc(Step(s, labels[0]), labels[1..], l);
    }
  }

  /** Completed exits of `call` in the ring. */
  function Completed(ring: seq<Event>, call: Call): nat {
    if ring == [] then 0
    else Completed(ring[..|ring| - 1], call) + if ring[|ring| - 1].Exited? &&
        ring[|ring| - 1].call == call then 1 else 0
  }

  predicate IsExitOf(e: Event, call: Call) { (e.Exited? || e.Part?) && e.call == call }

  /** The ring needs no more than the raw enter edges of the run to be explained. */
  ghost predicate RingBacked(ring: seq<Event>, labels: seq<Label>) {
    && (forall call :: Completed(ring, call) <= Edges.Enters(labels, call))
    && (forall i, call :: 0 <= i < |ring| && IsExitOf(ring[i], call) ==>
        exists j :: 0 <= j < |labels| && Edges.IsEnterOf(labels[j], call))
    && (forall i :: 0 <= i < |ring| && ring[i].Exited? ==>
          exists j :: 0 <= j < |labels| && Steps.Closes(labels[j], ring[i].call, ring[i].ret))
  }

  ghost predicate EndsOnce(k: Core) {
    forall g: nat :: g < k.nextGen ==>
      Generations.Completions(k.log, g) <= 1 &&
      Generations.Truth(Generations.EndsCompleted(k, g)) + Generations.Truth(Generations.EndsDropped(k, g)) +
      Generations.Truth(Generations.EndsOverwritten(k, g)) + Generations.Truth(Generations.StillPending(k, g)) == 1
  }

  lemma CompletedSnoc(ring: seq<Event>, e: Event, call: Call)
    ensures Completed(ring + [e], call) == Completed(ring, call) + if e.Exited? && e.call == call then 1 else 0
  {
    assert (ring + [e])[..|ring|] == ring;
  }

  lemma {:induction false} ShownExits(h: History, call: Call)
    ensures Completed(Shown(h), call) == Edges.Exits(h, call)
    ensures forall i :: 0 <= i < |Shown(h)| && IsExitOf(Shown(h)[i], call) ==> Edges.Mentions(h, call)
  {
    hide Completed;
    match h
    case Start => assert Completed([], call) == 0 by { NothingCompleted(call); }
    case Then(before, e) =>
      ShownExits(before, call);
      if ShownBy(e) != [] {
        assert ShownBy(e) == [ShownBy(e)[0]];
        CompletedSnoc(Shown(before), ShownBy(e)[0], call);
      } else {
        assert Shown(h) == Shown(before);
      }
  }

  lemma NothingCompleted(call: Call)
    ensures Completed([], call) == 0
  {
  }

  lemma {:induction false} SameEnters(labels: seq<Label>, done: seq<Label>, call: Call)
    requires |done| == |labels| && forall i :: 0 <= i < |labels| ==> SameButCount(labels[i], done[i])
    ensures Edges.Enters(done, call) == Edges.Enters(labels, call)
    decreases |labels|
  {
    if labels != [] { SameEnters(labels[1..], done[1..], call); }
  }

  lemma RunIsBacked(s: State, labels: seq<Label>, done: seq<Label>, ring: seq<Event>)
    requires Initial(s) && |done| == |labels| && forall i :: 0 <= i < |labels| ==> SameButCount(labels[i], done[i])
    requires ring == Shown(Run(s, done).core.log)
    ensures RingBacked(ring, labels)
  {
    var h := Run(s, done).core.log;
    forall call ensures Completed(ring, call) <= Edges.Enters(labels, call) {
      ShownExits(h, call);
      SameEnters(labels, done, call);
      Edges.EveryExitHasItsEdge(s, done, call);
    }
    forall i, call | 0 <= i < |ring| && IsExitOf(ring[i], call)
      ensures exists j :: 0 <= j < |labels| && Edges.IsEnterOf(labels[j], call)
    {
      ShownExits(h, call);
      Edges.EveryExitHasItsEdge(s, done, call);
      var j :| 0 <= j < |done| && Edges.IsEnterOf(done[j], call);
      assert SameButCount(labels[j], done[j]);
      assert Edges.IsEnterOf(labels[j], call);
    }
    forall i | 0 <= i < |ring| && ring[i].Exited?
      ensures exists j :: 0 <= j < |labels| && Steps.Closes(labels[j], ring[i].call, ring[i].ret)
    {
      ShownReturns(h, ring[i].call, ring[i].ret, i);
      Stories.EveryReturnHasItsExit(s, done, ring[i].call, ring[i].ret);
      var j :| 0 <= j < |done| && Steps.Closes(done[j], ring[i].call, ring[i].ret);
      assert SameButCount(labels[j], done[j]);
      assert Steps.Closes(labels[j], ring[i].call, ring[i].ret);
    }
  }

  lemma {:induction false} ShownReturns(h: History, call: Call, ret: int, i: nat)
    requires i < |Shown(h)| && Shown(h)[i].Exited? && Shown(h)[i].call == call && Shown(h)[i].ret == ret
    ensures Stories.ExitedWith(h, call, ret)
  {
    match h
    case Then(before, e) => if i < |Shown(before)| { ShownReturns(before, call, ret, i); }
  }

  lemma RunEndsOnce(s: State, done: seq<Label>)
    requires Initial(s)
    ensures EndsOnce(Run(s, done).core) && Generations.CarriesSavedCalls(Run(s, done).core.log)
  {
    forall g: nat | g < Run(s, done).core.nextGen
      ensures var k := Run(s, done).core;
        Generations.Completions(k.log, g) <= 1 &&
        Generations.Truth(Generations.EndsCompleted(k, g)) + Generations.Truth(Generations.EndsDropped(k, g)) +
        Generations.Truth(Generations.EndsOverwritten(k, g)) + Generations.Truth(Generations.StillPending(k, g)) == 1
    {
      Generations.EveryGenerationEndsOnce(s, done, g);
    }
    Generations.EveryExitCarriesItsEnter(s, done);
  }
}
