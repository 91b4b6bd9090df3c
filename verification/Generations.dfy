/** Every saved pending record meets exactly one end, in every run.

    The counts below are read off the history alone; the invariant ties them to the task
    storage. Each primitive of `PendingCore` keeps the invariant, and every step of the
    protocol is a composition of those primitives. */
module Generations {
  import opened Abi
  import opened PendingCore
  import opened Protocol
  import opened Steps

  ghost function Completions(h: History, g: nat): nat {
    match h
    case Start => 0
    case Then(before, e) => Completions(before, g) + if e.ExitEvent? && e.gen == g then 1 else 0
  }

  ghost function Retirements(h: History, g: nat): nat {
    match h
    case Start => 0
    case Then(before, e) => Retirements(before, g) + if e.Retired? && e.gen == g then 1 else 0
  }

  ghost function Overwrites(h: History, g: nat): nat {
    match h
    case Start => 0
    case Then(before, e) => Overwrites(before, g) + if e.Overwritten? && e.gen == g then 1 else 0
  }

  ghost function SavedCall(h: History, g: nat): Option<Call> {
    match h
    case Start => None
    case Then(before, e) => if e.Saved? && e.gen == g then Some(e.call) else SavedCall(before, g)
  }

  /** The last value written to aux0 during generation `g`; 0 when there was none. */
  ghost function LastAux(h: History, g: nat): int {
    match h
    case Start => 0
    case Then(before, e) => if e.AuxSet? && e.gen == g then e.value else LastAux(before, g)
  }

  /** Every exit event, completed or fragment, carries the call saved for its generation. */
  ghost predicate CarriesSavedCalls(h: History) {
    match h
    case Start => true
    case Then(before, e) =>
      CarriesSavedCalls(before) &&
      ((e.ExitEvent? || e.ExitFragment?) ==> SavedCall(before, e.gen) == Some(e.call))
  }

  ghost predicate Live(k: Core, g: nat) {
    exists task :: HasValid(k, task) && k.storage[task].gen == g
  }

  ghost predicate Untouched(h: History, g: nat) {
    Completions(h, g) == 0 && Retirements(h, g) == 0 && Overwrites(h, g) == 0 &&
    SavedCall(h, g) == None && LastAux(h, g) == 0
  }

  ghost predicate Numbered(k: Core) {
    && (forall task :: HasValid(k, task) ==> k.storage[task].gen < k.nextGen)
    && (forall a, b :: HasValid(k, a) && HasValid(k, b) && a != b ==> k.storage[a].gen != k.storage[b].gen)
    && (forall g: nat :: g >= k.nextGen ==> Untouched(k.log, g))
  }

  ghost predicate Balanced(k: Core) {
    && (forall g: nat :: g < k.nextGen ==>
          Retirements(k.log, g) + Overwrites(k.log, g) == if Live(k, g) then 0 else 1)
    && (forall g: nat :: Completions(k.log, g) <= Retirements(k.log, g))
  }

  ghost predicate CallsRecorded(k: Core) {
    && CarriesSavedCalls(k.log)
    && forall task :: HasValid(k, task) ==>
         SavedCall(k.log, k.storage[task].gen) == Some(k.storage[task].call) &&
         LastAux(k.log, k.storage[task].gen) == k.storage[task].aux0
  }

  ghost predicate Inv(k: Core) { Numbered(k) && Balanced(k) && CallsRecorded(k) }

  /** One more effect moves at most one count of one generation. */
  lemma ThenCounts(h: History, e: Effect)
    ensures forall g: nat :: Completions(Then(h, e), g) == Completions(h, g) + if e.ExitEvent? &&
      e.gen == g then 1 else 0
    ensures forall g: nat :: Retirements(Then(h, e), g) == Retirements(h, g) + if e.Retired? && e.gen == g then 1 else 0
    ensures forall g: nat :: Overwrites(Then(h, e), g) == Overwrites(h, g) + if e.Overwritten? &&
      e.gen == g then 1 else 0
    ensures forall g: nat :: SavedCall(Then(h, e), g) == if e.Saved? &&
      e.gen == g then Some(e.call) else SavedCall(h, g)
    ensures forall g: nat :: LastAux(Then(h, e), g) == if e.AuxSet? && e.gen == g then e.value else LastAux(h, g)
  {
  }

  // ----- the primitives ------------------------------------------------------------------

  lemma NoteKeeps(k: Core, e: Effect)
    requires Inv(k) && (Neutral(e) || e.KvmSeen?)
    ensures Inv(Note(k, e))
  {
    var k' := Note(k, e);
    assert forall task :: HasValid(k', task) == HasValid(k, task);
    assert forall g: nat :: Live(k', g) == Live(k, g);
    assert forall g: nat :: Untouched(k.log, g) ==> Untouched(k'.log, g);
  }

  lemma SetAuxKeeps(k: Core, task: Task, value: int)
    requires Inv(k) && HasValid(k, task)
    ensures Inv(SetAux(k, task, value))
  {
    var k' := SetAux(k, task, value);
    assert forall t :: HasValid(k', t) == HasValid(k, t);
    forall g: nat ensures Live(k', g) == Live(k, g) {
      if Live(k, g) { var t :| HasValid(k, t) && k.storage[t].gen == g; assert HasValid(k', t); }
      if Live(k', g) { var t :| HasValid(k', t) && k'.storage[t].gen == g; assert HasValid(k, t); }
    }
    assert forall g: nat :: g >= k.nextGen ==> Untouched(k.log, g) ==> Untouched(k'.log, g);
  }

  /** What clearing a valid record does to liveness: its generation dies, no other changes. */
  lemma LiveAfterEnd(k: Core, k': Core, task: Task, g: nat)
    requires Numbered(k) && HasValid(k, task) && !HasValid(k', task)
    requires forall t :: t != task ==> HasValid(k', t) == HasValid(k, t)
    requires forall t :: t != task && HasValid(k, t) && HasValid(k', t) ==> k'.storage[t].gen == k.storage[t].gen
    ensures Live(k', g) == (Live(k, g) && g != k.storage[task].gen)
  {
    if Live(k, g) && g != k.storage[task].gen {
      var t :| HasValid(k, t) && k.storage[t].gen == g;
      assert HasValid(k', t);
    }
    if Live(k', g) {
      var t :| HasValid(k', t) && k'.storage[t].gen == g;
      assert HasValid(k, t);
    }
  }

  /** Clearing a valid record retires its generation. */
  lemma ClearValidKeeps(k: Core, task: Task)
    requires Inv(k) && HasValid(k, task)
    ensures Inv(Clear(k, task))
  {
    var k' := Clear(k, task);
    assert forall t :: t != task ==> HasValid(k', t) == HasValid(k, t);
    forall g: nat ensures Live(k', g) == (Live(k, g) && g != k.storage[task].gen) { LiveAfterEnd(k, k', task, g); }
    assert Live(k, k.storage[task].gen);
    assert forall g: nat :: g >= k.nextGen ==> Untouched(k.log, g) ==> Untouched(k'.log, g);
  }

  lemma ClearKeeps(k: Core, task: Task)
    requires Inv(k)
    ensures Inv(Clear(k, task))
    ensures !HasValid(Clear(k, task), task)
  {
    if HasValid(k, task) {
      ClearValidKeeps(k, task);
    } else {
      assert forall t :: HasValid(Clear(k, task), t) == HasValid(k, t);
      assert forall g: nat :: Live(Clear(k, task), g) == Live(k, g);
    }
  }

  lemma CompleteKeeps(k: Core, task: Task, ret: int, kvm: Option<int>)
    requires Inv(k) && HasValid(k, task)
    ensures Inv(Complete(k, task, ret, kvm))
    ensures !HasValid(Complete(k, task, ret, kvm), task)
  {
    var k' := Complete(k, task, ret, kvm);
    assert forall t :: t != task ==> HasValid(k', t) == HasValid(k, t);
    forall g: nat ensures Live(k', g) == (Live(k, g) && g != k.storage[task].gen) { LiveAfterEnd(k, k', task, g); }
    assert Live(k, k.storage[task].gen);
    ThenCounts(k.log, ExitEvent(k.storage[task].gen, k.storage[task].call, ret, kvm));
    forall g: nat | g >= k'.nextGen ensures Untouched(k'.log, g) { assert Untouched(k.log, g); }
  }

  /** A save brings its own generation to life and ends the one it overwrites. */
  lemma SaveLives(k: Core, task: Task, call: Call, g: nat)
    requires Inv(k)
    ensures Live(Save(k, task, call), g) ==
      (g == k.nextGen || (Live(k, g) && !(HasValid(k, task) && g == k.storage[task].gen)))
  {
    var k' := Save(k, task, call);
    if g == k.nextGen { assert HasValid(k', task); }
    if Live(k, g) && !(HasValid(k, task) && g == k.storage[task].gen) {
      var t :| HasValid(k, t) && k.storage[t].gen == g;
      assert HasValid(k', t);
    }
    if Live(k', g) && g != k.nextGen {
      var t :| HasValid(k', t) && k'.storage[t].gen == g;
      assert HasValid(k, t);
    }
  }

  lemma SaveNumbered(k: Core, task: Task, call: Call)
    requires Inv(k)
    ensures Numbered(Save(k, task, call))
  {
    var k' := Save(k, task, call);
    assert forall t :: t != task ==> HasValid(k', t) == HasValid(k, t);
    forall g: nat | g >= k'.nextGen ensures Untouched(k'.log, g) { assert Untouched(k.log, g); }
  }

  lemma SaveBalanced(k: Core, task: Task, call: Call)
    requires Inv(k)
    ensures Balanced(Save(k, task, call))
  {
    var k' := Save(k, task, call);
    forall g: nat
      ensures Live(k', g) == (g == k.nextGen || (Live(k, g) && !(HasValid(k, task) && g == k.storage[task].gen)))
    {
      SaveLives(k, task, call, g);
    }
    assert Untouched(k.log, k.nextGen);
    if HasValid(k, task) {
      assert Live(k, k.storage[task].gen);
      ThenCounts(k.log, Overwritten(k.storage[task].gen));
    }
  }

  lemma SaveRecorded(k: Core, task: Task, call: Call)
    requires Inv(k)
    ensures CallsRecorded(Save(k, task, call))
  {
    var k' := Save(k, task, call);
    assert forall t :: t != task ==> HasValid(k', t) == HasValid(k, t);
    assert Untouched(k.log, k.nextGen);
    var marked := if HasValid(k, task) then Then(k.log, Overwritten(k.storage[task].gen)) else k.log;
    ThenCounts(marked, Saved(k.nextGen, call));
    ThenCounts(k.log, Overwritten(k.nextGen));
  }

  lemma SaveKeeps(k: Core, task: Task, call: Call)
    requires Inv(k)
    ensures Inv(Save(k, task, call))
    ensures HasValid(Save(k, task, call), task)
  {
    SaveNumbered(k, task, call);
    SaveBalanced(k, task, call);
    SaveRecorded(k, task, call);
  }

  lemma FragmentKeeps(k: Core, task: Task, part: nat)
    requires Inv(k) && HasValid(k, task)
    ensures Inv(Fragment(k, task, part))
  {
    var k' := Fragment(k, task, part);
    assert forall t :: HasValid(k', t) == HasValid(k, t);
    assert forall g: nat :: Live(k', g) == Live(k, g);
    assert forall g: nat :: Untouched(k.log, g) ==> Untouched(k'.log, g);
  }

  lemma ObserveKeeps(k: Core, task: Task, reason: int, error: int)
    requires Inv(k) && HasValid(k, task)
    ensures Inv(Observe(k, task, reason, error))
  {
    NoteKeeps(k, KvmSeen(k.storage[task].gen, reason, error));
    SetAuxKeeps(Note(k, KvmSeen(k.storage[task].gen, reason, error)), task, KvmAux(reason, error));
  }

  lemma InvIsClosed(who: Task, auxOk: Call -> bool)
    ensures Closed(Inv, AnyMove(who, auxOk))
  {
    forall k, e | Inv(k) && Neutral(e) ensures Inv(Note(k, e)) { NoteKeeps(k, e); }
    forall k, part: nat | Inv(k) &&
        HasValid(k, who) ensures Inv(Fragment(k, who, part)) { FragmentKeeps(k, who, part); }
    forall k | Inv(k) ensures Inv(Clear(k, who)) { ClearKeeps(k, who); }
    forall k, call | Inv(k) ensures Inv(Save(k, who, call)) { SaveKeeps(k, who, call); }
    forall k, v | Inv(k) && HasValid(k, who) ensures Inv(SetAux(k, who, v)) { SetAuxKeeps(k, who, v); }
    forall k, ret, kvm | Inv(k) && HasValid(k, who) ensures Inv(Complete(k, who, ret, kvm)) {
      CompleteKeeps(k, who, ret, kvm);
    }
    forall k, reason, error | Inv(k) && HasValid(k, who) ensures Inv(Observe(k, who, reason, error)) {
      ObserveKeeps(k, who, reason, error);
    }
  }

  lemma StepInv(s: State, l: Label)
    requires Inv(s.core)
    ensures Inv(Step(s, l).core)
  {
    InvIsClosed(l.c.task, AnyCall);
    StepKeeps(Inv, AnyMove(l.c.task, AnyCall), s, l);
  }

  lemma RunInv(s: State, labels: seq<Label>)
    requires Initial(s)
    ensures Inv(Run(s, labels).core)
  {
    forall who ensures Closed(Inv, AnyMove(who, AnyCall)) { InvIsClosed(who, AnyCall); }
    RunKeeps(Inv, AnyCall, s, labels);
  }

  // ----- the theorems --------------------------------------------------------------------

  /** The four ends of a generation. */
  ghost predicate EndsCompleted(k: Core, g: nat) { Completions(k.log, g) == 1 && Retirements(k.log, g) == 1 }
  ghost predicate EndsDropped(k: Core, g: nat) { Completions(k.log, g) == 0 && Retirements(k.log, g) == 1 }
  ghost predicate EndsOverwritten(k: Core, g: nat) { Completions(k.log, g) == 0 && Overwrites(k.log, g) == 1 }
  ghost predicate StillPending(k: Core, g: nat) { Completions(k.log, g) == 0 && Live(k, g) }

  ghost function Truth(b: bool): nat { if b then 1 else 0 }

  /** In every interleaving, over any number of tasks, every saved generation has at most one
      completed exit event and exactly one of the four ends. */
  lemma EveryGenerationEndsOnce(s: State, labels: seq<Label>, g: nat)
    requires Initial(s)
    requires g < Run(s, labels).core.nextGen
    ensures var k := Run(s, labels).core;
      Completions(k.log, g) <= 1 &&
      Truth(EndsCompleted(k, g)) + Truth(EndsDropped(k, g)) + Truth(EndsOverwritten(k, g)) +
          Truth(StillPending(k, g)) == 1
  {
    RunInv(s, labels);
  }

  /** In every run, every exit event (completed or fragment) carries the pid, tid, syscall id
      and arguments saved for its own generation. */
  lemma EveryExitCarriesItsEnter(s: State, labels: seq<Label>)
    requires Initial(s)
    ensures CarriesSavedCalls(Run(s, labels).core.log)
  {
    RunInv(s, labels);
  }

  /** aux0 is generation-local: what a task reads back is the last value written during the
      very generation that is pending, and 0 when nothing was. */
  lemma AuxIsGenerationLocal(s: State, labels: seq<Label>, task: Task)
    requires Initial(s)
    requires HasValid(Run(s, labels).core, task)
    ensures var k := Run(s, labels).core; k.storage[task].aux0 == LastAux(k.log, k.storage[task].gen)
  {
    RunInv(s, labels);
  }

  // ----- which steps end a generation ----------------------------------------------------

  lemma FragmentsCount(k: Core, t: TaskState, first: nat, last: nat, g: nat)
    ensures var h := Fragments(k, t, first, last).log;
      Completions(h, g) == Completions(k.log, g) && Retirements(h, g) == Retirements(k.log, g)
    decreases last
  {
    if last > first { FragmentsCount(k, t, first, last - 1, g); }
  }

  lemma CompleteCount(k: Core, task: Task, ret: int, kvm: Option<int>, g: nat)
    requires HasValid(k, task)
    ensures var h := Complete(k, task, ret, kvm).log; var now := Truth(g == k.storage[task].gen);
      Completions(h, g) == Completions(k.log, g) + now && Retirements(h, g) == Retirements(k.log, g) + now
  {
    ThenCounts(k.log, ExitEvent(k.storage[task].gen, k.storage[task].call, ret, kvm));
  }

  /** The record of the current task is the one this raw exit closes. */
  predicate Owns(s: State, c: Ctx, id: int, ret: int) {
    && HasValid(s.core, c.task)
    && var call := s.core.storage[c.task].call;
    && call.sysId == id
    && (call.tid == c.tid ||
        (ret == 0 && IsExec(id) && c.pid in s.pendingExec && s.pendingExec[c.pid] == call.tid))
  }

  /** A raw exit that gets past the dispatcher's filters. */
  predicate ReachesExit(s: State, c: Ctx, id: int, xi: ExitInput) {
    && id >= 0 && id != SYS_RT_SIGRETURN && xi.native && Dispatched(c.env.cfg, id)
    && TaskFlags(s.filter, c.pid, c.tid).Some?
    && !IsSuppressed(TaskFlags(s.filter, c.pid, c.tid).value, id)
  }

  function ExitProgram(c: Ctx, id: int, xi: ExitInput): ExitProg {
    if id in c.env.exitRoutes && ExitRoute in xi.tails then c.env.exitRoutes[id] else Plain
  }

  function ForgetForkFlags(s: State, c: Ctx, id: int): State {
    if id == SYS_CLONE || id == SYS_CLONE3 then s.(forkFlags := s.forkFlags - {c.tid}) else s
  }

  lemma ExitRunsProgram(s: State, c: Ctx, id: int, ret: int, xi: ExitInput)
    requires ReachesExit(s, c, id, xi)
    ensures ExitStep(s, c, id, ret, xi) == RunExit(ForgetForkFlags(s, c, id), c, ExitProgram(c, id, xi), id, ret, xi)
  {
  }

  lemma OwnedExit(s: State, c: Ctx, prog: ExitProg, id: int, ret: int, xi: ExitInput, g: nat)
    requires Owns(s, c, id, ret) && !SkipsAll(prog, id) && !SkipsMatched(prog, id, ret, xi)
    ensures var s' := RunExit(s, c, prog, id, ret, xi); var now := Truth(g == s.core.storage[c.task].gen);
      && !HasValid(s'.core, c.task)
      && Completions(s'.core.log, g) == Completions(s.core.log, g) + now
      && Retirements(s'.core.log, g) == Retirements(s.core.log, g) + now
      && s'.mismatches == s.mismatches && s'.orphans == s.orphans
  {
    var t := s.core.storage[c.task];
    var n := ExitFragments(prog, id, ret, xi);
    FragmentsCount(s.core, t, 0, n, g);
    FragmentsKeepStorage(s.core, t, 0, n);
    CompleteCount(Fragments(s.core, t, 0, n), c.task, ret, if prog.Control? then KvmReason(t, ret) else None, g);
  }

  lemma DisownedExit(s: State, c: Ctx, prog: ExitProg, id: int, ret: int, xi: ExitInput)
    requires HasValid(s.core, c.task) && !Owns(s, c, id, ret) && !SkipsAll(prog, id)
    ensures RunExit(s, c, prog, id, ret, xi) == Mismatch(s, c)
  {
  }

  /** The verdict of one raw exit that reaches a handler of its own family. It completes the
      pending generation exactly when the saved id is the raw id and the saved tid is the
      current one or the recorded exec handoff; a valid record that does not match is dropped,
      with one mismatch counted and no event; and with no record at all nothing changes but
      possibly the orphan count. */
  lemma ExitVerdict(s: State, c: Ctx, id: int, ret: int, xi: ExitInput, g: nat)
    requires ReachesExit(s, c, id, xi)
    requires !SkipsAll(ExitProgram(c, id, xi), id) && !SkipsMatched(ExitProgram(c, id, xi), id, ret, xi)
    ensures var s' := ExitStep(s, c, id, ret, xi);
      var mine := HasValid(s.core, c.task) && g == s.core.storage[c.task].gen;
      && !HasValid(s'.core, c.task)
      && Completions(s'.core.log, g) == Completions(s.core.log, g) + Truth(mine && Owns(s, c, id, ret))
      && Retirements(s'.core.log, g) == Retirements(s.core.log, g) + Truth(mine)
      && s'.mismatches == s.mismatches + Truth(HasValid(s.core, c.task) && !Owns(s, c, id, ret))
      && (HasValid(s.core, c.task) && !Owns(s, c, id, ret) ==>
            s'.core == Clear(s.core, c.task) && c.pid !in s'.pendingExec)
      && (HasValid(s.core, c.task) ==> s'.orphans == s.orphans)
      && (!HasValid(s.core, c.task) ==> s'.core == s.core)
  {
    ExitRunsProgram(s, c, id, ret, xi);
    var noted := ForgetForkFlags(s, c, id);
    assert Owns(noted, c, id, ret) == Owns(s, c, id, ret);
    if HasValid(s.core, c.task) {
      if Owns(s, c, id, ret) {
        OwnedExit(noted, c, ExitProgram(c, id, xi), id, ret, xi, g);
      } else {
        DisownedExit(noted, c, ExitProgram(c, id, xi), id, ret, xi);
      }
    }
  }

  lemma {:induction false} NativeEnterDropsNothing(s: State, c: Ctx, id: int, args: seq<int>, ei: EnterInput, g: nat)
    requires ei.native
    ensures Retirements(EnterStep(s, c, id, args, ei).core.log, g) == Retirements(s.core.log, g)
  {
    var n := Retirements(s.core.log, g);
    var P := (k: Core) => Retirements(k.log, g) == n;
    forall k, call | P(k) ensures P(Save(k, c.task, call)) {
      if HasValid(k, c.task) { ThenCounts(k.log, Overwritten(k.storage[c.task].gen)); }
    }
    NativeEnterKeeps(P, AnyMove(c.task, AnyCall), s, c, id, args, ei);
  }

  /** A pending record is dropped without completion only by an ABI rejection, a counted
      mismatch on a raw exit, or the teardown of a task. */
  lemma DropsAreAccountedFor(s: State, l: Label, g: nat)
    requires Retirements(Step(s, l).core.log, g) > Retirements(s.core.log, g)
    requires Completions(Step(s, l).core.log, g) == Completions(s.core.log, g)
    ensures
      || (l.Enter? && !l.ei.native)
      || (l.Exit? && (!l.xi.native || Step(s, l).mismatches == s.mismatches + 1))
      || l.TaskExit?
      || l.Free?
  {
    match l
    case Enter(c, id, args, ei) => if ei.native { NativeEnterDropsNothing(s, c, id, args, ei, g); }
    case Exit(c, id, ret, xi) => if xi.native { NativeExitDrops(s, c, id, ret, xi, g); }
    case Fork(c, child, preOk, installOk, unknownOk) => ForkDropsNothing(s, c, child, preOk, installOk, unknownOk, g);
    case ExecDone(c, oldTid, adoptOk, clearOk, disarmOk) =>
      ExecDropsNothing(s, c, oldTid, adoptOk, clearOk, disarmOk, g);
    case TaskExit(c, code, markOk, disarmOk) =>
    case Free(c, freed, disarmOk) =>
    case Kvm(c, reason, error) => KvmDropsNothing(s, c, reason, error, g);
    case RecvmsgReturn(c, ret, tails) => RecvmsgDropsNothing(s, c, ret, tails, g);
  }

  lemma NativeExitDrops(s: State, c: Ctx, id: int, ret: int, xi: ExitInput, g: nat)
    requires xi.native
    ensures var s' := ExitStep(s, c, id, ret, xi);
      Retirements(s'.core.log, g) - Retirements(s.core.log, g) ==
          Completions(s'.core.log, g) - Completions(s.core.log, g) ||
      s'.mismatches == s.mismatches + 1
  {
    if ReachesExit(s, c, id, xi) && !SkipsAll(ExitProgram(c, id, xi), id) &&
        !SkipsMatched(ExitProgram(c, id, xi), id, ret, xi) {
      ExitVerdict(s, c, id, ret, xi, g);
    }
  }

  lemma ForkDropsNothing(s: State, c: Ctx, child: int, preOk: bool, installOk: bool, unknownOk: bool, g: nat)
    ensures Retirements(ForkStep(s, c, child, preOk, installOk, unknownOk).core.log, g) == Retirements(s.core.log, g)
  {
    var followed := FollowChild(ArmChild(s, c, child, preOk), c, child, installOk);
    var identity := ForkIdentity(ParentForkFlags(s, c), c.pid);
    ThenCounts(s.core.log, Lifecycle(ForkEvent, c.pid, c.tid, identity, child));
    assert followed.core == s.core;
  }

  lemma ExecDropsNothing(s: State, c: Ctx, oldTid: int, adoptOk: bool, clearOk: bool, disarmOk: bool, g: nat)
    ensures var s' := ExecStep(s, c, oldTid, adoptOk, clearOk, disarmOk);
      Retirements(s'.core.log, g) - Retirements(s.core.log, g) ==
          Completions(s'.core.log, g) - Completions(s.core.log, g)
  {
    hide ExecStep, Complete;
    if HasValid(s.core, c.task) { CompleteCount(s.core, c.task, 0, None, g); }
    ExecStepCore(s, c, oldTid, adoptOk, clearOk, disarmOk);
  }

  lemma KvmDropsNothing(s: State, c: Ctx, reason: int, error: int, g: nat)
    ensures Retirements(KvmStep(s, c, reason, error).core.log, g) == Retirements(s.core.log, g)
  {
    if HasValid(s.core, c.task) { ThenCounts(s.core.log, KvmSeen(s.core.storage[c.task].gen, reason, error)); }
  }

  lemma RecvmsgDropsNothing(s: State, c: Ctx, ret: int, tails: set<Slot>, g: nat)
    ensures var s' := RecvmsgStep(s, c, ret, tails);
      Retirements(s'.core.log, g) - Retirements(s.core.log, g) ==
          Completions(s'.core.log, g) - Completions(s.core.log, g)
  {
    hide RecvmsgStep, Complete;
    RecvmsgCore(s, c, ret, tails);
    if HasValid(s.core, c.task) {
      var named := if ret > 0 then Fragment(s.core, c.task, 0) else s.core;
      assert Retirements(named.log, g) == Retirements(s.core.log, g);
      assert Completions(named.log, g) == Completions(s.core.log, g);
      var controlled := if ret >= 0 then Fragment(named, c.task, 1) else named;
      assert Retirements(controlled.log, g) == Retirements(named.log, g);
      assert Completions(controlled.log, g) == Completions(named.log, g);
      CompleteCount(controlled, c.task, ret, None, g);
    }
  }
}
