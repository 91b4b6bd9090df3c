/** Nothing goes unreported: in a behaved run every dispatched call is either reported exactly
    once or still pending. */
module Reports {
  import opened Abi
  import opened PendingCore
  import opened Protocol
  import opened Steps
  import opened Generations
  import opened Chains
  import opened Handoff
  import opened CleanRuns
  import opened Edges

  /** Completed exits of `call` and records of it that still wait for theirs. */
  ghost function Balance(k: Core, call: Call): nat { Exits(k.log, call) + |Waiting(k, call)| }

  // ----- how the moves change it ---------------------------------------------------------

  lemma NoteBalance(k: Core, call: Call, e: Effect)
    requires !e.ExitEvent?
    ensures Balance(Note(k, e), call) == Balance(k, call)
  {
    assert Waiting(Note(k, e), call) == Waiting(k, call);
  }

  lemma SetAuxBalance(k: Core, call: Call, who: Task, v: int)
    requires HasValid(k, who)
    ensures Balance(SetAux(k, who, v), call) == Balance(k, call)
  {
    assert Waiting(SetAux(k, who, v), call) == Waiting(k, call);
  }

  /** Completing moves one from waiting to reported. */
  lemma CompleteBalance(k: Core, call: Call, who: Task, ret: int, kvm: Option<int>)
    requires HasValid(k, who)
    ensures Balance(Complete(k, who, ret, kvm), call) == Balance(k, call)
  {
    var t := k.storage[who];
    var noted := Then(k.log, ExitEvent(t.gen, t.call, ret, kvm));
    assert Complete(k, who, ret, kvm).log == Then(noted, Retired(t.gen));
    assert Exits(noted, call) == Exits(k.log, call) + Truth(t.call == call);
    assert Waiting(Complete(k, who, ret, kvm), call) == Waiting(k, call) - {who};
    assert who in Waiting(k, call) <==> t.call == call;
  }

  lemma SaveWaiting(k: Core, call: Call, who: Task, saved: Call)
    requires !HasValid(k, who)
    ensures who !in Waiting(k, call)
    ensures Waiting(Save(k, who, saved), call) == if saved == call then Waiting(k, call) + {who} else Waiting(k, call)
  {
  }

  /** Saving over nothing adds the saved call. */
  lemma SaveBalance(k: Core, call: Call, who: Task, saved: Call)
    requires !HasValid(k, who)
    ensures Balance(Save(k, who, saved), call) == Balance(k, call) + Truth(saved == call)
  {
    SaveWaiting(k, call, who, saved);
    assert Save(k, who, saved).log == Then(k.log, Saved(k.nextGen, saved));
    hide Waiting, Save;
  }

  lemma ClearBalance(k: Core, call: Call, who: Task)
    requires !HasValid(k, who)
    ensures Balance(Clear(k, who), call) == Balance(k, call) && !HasValid(Clear(k, who), who)
  {
    assert Waiting(Clear(k, who), call) == Waiting(k, call);
  }

  lemma BalanceIsClosed(call: Call, n: nat, who: Task)
    ensures DoneClosed((k: Core) => Balance(k, call) == n, AnyMove(who, AnyCall))
  {
    hide Balance;
    forall k, e | Balance(k, call) == n &&
        Neutral(e) ensures Balance(Note(k, e), call) == n { NoteBalance(k, call, e); }
    forall k, part: nat | Balance(k, call) == n && HasValid(k, who) ensures Balance(Fragment(k, who, part), call) == n {
      NoteBalance(k, call, ExitFragment(k.storage[who].gen, k.storage[who].call, part));
    }
    forall k, v | Balance(k, call) == n && HasValid(k, who) ensures Balance(SetAux(k, who, v), call) == n {
      SetAuxBalance(k, call, who, v);
    }
    forall k, ret, kvm | Balance(k, call) == n &&
        HasValid(k, who) ensures Balance(Complete(k, who, ret, kvm), call) == n {
      CompleteBalance(k, call, who, ret, kvm);
    }
    forall k, reason, error | Balance(k, call) == n && HasValid(k, who)
      ensures Balance(Observe(k, who, reason, error), call) == n
    {
      NoteBalance(k, call, KvmSeen(k.storage[who].gen, reason, error));
      SetAuxBalance(Note(k, KvmSeen(k.storage[who].gen, reason, error)), call, who, KvmAux(reason, error));
    }
  }

  /** With no record to lose, every move but saving keeps the balance, clearing included. */
  lemma EmptyBalanceIsClosed(call: Call, n: nat, who: Task)
    ensures EndClosed((k: Core) => Balance(k, call) == n && !HasValid(k, who), AnyMove(who, AnyCall))
  {
    hide Balance;
    forall k, e | Balance(k, call) == n &&
        Neutral(e) ensures Balance(Note(k, e), call) == n { NoteBalance(k, call, e); }
    forall k | Balance(k, call) == n && !HasValid(k, who)
      ensures Balance(Clear(k, who), call) == n && !HasValid(Clear(k, who), who)
    {
      ClearBalance(k, call, who);
    }
  }

  // ----- steps ---------------------------------------------------------------------------

  /** This raw enter leaves a record. */
  predicate SavesRecord(s: State, l: Label) {
    l.Enter? && ReachesEnter(s, l.c, l.id, l.ei) && LeavesRecord(l.c, l.id, l.ei) && CanSave(s, l.c.task, l.ei.saveOk)
  }

  lemma SaveStepBalance(s: State, c: Ctx, id: int, args: seq<int>, ei: EnterInput, call: Call)
    requires !HasValid(s.core, c.task)
    ensures Balance(EmitAndSave(s, c, id, args, ei).core, call) ==
      Balance(s.core, call) + Truth(CanSave(s, c.task, ei.saveOk) && Call(c.pid, c.tid, id, args) == call)
  {
    hide Balance;
    var noted := Note(s.core, EnterCall(c.pid, c.tid, id, 0));
    NoteBalance(s.core, call, EnterCall(c.pid, c.tid, id, 0));
    SaveBalance(noted, call, c.task, Call(c.pid, c.tid, id, args));
  }

  lemma ReachedEnterBalance(s: State, c: Ctx, id: int, args: seq<int>, ei: EnterInput, call: Call)
    requires ReachesEnter(s, c, id, ei) && !HasValid(s.core, c.task)
    ensures Balance(EnterStep(s, c, id, args, ei).core, call) ==
      Balance(s.core, call) + Truth(SavesRecord(s, Enter(c, id, args, ei)) && IsEnterOf(Enter(c, id, args, ei), call))
  {
    hide Balance, EmitAndSave, RunEnter, TerminatingEnter;
    var noted := CaptureForkFlags(ArmExec(s, c, id, ei.armOk), c, id, args, ei);
    ArmedCore(s, c, id, args, ei);
    SaveStepBalance(noted, c, id, args, ei, call);
    var prog := EnterProgram(c, id, ei);
    if prog.Some? {
      var n := Balance(EmitAndSave(noted, c, id, args, ei).core, call);
      var m := AnyMove(c.task, AnyCall);
      if Saves(prog.value, id) {
        BalanceIsClosed(call, n, c.task);
        SavingTail((k: Core) => Balance(k, call) == n, m, noted, c, prog.value, id, args, ei);
      } else {
        IdleProgramBalance(noted, c, prog.value, id, args, ei, call);
      }
    }
  }

  lemma IdleProgramBalance(s: State, c: Ctx, prog: EnterProg, id: int, args: seq<int>, ei: EnterInput, call: Call)
    requires !Saves(prog, id)
    ensures Balance(RunEnter(s, c, prog, id, args, ei).core, call) == Balance(s.core, call)
  {
    hide Balance;
    if prog.Terminating? {
      var noted := Note(s.core, EnterCall(c.pid, c.tid, id, 0));
      NoteBalance(s.core, call, EnterCall(c.pid, c.tid, id, 0));
      NoteBalance(noted, call, TerminatingExit(c.pid, c.tid, id));
    }
  }

  lemma UnreachedEnter(s: State, c: Ctx, id: int, args: seq<int>, ei: EnterInput)
    requires !ReachesEnter(s, c, id, ei) && ei.native
    ensures EnterStep(s, c, id, args, ei).core == s.core
  {
    hide RunEnter, EmitAndSave;
    ArmedCore(s, c, id, args, ei);
  }

  lemma EnterBalance(s: State, c: Ctx, id: int, args: seq<int>, ei: EnterInput, call: Call)
    requires ei.native && !HasValid(s.core, c.task)
    ensures Balance(EnterStep(s, c, id, args, ei).core, call) ==
      Balance(s.core, call) + Truth(SavesRecord(s, Enter(c, id, args, ei)) && IsEnterOf(Enter(c, id, args, ei), call))
  {
    hide Balance, EnterStep;
    if ReachesEnter(s, c, id, ei) {
      ReachedEnterBalance(s, c, id, args, ei, call);
    } else {
      UnreachedEnter(s, c, id, args, ei);
    }
  }

  /** The exit program takes up the record it finds. */
  predicate TakesUp(c: Ctx, id: int, ret: int, xi: ExitInput) {
    var prog := ExitProgram(c, id, xi);
    !SkipsAll(prog, id) && !SkipsMatched(prog, id, ret, xi)
  }

  lemma ExitBalance(s: State, c: Ctx, id: int, ret: int, xi: ExitInput, call: Call)
    requires xi.native
    requires HasValid(s.core, c.task) ==> ReachesExit(s, c, id, xi) && Owns(s, c, id, ret) && TakesUp(c, id, ret, xi)
    ensures Balance(ExitStep(s, c, id, ret, xi).core, call) == Balance(s.core, call)
    ensures !HasValid(ExitStep(s, c, id, ret, xi).core, c.task)
  {
    hide Balance;
    if ReachesExit(s, c, id, xi) {
      ExitRunsProgram(s, c, id, ret, xi);
      var noted := ForgetForkFlags(s, c, id);
      if HasValid(s.core, c.task) {
        OwnedExitBalance(noted, c, ExitProgram(c, id, xi), id, ret, xi, call);
      } else {
        UnmatchedExit(noted, c, ExitProgram(c, id, xi), id, ret, xi);
      }
    } else {
      FilteredExit(s, c, id, ret, xi);
    }
  }

  lemma OwnedExitBalance(s: State, c: Ctx, prog: ExitProg, id: int, ret: int, xi: ExitInput, call: Call)
    requires Owns(s, c, id, ret) && !SkipsAll(prog, id) && !SkipsMatched(prog, id, ret, xi)
    ensures Balance(RunExit(s, c, prog, id, ret, xi).core, call) == Balance(s.core, call)
    ensures !HasValid(RunExit(s, c, prog, id, ret, xi).core, c.task)
  {
    OwnedExit(s, c, prog, id, ret, xi, 0);
    var n := Balance(s.core, call);
    BalanceIsClosed(call, n, c.task);
    CompleteAfterKeeps((k: Core) => Balance(k, call) ==
        n, AnyMove(c.task, AnyCall), s.core, ExitFragments(prog, id, ret, xi), ret);
    OwnedExitCore(s, c, prog, id, ret, xi);
  }

  lemma OwnedExitCore(s: State, c: Ctx, prog: ExitProg, id: int, ret: int, xi: ExitInput)
    requires Owns(s, c, id, ret) && !SkipsAll(prog, id) && !SkipsMatched(prog, id, ret, xi)
    ensures var kvm := if prog.Control? then KvmReason(s.core.storage[c.task], ret) else None;
      RunExit(s, c, prog, id, ret, xi).core == CompleteAfter(s.core, c.task, ExitFragments(prog, id, ret, xi), ret, kvm)
  {
    hide CompleteAfter, ExitFragments, KvmReason, SkipsAll, SkipsMatched;
  }

  // ----- runs ----------------------------------------------------------------------------

  /** Nothing happens that loses a record: no exit program leaves one it finds, and no task
      ends, nor does a free step run on top of it, while its record is pending. */
  ghost predicate LosesNothing(s: State, l: Label) {
    && (l.Exit? && HasValid(s.core, l.c.task) ==> TakesUp(l.c, l.id, l.ret, l.xi))
    && (l.TaskExit? || l.Free? ==> !HasValid(s.core, l.c.task))
  }

  /** Every valid record belongs to a task inside a dispatched call. */
  ghost predicate AllHeld(k: Core, ph: Phases) {
    forall task :: HasValid(k, task) ==> task in ph && ph[task].reached
  }

  /** The task that takes a step other than an enter or an exit. */
  lemma QuietStep(s: State, ph: Phases, l: Label, call: Call)
    requires AllHeld(s.core, ph) && Behaves(s, ph, l) && LosesNothing(s, l) && !l.Enter? && !l.Exit?
    ensures Balance(Step(s, l).core, call) == Balance(s.core, call)
    ensures HasValid(Step(s, l).core, l.c.task) ==> HasValid(s.core, l.c.task)
    ensures l.TaskExit? || l.Free? ==> !HasValid(Step(s, l).core, l.c.task)
  {
    hide Balance, Step, Behaves;
    var n := Balance(s.core, call);
    var who := l.c.task;
    if !HasValid(s.core, who) {
      EmptyBalanceIsClosed(call, n, who);
      OtherStepKeeps((k: Core) => Balance(k, call) == n && !HasValid(k, who), AnyMove(who, AnyCall), s, l);
    } else {
      BalanceIsClosed(call, n, who);
      RecordStepKeeps((k: Core) => Balance(k, call) == n, AnyMove(who, AnyCall), s, l);
    }
  }

  lemma StepBalance(s: State, ph: Phases, l: Label, call: Call)
    requires AllReady(s, ph) && AllHeld(s.core, ph) && Behaves(s, ph, l) && LosesNothing(s, l)
    ensures Balance(Step(s, l).core, call) == Balance(s.core, call) + Truth(SavesRecord(s, l) && IsEnterOf(l, call))
    ensures HasValid(Step(s, l).core, l.c.task) ==>
      l.c.task in NextPhases(s, ph, l) && NextPhases(s, ph, l)[l.c.task].reached
  {
    hide Balance, EnterStep, ExitStep;
    match l
    case Enter(c, id, args, ei) =>
      EnterBalance(s, c, id, args, ei, call);
      if !ReachesEnter(s, c, id, ei) { UnreachedEnter(s, c, id, args, ei); }
    case Exit(c, id, ret, xi) =>
      if HasValid(s.core, c.task) { assert Ready(s.core, c.task, ph[c.task]); }
      ExitBalance(s, c, id, ret, xi, call);
    case _ => QuietStep(s, ph, l, call);
  }

  lemma StepHeld(s: State, ph: Phases, l: Label)
    requires AllReady(s, ph) && AllHeld(s.core, ph) && Behaves(s, ph, l) && LosesNothing(s, l)
    ensures AllHeld(Step(s, l).core, NextPhases(s, ph, l))
  {
    hide Behaves, Step;
    var next := NextPhases(s, ph, l);
    forall task | HasValid(Step(s, l).core, task) ensures task in next && next[task].reached {
      if task == l.c.task {
        StepBalance(s, ph, l, Call(0, 0, 0, []));
      } else {
        OthersKeepRecord(s, l, task);
        assert Recorded(Step(s, l).core, task) == Recorded(s.core, task);
      }
    }
  }

  ghost predicate AllLoseNothing(s: State, labels: seq<Label>)
    decreases |labels|
  {
    labels == [] || (LosesNothing(s, labels[0]) && AllLoseNothing(Step(s, labels[0]), labels[1..]))
  }

  /** The raw enters with this identity, id and arguments that left a record. */
  ghost function Dispatches(s: State, labels: seq<Label>, call: Call): nat
    decreases |labels|
  {
    if labels == [] then 0
    else
      Truth(SavesRecord(s, labels[0]) && IsEnterOf(labels[0], call)) + Dispatches(Step(s, labels[0]), labels[1..], call)
  }

  ghost function PhasesAfter(s: State, ph: Phases, labels: seq<Label>): Phases
    decreases |labels|
  {
    if labels == [] then ph else PhasesAfter(Step(s, labels[0]), NextPhases(s, ph, labels[0]), labels[1..])
  }

  lemma {:induction false} RunBalance(s: State, ph: Phases, labels: seq<Label>, call: Call)
    requires AllReady(s, ph) && AllHeld(s.core, ph) && Behaved(s, ph, labels) && AllLoseNothing(s, labels)
    ensures Balance(Run(s, labels).core, call) == Balance(s.core, call) + Dispatches(s, labels, call)
    ensures AllHeld(Run(s, labels).core, PhasesAfter(s, ph, labels))
    decreases |labels|
  {
    hide Balance, Step, Behaves, NextPhases, LosesNothing, SavesRecord, AllReady, AllHeld;
    if labels != [] {
      var l := labels[0];
      StepBalance(s, ph, l, call);
      StepHeld(s, ph, l);
      BehavedStepReady(s, ph, l);
      RunBalance(Step(s, l), NextPhases(s, ph, l), labels[1..], call);
    }
  }

  /** In every behaved run that loses no record, the completed exits of a call and the records
      of it that are still pending are together exactly the raw enters of it that left one; and
      once every call has returned, each has been reported exactly once. */
  lemma EveryCallIsReported(s: State, labels: seq<Label>, call: Call)
    requires Initial(s) && Behaved(s, map[], labels) && AllLoseNothing(s, labels)
    ensures var k := Run(s, labels).core;
      Exits(k.log, call) + |Waiting(k, call)| == Dispatches(s, labels, call)
    ensures PhasesAfter(s, map[], labels) == map[] ==>
      Exits(Run(s, labels).core.log, call) == Dispatches(s, labels, call)
  {
    assert Waiting(s.core, call) == {};
    RunBalance(s, map[], labels, call);
    if PhasesAfter(s, map[], labels) == map[] {
      var k := Run(s, labels).core;
      forall task ensures task !in Waiting(k, call) { assert !HasValid(k, task); }
      assert Waiting(k, call) == {};
    }
  }
}
