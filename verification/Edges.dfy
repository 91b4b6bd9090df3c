/** What a reader of the ring can rely on without knowing generations: every exit event has a
    raw enter edge of its own. */
module Edges {
  import opened Abi
  import opened PendingCore
  import opened Protocol
  import opened Steps

  /** Completed exit events that carry `call`. */
  function Exits(h: History, call: Call): nat {
    match h
    case Start => 0
    case Then(before, e) => Exits(before, call) + if e.ExitEvent? && e.call == call then 1 else 0
  }

  /** Some exit event, completed or fragment, carries `call`. */
  predicate Mentions(h: History, call: Call) {
    match h
    case Start => false
    case Then(before, e) => Mentions(before, call) || ((e.ExitEvent? || e.ExitFragment?) && e.call == call)
  }

  predicate IsEnterOf(l: Label, call: Call) { l.Enter? && Call(l.c.pid, l.c.tid, l.id, l.args) == call }

  /** Raw enter edges with this identity, id and arguments. */
  function Enters(labels: seq<Label>, call: Call): nat {
    if labels == [] then 0 else (if IsEnterOf(labels[0], call) then 1 else 0) + Enters(labels[1..], call)
  }

  /** The tasks whose pending record is `call`. */
  ghost function Waiting(k: Core, call: Call): set<Task> {
    set task | task in k.storage && k.storage[task].valid && k.storage[task].call == call
  }

  /** `n` enters are enough for what has been reported and what is still pending. */
  ghost predicate Covered(k: Core, call: Call, n: nat) {
    Exits(k.log, call) + |Waiting(k, call)| <= n && (n == 0 ==> !Mentions(k.log, call))
  }

  lemma CoveredNote(k: Core, call: Call, n: nat, e: Effect)
    requires Covered(k, call, n) && !e.ExitEvent? && !e.ExitFragment?
    ensures Covered(Note(k, e), call, n)
  {
    assert Waiting(Note(k, e), call) == Waiting(k, call);
  }

  lemma CoveredFragment(k: Core, call: Call, n: nat, who: Task, part: nat)
    requires Covered(k, call, n) && HasValid(k, who)
    ensures Covered(Fragment(k, who, part), call, n)
  {
    assert Waiting(Fragment(k, who, part), call) == Waiting(k, call);
    if k.storage[who].call == call { assert who in Waiting(k, call); }
  }

  lemma CoveredSetAux(k: Core, call: Call, n: nat, who: Task, v: int)
    requires Covered(k, call, n) && HasValid(k, who)
    ensures Covered(SetAux(k, who, v), call, n)
  {
    assert Waiting(SetAux(k, who, v), call) == Waiting(k, call);
  }

  lemma CoveredClear(k: Core, call: Call, n: nat, who: Task)
    requires Covered(k, call, n)
    ensures Covered(Clear(k, who), call, n)
  {
    assert Waiting(Clear(k, who), call) == Waiting(k, call) - {who};
  }

  lemma CoveredComplete(k: Core, call: Call, n: nat, who: Task, ret: int, kvm: Option<int>)
    requires Covered(k, call, n) && HasValid(k, who)
    ensures Covered(Complete(k, who, ret, kvm), call, n)
  {
    assert Waiting(Complete(k, who, ret, kvm), call) == Waiting(k, call) - {who};
    if k.storage[who].call == call { assert who in Waiting(k, call); }
  }

  lemma CoveredSave(k: Core, call: Call, n: nat, who: Task, saved: Call)
    requires Covered(k, call, n)
    ensures Covered(Save(k, who, saved), call, if saved == call then n + 1 else n)
  {
    var k' := Save(k, who, saved);
    assert Waiting(k', call) == if saved == call then Waiting(k, call) + {who} else Waiting(k, call) - {who};
  }

  lemma CoveredIsClosed(call: Call, n: nat, who: Task)
    ensures EndClosed((k: Core) => Covered(k, call, n), AnyMove(who, AnyCall))
  {
    forall k, e | Covered(k, call, n) && Neutral(e) ensures Covered(Note(k, e), call, n) { CoveredNote(k, call, n, e); }
    forall k, part: nat | Covered(k, call, n) && HasValid(k, who) ensures Covered(Fragment(k, who, part), call, n) {
      CoveredFragment(k, call, n, who, part);
    }
    forall k, v | Covered(k, call, n) && HasValid(k, who) ensures Covered(SetAux(k, who, v), call, n) {
      CoveredSetAux(k, call, n, who, v);
    }
    forall k | Covered(k, call, n) ensures Covered(Clear(k, who), call, n) { CoveredClear(k, call, n, who); }
    forall k, ret, kvm | Covered(k, call, n) && HasValid(k, who) ensures Covered(Complete(k, who, ret, kvm), call, n) {
      CoveredComplete(k, call, n, who, ret, kvm);
    }
    forall k, reason, error | Covered(k, call, n) &&
        HasValid(k, who) ensures Covered(Observe(k, who, reason, error), call, n) {
      CoveredNote(k, call, n, KvmSeen(k.storage[who].gen, reason, error));
      CoveredSetAux(Note(k, KvmSeen(k.storage[who].gen, reason, error)), call, n, who, KvmAux(reason, error));
    }
  }

  /** An enter adds at most the one record it stands for. */
  lemma EnterCovers(s: State, c: Ctx, id: int, args: seq<int>, ei: EnterInput, call: Call, n: nat)
    requires Covered(s.core, call, n)
    ensures Covered(EnterStep(s, c, id, args, ei).core, call, if IsEnterOf(Enter(c, id, args, ei), call) then n +
      1 else n)
  {
    var saved := Call(c.pid, c.tid, id, args);
    var more := if saved == call then n + 1 else n;
    var P := (k: Core) => Covered(k, call, more);
    CoveredIsClosed(call, more, c.task);
    var noted := Note(s.core, EnterCall(c.pid, c.tid, id, 0));
    CoveredNote(s.core, call, n, EnterCall(c.pid, c.tid, id, 0));
    CoveredSave(noted, call, n, c.task, saved);
    if ei.native {
      hide EnterStep, Covered;
      assert P(s.core) && P(noted) by { Loosen(s.core, call, n, more); Loosen(noted, call, n, more); }
      SavedEnterKeeps(P, AnyMove(c.task, AnyCall), s, c, id, args, ei);
    } else {
      hide Covered;
      assert P(s.core) by { Loosen(s.core, call, n, more); }
      RejectAbiKeeps(P, AnyMove(c.task, AnyCall), s, c, id);
    }
  }

  lemma Loosen(k: Core, call: Call, n: nat, more: nat)
    requires Covered(k, call, n) && n <= more
    ensures Covered(k, call, more)
  {
  }

  lemma {:induction false} RunCovers(s: State, labels: seq<Label>, call: Call, n: nat)
    requires Covered(s.core, call, n)
    ensures Covered(Run(s, labels).core, call, n + Enters(labels, call))
    decreases |labels|
  {
    hide Covered;
    if labels != [] {
      var l := labels[0];
      var more := if IsEnterOf(l, call) then n + 1 else n;
      if l.Enter? {
        EnterCovers(s, l.c, l.id, l.args, l.ei, call, n);
      } else {
        CoveredIsClosed(call, n, l.c.task);
        OtherStepKeeps((k: Core) => Covered(k, call, n), AnyMove(l.c.task, AnyCall), s, l);
      }
      RunCovers(Step(s, l), labels[1..], call, more);
    }
  }

  /** In every run, and so at every moment of one, the completed exit events with a given pid,
      tid, id and arguments are at most as many as the raw enter edges with them; and any exit
      event at all, fragments included, has at least one such edge before it. */
  lemma EveryExitHasItsEdge(s: State, labels: seq<Label>, call: Call)
    requires Initial(s)
    ensures Exits(Run(s, labels).core.log, call) <= Enters(labels, call)
    ensures Mentions(Run(s, labels).core.log, call) ==> exists i :: 0 <= i < |labels| && IsEnterOf(labels[i], call)
  {
    assert Waiting(s.core, call) == {};
    RunCovers(s, labels, call, 0);
    if Enters(labels, call) > 0 { SomeEnter(labels, call); }
  }

  lemma {:induction false} SomeEnter(labels: seq<Label>, call: Call)
    requires Enters(labels, call) > 0
    ensures exists i :: 0 <= i < |labels| && IsEnterOf(labels[i], call)
  {
    if IsEnterOf(labels[0], call) {
    } else {
      SomeEnter(labels[1..], call);
      var i :| 0 <= i < |labels[1..]| && IsEnterOf(labels[1..][i], call);
      assert labels[i + 1] == labels[1..][i];
    }
  }
}
