/** Tail-call chains: whatever tail calls fail, an enter that is dispatched leaves exactly one
    record, and an exit that is dispatched closes it after an in-order prefix of fragments. */
module Chains {
  import opened Abi
  import opened PendingCore
  import opened Protocol
  import opened Steps
  import opened Generations

  /** A raw enter that gets past the dispatcher's filters. */
  predicate ReachesEnter(s: State, c: Ctx, id: int, ei: EnterInput) {
    && id != SYS_RT_SIGRETURN && ei.native && Dispatched(c.env.cfg, id)
    && TaskFlags(s.filter, c.pid, c.tid).Some?
    && !IsSuppressed(TaskFlags(s.filter, c.pid, c.tid).value, id)
  }

  /** The program the dispatcher hands over to; `None` is its own fallback. */
  function EnterProgram(c: Ctx, id: int, ei: EnterInput): Option<EnterProg> {
    if id in c.env.enterRoutes && EnterRoute in ei.tails then Some(c.env.enterRoutes[id]) else None
  }

  predicate LeavesRecord(c: Ctx, id: int, ei: EnterInput) {
    EnterProgram(c, id, ei).None? || Saves(EnterProgram(c, id, ei).value, id)
  }

  /** The current record is this call's, numbered `gen`, and every other task keeps its own. */
  ghost predicate Records(k: Core, before: Core, task: Task, call: Call) {
    && HasValid(k, task)
    && k.storage[task].call == call
    && k.storage[task].gen == before.nextGen
    && k.nextGen == before.nextGen + 1
    && k.storage - {task} == before.storage - {task}
  }

  lemma RecordsIsTailClosed(before: Core, task: Task, call: Call)
    ensures TailClosed((k: Core) => Records(k, before, task, call), AnyMove(task, AnyCall))
  {
  }

  lemma SaveRecords(s: State, c: Ctx, id: int, args: seq<int>, ei: EnterInput)
    requires CanSave(s, c.task, ei.saveOk)
    ensures Records(EmitAndSave(s, c, id, args, ei).core, s.core, c.task, Call(c.pid, c.tid, id, args))
  {
  }

  /** For every pattern of tail-call failures, a dispatched enter that reaches a saving handler
      or the fallback leaves one valid record with this task's pid, tid, id and arguments under
      a fresh generation, which no chained fragment program changes; no other task's record is
      touched. */
  lemma EnterLeavesOneRecord(s: State, c: Ctx, id: int, args: seq<int>, ei: EnterInput)
    requires ReachesEnter(s, c, id, ei) && LeavesRecord(c, id, ei) && CanSave(s, c.task, ei.saveOk)
    ensures Records(EnterStep(s, c, id, args, ei).core, s.core, c.task, Call(c.pid, c.tid, id, args))
  {
    var noted := CaptureForkFlags(ArmExec(s, c, id, ei.armOk), c, id, args, ei);
    assert noted.core == s.core;
    SaveRecords(noted, c, id, args, ei);
    var call := Call(c.pid, c.tid, id, args);
    var P := (k: Core) => Records(k, s.core, c.task, call);
    RecordsIsTailClosed(s.core, c.task, call);
    if EnterProgram(c, id, ei).Some? {
      SavingTail(P, AnyMove(c.task, AnyCall), noted, c, EnterProgram(c, id, ei).value, id, args, ei);
    }
  }

  /** How many fragment events a chain emits: those of its longest prefix whose calls all go
      through. */
  function Reached(links: seq<Link>, tails: set<Slot>): nat {
    if links == [] || links[0].slot !in tails then 0 else links[0].parts + Reached(links[1..], tails)
  }

  function Parts(links: seq<Link>): nat {
    if links == [] then 0 else links[0].parts + Parts(links[1..])
  }

  /** `count` enter fragments on top of `h`, numbered consecutively from `part`. */
  function Consecutive(h: History, c: Ctx, id: int, part: nat, count: nat): History
    decreases count
  {
    if count == 0 then h
    else Then(Consecutive(h, c, id, part, count - 1), EnterCall(c.pid, c.tid, id, part + count - 1))
  }

  lemma {:induction false} ConsecutiveShift(h: History, c: Ctx, id: int, part: nat, count: nat)
    ensures Consecutive(Then(h, EnterCall(c.pid, c.tid, id, part)), c, id, part + 1, count) ==
      Consecutive(h, c, id, part, count + 1)
    decreases count
  {
    if count > 0 { ConsecutiveShift(h, c, id, part, count - 1); }
  }

  lemma {:induction false} PartsAreConsecutive(k: Core, c: Ctx, id: int, part: nat, count: nat)
    ensures EmitParts(k, c, id, part, count) == k.(log := Consecutive(k.log, c, id, part, count))
    decreases count
  {
    if count > 0 {
      PartsAreConsecutive(Note(k, EnterCall(c.pid, c.tid, id, part)), c, id, part + 1, count - 1);
      ConsecutiveShift(k.log, c, id, part, count - 1);
    }
  }

  lemma {:induction false} ConsecutiveAppend(h: History, c: Ctx, id: int, part: nat, first: nat, second: nat)
    ensures Consecutive(Consecutive(h, c, id, part, first), c, id, part + first, second) ==
      Consecutive(h, c, id, part, first + second)
    decreases second
  {
    if second > 0 { ConsecutiveAppend(h, c, id, part, first, second - 1); }
  }

  /** The chain's fragments are an in-order prefix: consecutive numbers, as many as the links
      reached, all of them when no call fails. Storage is not involved. */
  lemma {:induction false} ChainEmitsPrefix(k: Core, c: Ctx, id: int, links: seq<Link>, tails: set<Slot>, part: nat)
    ensures EmitChain(k, c, id, links, tails, part) == k.(log := Consecutive(k.log, c, id, part, Reached(links, tails)))
    ensures Reached(links, tails) <= Parts(links)
    ensures (forall link :: link in links ==> link.slot in tails) ==> Reached(links, tails) == Parts(links)
    decreases |links|
  {
    if links != [] && links[0].slot in tails {
      var n := links[0].parts;
      PartsAreConsecutive(k, c, id, part, n);
      ChainEmitsPrefix(EmitParts(k, c, id, part, n), c, id, links[1..], tails, part + n);
      ConsecutiveAppend(k.log, c, id, part, n, Reached(links[1..], tails));
    }
  }

  /** `n` is the longest prefix of the first `count` links whose calls all go through. */
  ghost predicate LongestPrefix(slots: seq<Slot>, count: nat, tails: set<Slot>, n: nat)
    requires count <= |slots|
  {
    n <= count && (forall i :: 0 <= i < n ==> slots[i] in tails) && (n < count ==> slots[n] !in tails)
  }

  /** A four-link path chain with `count` candidates runs exactly that prefix. */
  lemma PathLinksIsPrefix(count: nat, tails: set<Slot>, first: Slot, second: Slot, third: Slot, fourth: Slot)
    requires 0 < count <= 4 && first in tails
    ensures LongestPrefix([first, second, third, fourth], count, tails, PathLinks(count, tails, second, third, fourth))
  {
  }

  /** For every pattern of tail-call failures, an epoll_wait exit with a matching record emits
      an in-order prefix of its nested-path fragments (one per link reached), then
      exactly one completed exit, and leaves no valid record. */
  lemma EpollExitCloses(s: State, c: Ctx, id: int, ret: int, xi: ExitInput) returns (n: nat)
    requires ReachesExit(s, c, id, xi) && ExitProgram(c, id, xi) == Io
    requires IsEpollWait(id) && ret > 0 && xi.nested <= 4 && Owns(s, c, id, ret)
    ensures LongestPrefix([ExitPath0, ExitPath1, ExitPath2, ExitPath3], xi.nested, xi.tails, n)
    ensures ExitStep(s, c, id, ret, xi).core == CompleteAfter(s.core, c.task, n, ret, None)
    ensures !HasValid(ExitStep(s, c, id, ret, xi).core, c.task)
    ensures var g := s.core.storage[c.task].gen;
      Completions(ExitStep(s, c, id, ret, xi).core.log, g) == Completions(s.core.log, g) + 1
  {
    n := ExitFragments(Io, id, ret, xi);
    if xi.nested > 0 && ExitPath0 in xi.tails {
      PathLinksIsPrefix(xi.nested, xi.tails, ExitPath0, ExitPath1, ExitPath2, ExitPath3);
    }
    ExitRunsProgram(s, c, id, ret, xi);
    OwnedExit(ForgetForkFlags(s, c, id), c, Io, id, ret, xi, s.core.storage[c.task].gen);
  }

  /** The recvmmsg exit chain: no fragment for a failed call, otherwise the first pair or both
      pairs, then exactly one completed exit, and no valid record. */
  lemma RecvmmsgExitCloses(s: State, c: Ctx, ret: int, xi: ExitInput) returns (n: nat)
    requires ReachesExit(s, c, SYS_RECVMMSG, xi) && ExitProgram(c, SYS_RECVMMSG, xi) == RecvmmsgBase01
    requires Owns(s, c, SYS_RECVMMSG, ret)
    ensures n == if ret <= 0 then 0 else if RecvmmsgBase23 in xi.tails then 4 else 2
    ensures ExitStep(s, c, SYS_RECVMMSG, ret, xi).core == CompleteAfter(s.core, c.task, n, ret, None)
    ensures !HasValid(ExitStep(s, c, SYS_RECVMMSG, ret, xi).core, c.task)
    ensures var g := s.core.storage[c.task].gen;
      Completions(ExitStep(s, c, SYS_RECVMMSG, ret, xi).core.log, g) == Completions(s.core.log, g) + 1
  {
    n := ExitFragments(RecvmmsgBase01, SYS_RECVMMSG, ret, xi);
    ExitRunsProgram(s, c, SYS_RECVMMSG, ret, xi);
    OwnedExit(s, c, RecvmmsgBase01, SYS_RECVMMSG, ret, xi, s.core.storage[c.task].gen);
  }
}
