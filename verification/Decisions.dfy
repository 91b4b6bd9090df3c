/** The decisions of the dispatcher in terms of what they mean: which system calls a filter
    selects, and which exits without a record are held against the tracer. */
module Decisions {
  import opened Abi
  import opened PendingCore
  import opened Protocol
  import opened Generations

  /** No filter selects everything; a filter selects the ids it holds a true value for, and its
      negation the others it knows; ids it does not know are selected unless it is strict. */
  lemma SelectionMeaning(cfg: Config, id: int)
    ensures !cfg.filtered ==> ShouldTrace(cfg, id)
    ensures cfg.filtered && id !in cfg.selection ==> (ShouldTrace(cfg, id) <==> !cfg.strictUnknown)
    ensures cfg.filtered && id in cfg.selection && !cfg.negated ==> (ShouldTrace(cfg, id) <==> cfg.selection[id])
    ensures cfg.filtered && id in cfg.selection ==>
      (ShouldTrace(cfg.(negated := true), id) <==> !ShouldTrace(cfg.(negated := false), id))
  {
  }

  /** fd tracking widens the dispatch to its own family and narrows nothing. */
  lemma FdStateWidens(cfg: Config, id: int)
    ensures Dispatched(cfg, id) <==> ShouldTrace(cfg, id) || (cfg.fdState && id in cfg.fdStateIds)
    ensures Dispatched(cfg.(fdState := false), id) <==> ShouldTrace(cfg, id)
  {
  }

  /** An exit without a record that is nobody's fault: exit and exit_group never return, a child
      returns 0 from the call that created it, and an exec returns 0 after its completion or
      -512, -513, -514 or -516 to be restarted. */
  predicate Excused(id: int, ret: int) {
    || id == SYS_EXIT || id == SYS_EXIT_GROUP
    || (ret == 0 && (id == SYS_CLONE || id == SYS_CLONE3 || id == SYS_FORK || id == SYS_VFORK))
    || ((id == SYS_EXECVE || id == SYS_EXECVEAT) &&
        (ret == 0 || ret == -512 || ret == -513 || ret == -514 || ret == -516))
  }

  /** A dispatched exit that finds no record counts as an orphan exactly unless it is excused or
      belongs to an attach root that has exited; it changes nothing else. */
  lemma OrphanCountedIff(s: State, c: Ctx, id: int, ret: int, xi: ExitInput)
    requires ReachesExit(s, c, id, xi) && !HasValid(s.core, c.task) && !SkipsAll(ExitProgram(c, id, xi), id)
    ensures var s' := ExitStep(s, c, id, ret, xi);
      && s'.orphans == s.orphans + Truth(!Excused(id, ret) && c.tid !in s.attachExited)
      && s'.core == s.core && s'.mismatches == s.mismatches && s'.pendingExec == s.pendingExec
  {
    ExitRunsProgram(s, c, id, ret, xi);
    hide CompleteAfter, ConsumeMaps, Mismatch, ExitFragments, KvmReason;
  }

  /** An exit that is not dispatched is never held against the tracer. */
  lemma UndispatchedExitIsFree(s: State, c: Ctx, id: int, ret: int, xi: ExitInput)
    requires !ReachesExit(s, c, id, xi) && xi.native
    ensures var s' := ExitStep(s, c, id, ret, xi); SameCounts(s, s') && s'.core == s.core
  {
    hide RunExit;
  }
}
