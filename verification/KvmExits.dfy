/** The KVM exit reason reported for a KVM_RUN ioctl is the one that call observed last. */
module KvmExits {
  import opened Abi
  import opened PendingCore
  import opened Protocol
  import opened Steps
  import opened Generations

  datatype Observation = Observation(reason: int, error: int)

  /** The last userspace exit seen during generation `g`. */
  ghost function LastSeen(h: History, g: nat): Option<Observation> {
    match h
    case Start => None
    case Then(before, e) =>
      if e.KvmSeen? && e.gen == g then Some(Observation(e.reason, e.error)) else LastSeen(before, g)
  }

  ghost function AuxFor(seen: Option<Observation>): int {
    if seen.None? then 0 else KvmAux(seen.value.reason, seen.value.error)
  }

  /** Every flagged exit event belongs to a KVM_RUN whose last observed exit was not an error,
      and reports the low 31 bits of that exit's reason. */
  ghost predicate HonestReasons(h: History) {
    match h
    case Start => true
    case Then(before, e) =>
      HonestReasons(before) &&
      (e.ExitEvent? && e.kvm.Some? ==>
        && IsKvmRun(e.call) && e.ret >= 0
        && LastSeen(before, e.gen).Some?
        && LastSeen(before, e.gen).value.error >= 0
        && e.kvm.value == LastSeen(before, e.gen).value.reason % KVM_EXIT_AUX_VALID)
  }

  ghost predicate KvmInv(k: Core) {
    && Inv(k)
    && HonestReasons(k.log)
    && (forall g: nat :: g >= k.nextGen ==> LastSeen(k.log, g) == None)
    && (forall task :: AuxReflectsSeen(k, task))
  }

  ghost predicate AuxReflectsSeen(k: Core, task: Task) {
    HasValid(k, task) && IsKvmRun(k.storage[task].call) ==>
      k.storage[task].aux0 == AuxFor(LastSeen(k.log, k.storage[task].gen))
  }

  ghost predicate NotKvmRun(call: Call) { !IsKvmRun(call) }

  lemma ReasonOfAux(reason: int, error: int)
    ensures (KvmAux(reason, error) / KVM_EXIT_AUX_VALID) % 2 == 1 <==> error >= 0
    ensures error >= 0 ==> KvmAux(reason, error) % KVM_EXIT_AUX_VALID == reason % KVM_EXIT_AUX_VALID
  {
  }

  lemma CompleteHonest(k: Core, task: Task, ret: int, kvm: Option<int>)
    requires KvmInv(k) && HasValid(k, task)
    requires kvm == None || kvm == KvmReason(k.storage[task], ret)
    ensures KvmInv(Complete(k, task, ret, kvm))
  {
    CompleteKeeps(k, task, ret, kvm);
    var t := k.storage[task];
    var seen := LastSeen(k.log, t.gen);
    assert AuxReflectsSeen(k, task);
    if seen.Some? { ReasonOfAux(seen.value.reason, seen.value.error); }
    var noted := Note(k, ExitEvent(t.gen, t.call, ret, kvm));
    assert HonestReasons(noted.log);
    assert forall g: nat :: LastSeen(noted.log, g) == LastSeen(k.log, g);
    forall t ensures AuxReflectsSeen(Complete(k, task, ret, kvm), t) { assert AuxReflectsSeen(k, t); }
  }

  lemma SaveHonest(k: Core, task: Task, call: Call)
    requires KvmInv(k)
    ensures KvmInv(Save(k, task, call))
  {
    SaveKeeps(k, task, call);
    var marked := if HasValid(k, task) then Note(k, Overwritten(k.storage[task].gen)) else k;
    assert forall g: nat :: LastSeen(marked.log, g) == LastSeen(k.log, g);
    assert HonestReasons(marked.log);
    forall t ensures AuxReflectsSeen(Save(k, task, call), t) { assert AuxReflectsSeen(k, t); }
  }

  lemma ObserveHonest(k: Core, task: Task, reason: int, error: int)
    requires KvmInv(k) && HasValid(k, task) && IsKvmRun(k.storage[task].call)
    ensures KvmInv(Observe(k, task, reason, error))
  {
    ObserveKeeps(k, task, reason, error);
    var noted := Note(k, KvmSeen(k.storage[task].gen, reason, error));
    assert HonestReasons(noted.log);
    assert forall g: nat | g >= k.nextGen :: LastSeen(noted.log, g) == LastSeen(k.log, g);
    var k' := Observe(k, task, reason, error);
    forall t ensures AuxReflectsSeen(k', t) { assert AuxReflectsSeen(k, t); }
  }

  lemma SmallMovesHonest(who: Task)
    ensures forall k, e :: KvmInv(k) && Neutral(e) ==> KvmInv(Note(k, e))
    ensures forall k, part: nat :: KvmInv(k) && HasValid(k, who) ==> KvmInv(Fragment(k, who, part))
    ensures forall k :: KvmInv(k) ==> KvmInv(Clear(k, who))
  {
    forall k, e | KvmInv(k) && Neutral(e) ensures KvmInv(Note(k, e)) {
      NoteKeeps(k, e);
      forall t ensures AuxReflectsSeen(Note(k, e), t) { assert AuxReflectsSeen(k, t); }
    }
    forall k, part: nat | KvmInv(k) && HasValid(k, who) ensures KvmInv(Fragment(k, who, part)) {
      FragmentKeeps(k, who, part);
      assert HonestReasons(Fragment(k, who, part).log);
      forall t ensures AuxReflectsSeen(Fragment(k, who, part), t) { assert AuxReflectsSeen(k, t); }
    }
    forall k | KvmInv(k) ensures KvmInv(Clear(k, who)) {
      ClearKeeps(k, who);
      forall t ensures AuxReflectsSeen(Clear(k, who), t) { assert AuxReflectsSeen(k, t); }
    }
  }

  lemma SetAuxHonest(k: Core, task: Task, v: int)
    requires KvmInv(k) && HasValid(k, task) && NotKvmRun(k.storage[task].call)
    ensures KvmInv(SetAux(k, task, v))
  {
    SetAuxKeeps(k, task, v);
    forall t ensures AuxReflectsSeen(SetAux(k, task, v), t) { assert AuxReflectsSeen(k, t); }
  }

  lemma KvmInvIsClosed(who: Task)
    ensures Closed(KvmInv, AnyMove(who, NotKvmRun))
  {
    SmallMovesHonest(who);
    forall k, call | KvmInv(k) ensures KvmInv(Save(k, who, call)) { SaveHonest(k, who, call); }
    forall k, v | KvmInv(k) && HasValid(k, who) && NotKvmRun(k.storage[who].call) ensures KvmInv(SetAux(k, who, v)) {
      SetAuxHonest(k, who, v);
    }
    forall k, ret, kvm | KvmInv(k) && HasValid(k, who) && (kvm == None || kvm == KvmReason(k.storage[who], ret))
      ensures KvmInv(Complete(k, who, ret, kvm))
    {
      CompleteHonest(k, who, ret, kvm);
    }
    forall k, reason, error | KvmInv(k) && HasValid(k, who) && IsKvmRun(k.storage[who].call)
      ensures KvmInv(Observe(k, who, reason, error))
    {
      ObserveHonest(k, who, reason, error);
    }
  }

  lemma RunKvmInv(s: State, labels: seq<Label>)
    requires Initial(s) && AllFit(labels, NotKvmRun)
    ensures KvmInv(Run(s, labels).core)
  {
    forall who ensures Closed(KvmInv, AnyMove(who, NotKvmRun)) { KvmInvIsClosed(who); }
    RunKeeps(KvmInv, NotKvmRun, s, labels);
  }

  /** In every run whose routes keep aux0-writing enter programs away from KVM_RUN, a KVM_EXIT
      flag appears only on a call that saw a non-error exit, with that exit's reason. */
  lemma KvmFlagIsHonest(s: State, labels: seq<Label>)
    requires Initial(s) && AllFit(labels, NotKvmRun)
    ensures HonestReasons(Run(s, labels).core.log)
  {
    RunKvmInv(s, labels);
  }

  /** A KVM exit during a pending KVM_RUN, with the feature on, becomes the last one seen by that
      call and is what its record keeps; during anything else it leaves no trace. */
  lemma KvmExitIsSeen(s: State, c: Ctx, reason: int, error: int)
    ensures var s' := KvmStep(s, c, reason, error);
      if c.env.cfg.kvmExit && HasValid(s.core, c.task) && IsKvmRun(s.core.storage[c.task].call)
      then
        var t := s.core.storage[c.task];
        && LastSeen(s'.core.log, t.gen) == Some(Observation(reason, error))
        && s'.core.storage == s.core.storage[c.task := t.(aux0 := s'.core.storage[c.task].aux0)]
        && s'.core.storage[c.task].aux0 == if error < 0 then 0 else 0x8000_0000 + reason % 0x8000_0000
      else s' == s
  {
    if HasValid(s.core, c.task) {
      var noted := Then(s.core.log, KvmSeen(s.core.storage[c.task].gen, reason, error));
      assert LastSeen(noted, s.core.storage[c.task].gen) == Some(Observation(reason, error));
    }
  }

  /** The converse on one step: a KVM_RUN that returns through the control handler after a
      non-error exit is flagged with that exit's reason. */
  lemma SeenExitIsReported(s: State, labels: seq<Label>, c: Ctx, ret: int, xi: ExitInput)
    requires Initial(s) && AllFit(labels, NotKvmRun)
    requires var r := Run(s, labels);
      && ReachesExit(r, c, SYS_IOCTL, xi) && ExitProgram(c, SYS_IOCTL, xi) == Control
      && Owns(r, c, SYS_IOCTL, ret) && IsKvmRun(r.core.storage[c.task].call) && ret >= 0
      && LastSeen(r.core.log, r.core.storage[c.task].gen).Some?
    ensures var r := Run(s, labels);
      var t := r.core.storage[c.task];
      var seen := LastSeen(r.core.log, t.gen).value;
      ExitStep(r, c, SYS_IOCTL, ret, xi).core ==
        Complete(r.core, c.task, ret, if seen.error >= 0 then Some(seen.reason % KVM_EXIT_AUX_VALID) else None)
  {
    hide Step, Complete, HonestReasons, LastSeen;
    RunKvmInv(s, labels);
    var r := Run(s, labels);
    assert AuxReflectsSeen(r.core, c.task);
    var seen := LastSeen(r.core.log, r.core.storage[c.task].gen).value;
    ReasonOfAux(seen.reason, seen.error);
  }
}
