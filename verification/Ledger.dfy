/** The loss and sequence ledger as interleaved atomic steps.

    A producer is one emission attempt, or one recorded loss that belongs to no attempt. Its
    stage is where it stands in the emitter's code; a step is one atomic access to the shared
    words (per-CPU sequence counter, first-loss time, loss epoch) or one ring operation. */
module Ledger {
  import opened Sets

  type Producer = nat

  /** A sequence number of one CPU. */
  datatype Ticket = Ticket(cpu: nat, number: nat)

  /** `MarkTime` and `BumpEpoch` are the two atomics of record_event_integrity_loss. A fatal
      loss ends the attempt (reserve or write failed); any other returns to the capture. */
  datatype Stage =
    | Allocated(t: Ticket)
    | Reserved(t: Ticket)
    | MarkTime(t: Ticket, now: nat, fatal: bool)
    | BumpEpoch(t: Ticket, now: nat, fatal: bool)
    | StrayMark(now: nat)
    | StrayBump
    | EpochRead(t: Ticket, epoch: nat)
    | Stamped(t: Ticket, epoch: nat, time: nat)

  datatype Record = Record(ticket: Ticket, epoch: nat, time: nat)

  /** `issued` and `lost` are histories: every number handed out, and every number whose
      attempt ended without a record. */
  datatype State = State(
    counters: map<nat, nat>,
    epoch: nat,
    firstTime: nat,
    producers: map<Producer, Stage>,
    ring: seq<Record>,
    issued: set<Ticket>,
    lost: set<Ticket>)

  datatype Action =
    | Allocate(p: Producer, cpu: nat)
    | Reserve(p: Producer)
    | Fail(p: Producer, now: nat)
    | CaptureFault(p: Producer, now: nat)
    | StrayLoss(p: Producer, now: nat)
    | CompareAndSwap(p: Producer)
    | FetchAdd(p: Producer)
    | ReadEpoch(p: Producer)
    | ReadTime(p: Producer)
    | Submit(p: Producer)

  function Counter(s: State, cpu: nat): nat { if cpu in s.counters then s.counters[cpu] else 0 }

  predicate HasTicket(st: Stage) { !st.StrayMark? && !st.StrayBump? }

  function Move(s: State, p: Producer, st: Stage): State { s.(producers := s.producers[p := st]) }

  /** The action is the next access of its producer. The monotonic clock never reads 0. */
  predicate Enabled(s: State, a: Action) {
    match a
    case Allocate(p, cpu) => p !in s.producers
    case Reserve(p) => p in s.producers && s.producers[p].Allocated?
    case Fail(p, now) =>
      now > 0 && p in s.producers &&
      (s.producers[p].Allocated? || s.producers[p].Reserved? || s.producers[p].Stamped?)
    case CaptureFault(p, now) => now > 0 && p in s.producers && s.producers[p].Reserved?
    case StrayLoss(p, now) => now > 0 && p !in s.producers
    case CompareAndSwap(p) => p in s.producers && (s.producers[p].MarkTime? || s.producers[p].StrayMark?)
    case FetchAdd(p) => p in s.producers && (s.producers[p].BumpEpoch? || s.producers[p].StrayBump?)
    case ReadEpoch(p) => p in s.producers && s.producers[p].Reserved?
    case ReadTime(p) => p in s.producers && s.producers[p].EpochRead?
    case Submit(p) => p in s.producers && s.producers[p].Stamped?
  }

  function Act(s: State, a: Action): State
    requires Enabled(s, a)
  {
    match a
    case Allocate(p, cpu) =>
      var n := Counter(s, cpu) + 1;
      Move(s.(counters := s.counters[cpu := n], issued := s.issued + {Ticket(cpu, n)}), p, Allocated(Ticket(cpu, n)))
    case Reserve(p) => Move(s, p, Reserved(s.producers[p].t))
    case Fail(p, now) => Move(s, p, MarkTime(s.producers[p].t, now, true))
    case CaptureFault(p, now) => Move(s, p, MarkTime(s.producers[p].t, now, false))
    case StrayLoss(p, now) => Move(s, p, StrayMark(now))
    case CompareAndSwap(p) =>
      var st := s.producers[p];
      Move(s.(firstTime := if s.firstTime == 0 then st.now else s.firstTime), p,
           if st.MarkTime? then BumpEpoch(st.t, st.now, st.fatal) else StrayBump)
    case FetchAdd(p) =>
      var st := s.producers[p];
      var counted := s.(epoch := s.epoch + 1);
      if st.BumpEpoch? && !st.fatal then Move(counted, p, Reserved(st.t))
      else counted.(producers := s.producers - {p}, lost := s.lost + if st.BumpEpoch? then {st.t} else {})
    case ReadEpoch(p) => Move(s, p, EpochRead(s.producers[p].t, s.epoch))
    case ReadTime(p) => Move(s, p, Stamped(s.producers[p].t, s.producers[p].epoch, s.firstTime))
    case Submit(p) =>
      var st := s.producers[p];
      s.(ring := s.ring + [Record(st.t, st.epoch, st.time)], producers := s.producers - {p})
  }

  predicate Initial(s: State) {
    s.counters == map[] && s.epoch == 0 && s.firstTime == 0 && s.producers == map[] && s.ring == [] && s.issued == {} &&
        s.lost == {}
  }

  /** `s'` is reached from `s` by the actions in order. */
  ghost predicate Runs(s: State, actions: seq<Action>, s': State)
    decreases |actions|
  {
    if actions == [] then s' == s
    else Enabled(s, actions[0]) && Runs(Act(s, actions[0]), actions[1..], s')
  }

  // ----- first-loss time -----------------------------------------------------------------

  /** A stamp with a positive epoch carries the first-loss time, which is set. */
  ghost predicate GoodStamp(s: State, epoch: nat, time: nat) {
    epoch > 0 ==> time == s.firstTime && time > 0
  }

  ghost predicate StageTimed(s: State, st: Stage) {
    match st
    case MarkTime(_, now, _) => now > 0
    case StrayMark(now) => now > 0
    case BumpEpoch(_, _, _) => s.firstTime > 0
    case StrayBump => s.firstTime > 0
    case EpochRead(_, epoch) => epoch <= s.epoch
    case Stamped(_, epoch, time) => GoodStamp(s, epoch, time)
    case _ => true
  }

  ghost predicate Timed(s: State) {
    && (s.epoch > 0 ==> s.firstTime > 0)
    && (forall p :: p in s.producers ==> StageTimed(s, s.producers[p]))
    && (forall r :: r in s.ring ==> GoodStamp(s, r.epoch, r.time))
  }

  lemma ActTimed(s: State, a: Action)
    requires Timed(s) && Enabled(s, a)
    ensures Timed(Act(s, a))
    ensures s.epoch <= Act(s, a).epoch
    ensures s.firstTime > 0 ==> Act(s, a).firstTime == s.firstTime
  {
    var s' := Act(s, a);
    forall p | p in s'.producers ensures StageTimed(s', s'.producers[p]) {
      if p != a.p { assert StageTimed(s, s.producers[p]); }
    }
  }

  lemma {:induction false} RunTimed(s: State, actions: seq<Action>, s': State)
    requires Timed(s) && Runs(s, actions, s')
    ensures Timed(s')
    ensures s.epoch <= s'.epoch
    ensures s.firstTime > 0 ==> s'.firstTime == s.firstTime
    decreases |actions|
  {
    if actions != [] {
      ActTimed(s, actions[0]);
      RunTimed(Act(s, actions[0]), actions[1..], s');
    }
  }

  /** Under every interleaving, a submitted header with a positive loss epoch carries the one
      non-zero first-loss time. */
  lemma LossTimeBacksEpoch(s: State, actions: seq<Action>, s': State, i: nat)
    requires Initial(s) && Runs(s, actions, s') && i < |s'.ring| && s'.ring[i].epoch > 0
    ensures s'.ring[i].time > 0 && s'.ring[i].time == s'.firstTime
  {
    RunTimed(s, actions, s');
    assert s'.ring[i] in s'.ring;
  }

  /** From any reachable point on, the epoch never decreases and the first-loss time, once set,
      never changes. */
  lemma LossStateIsMonotone(s: State, first: seq<Action>, mid: State, second: seq<Action>, s': State)
    requires Initial(s) && Runs(s, first, mid) && Runs(mid, second, s')
    ensures mid.epoch <= s'.epoch
    ensures mid.firstTime > 0 ==> s'.firstTime == mid.firstTime
  {
    RunTimed(s, first, mid);
    RunTimed(mid, second, s');
  }

  // ----- sequence numbers ----------------------------------------------------------------

  type Flight = map<Producer, Stage>

  ghost function Tickets(m: Flight): set<Ticket> { set p | p in m && HasTicket(m[p]) :: m[p].t }

  ghost function RingTickets(ring: seq<Record>): set<Ticket> { set r | r in ring :: r.ticket }

  ghost function InFlight(s: State): set<Ticket> { Tickets(s.producers) }

  ghost function Submitted(s: State): set<Ticket> { RingTickets(s.ring) }

  ghost predicate IssuedUpToCounter(s: State) {
    forall t :: t in s.issued <==> 1 <= t.number <= Counter(s, t.cpu)
  }

  /** No two producers hold the same number. */
  ghost predicate OneProducerEach(m: Flight) {
    forall p, q :: p in m && q in m && p != q ==> !(HasTicket(m[p]) && HasTicket(m[q]) && m[p].t == m[q].t)
  }

  /** No two records carry the same number. */
  ghost predicate OneRecordEach(ring: seq<Record>) {
    forall i, j :: 0 <= i < j < |ring| ==> ring[i].ticket != ring[j].ticket
  }

  /** Every number handed out is in exactly one place. */
  ghost predicate Partition(issued: set<Ticket>, landed: set<Ticket>, flying: set<Ticket>, lost: set<Ticket>) {
    && landed !! flying && landed !! lost && flying !! lost
    && issued == landed + flying + lost
  }

  ghost predicate Accounted(s: State) {
    && IssuedUpToCounter(s) && OneProducerEach(s.producers) && OneRecordEach(s.ring)
    && Partition(s.issued, Submitted(s), InFlight(s), s.lost) && |s.lost| <= s.epoch
  }

  // How each action moves the two sets.

  lemma TicketMoves(m: Flight, p: Producer, st: Stage)
    requires HasTicket(st) && (p in m && HasTicket(m[p]) ==> st.t == m[p].t)
    ensures Tickets(m[p := st]) == Tickets(m) + {st.t}
  {
    var m' := m[p := st];
    forall t | t in Tickets(m) ensures t in Tickets(m') {
      var q :| q in m && HasTicket(m[q]) && m[q].t == t;
      assert q in m' && m'[q].t == t;
    }
    assert m'[p].t == st.t;
  }

  lemma NoTicketMoves(m: Flight, p: Producer, st: Stage)
    requires !HasTicket(st) && (p in m ==> !HasTicket(m[p]))
    ensures Tickets(m[p := st]) == Tickets(m)
  {
    var m' := m[p := st];
    forall t | t in Tickets(m) ensures t in Tickets(m') {
      var q :| q in m && HasTicket(m[q]) && m[q].t == t;
      assert q in m' && m'[q].t == t;
    }
  }

  lemma TicketLeaves(m: Flight, p: Producer)
    requires OneProducerEach(m) && p in m
    ensures Tickets(m - {p}) == Tickets(m) - (if HasTicket(m[p]) then {m[p].t} else {})
  {
    var m' := m - {p};
    forall t | t in Tickets(m) && !(HasTicket(m[p]) && t == m[p].t) ensures t in Tickets(m') {
      var q :| q in m && HasTicket(m[q]) && m[q].t == t;
      assert q in m' && m'[q].t == t;
    }
  }

  lemma RingGrows(ring: seq<Record>, r: Record)
    requires OneRecordEach(ring) && r.ticket !in RingTickets(ring)
    ensures RingTickets(ring + [r]) == RingTickets(ring) + {r.ticket}
    ensures OneRecordEach(ring + [r])
  {
    var ring' := ring + [r];
    assert ring'[|ring|] in ring';
    forall t | t in RingTickets(ring) ensures t in RingTickets(ring') {
      var x :| x in ring && x.ticket == t;
      assert x in ring';
    }
    forall i, j | 0 <= i < j < |ring'| ensures ring'[i].ticket != ring'[j].ticket {
      if j == |ring| { assert ring[i] in ring && ring[i].ticket in RingTickets(ring); }
    }
  }

  /** A holder keeps its number, or a newcomer takes one nobody holds. */
  lemma StillOneEach(m: Flight, p: Producer, st: Stage)
    requires OneProducerEach(m)
    requires HasTicket(st) ==> if p in m && HasTicket(m[p]) then st.t == m[p].t else st.t !in Tickets(m)
    ensures OneProducerEach(m[p := st])
  {
    var m' := m[p := st];
    forall q, r | q in m' && r in m' && q != r
      ensures !(HasTicket(m'[q]) && HasTicket(m'[r]) && m'[q].t == m'[r].t)
    {
      if q != p && HasTicket(m[q]) { assert m[q].t in Tickets(m); }
      if r != p && HasTicket(m[r]) { assert m[r].t in Tickets(m); }
    }
  }

  lemma IssueNumbers(s: State, cpu: nat)
    requires IssuedUpToCounter(s)
    ensures var n := Counter(s, cpu) + 1;
      IssuedUpToCounter(s.(counters := s.counters[cpu := n], issued := s.issued + {Ticket(cpu, n)}))
  {
  }

  // The same three moves on plain sets.

  lemma IssueSets(issued: set<Ticket>, landed: set<Ticket>, flying: set<Ticket>, lost: set<Ticket>, t: Ticket)
    requires Partition(issued, landed, flying, lost) && t !in issued
    ensures Partition(issued + {t}, landed, flying + {t}, lost)
  {
  }

  lemma SubmitSets(issued: set<Ticket>, landed: set<Ticket>, flying: set<Ticket>, lost: set<Ticket>, t: Ticket)
    requires Partition(issued, landed, flying, lost) && t in flying
    ensures Partition(issued, landed + {t}, flying - {t}, lost)
  {
  }

  lemma LoseSets(issued: set<Ticket>, landed: set<Ticket>, flying: set<Ticket>, lost: set<Ticket>, t: Ticket)
    requires Partition(issued, landed, flying, lost) && t in flying
    ensures Partition(issued, landed, flying - {t}, lost + {t})
  {
  }

  lemma NextTicketIsFresh(s: State, cpu: nat)
    requires Accounted(s)
    ensures var t := Ticket(cpu, Counter(s, cpu) + 1); t !in s.issued && t !in Tickets(s.producers)
  {
    hide Tickets, RingTickets;
  }

  lemma AllocateTickets(s: State, a: Action)
    requires Accounted(s) && Enabled(s, a) && a.Allocate?
    ensures var s' := Act(s, a);
      OneProducerEach(s'.producers) && Partition(s'.issued, Submitted(s'), InFlight(s'), s'.lost)
  {
    hide Tickets, RingTickets, OneRecordEach, OneProducerEach, Partition, IssuedUpToCounter;
    var t := Ticket(a.cpu, Counter(s, a.cpu) + 1);
    NextTicketIsFresh(s, a.cpu);
    TicketMoves(s.producers, a.p, Allocated(t));
    StillOneEach(s.producers, a.p, Allocated(t));
    IssueSets(s.issued, Submitted(s), InFlight(s), s.lost, t);
  }

  lemma AllocateAccounted(s: State, a: Action)
    requires Accounted(s) && Enabled(s, a) && a.Allocate?
    ensures Accounted(Act(s, a))
  {
    hide Tickets, RingTickets, OneRecordEach, OneProducerEach, Partition;
    AllocateTickets(s, a);
    IssueNumbers(s, a.cpu);
    assert IssuedUpToCounter(Act(s, a));
  }

  /** Whoever moves on keeps the number it has, or still has none. */
  ghost predicate KeepsTicket(m: Flight, p: Producer, st: Stage) {
    if p in m && HasTicket(m[p]) then HasTicket(st) && st.t == m[p].t else !HasTicket(st)
  }

  lemma SameTickets(m: Flight, p: Producer, st: Stage)
    requires KeepsTicket(m, p, st)
    ensures Tickets(m[p := st]) == Tickets(m)
  {
    if HasTicket(st) {
      TicketMoves(m, p, st);
      assert m[p].t in Tickets(m);
    } else {
      NoTicketMoves(m, p, st);
    }
  }

  /** Moving on with the number one has, or with none, changes no account. */
  lemma MoveAccounted(s: State, s': State, p: Producer, st: Stage)
    requires Accounted(s) && s'.producers == s.producers[p := st] && KeepsTicket(s.producers, p, st)
    requires s'.counters == s.counters && s'.issued == s.issued && s'.lost == s.lost && s'.ring == s.ring
    requires s'.epoch >= s.epoch
    ensures Accounted(s')
  {
    hide Tickets, RingTickets, OneRecordEach, Partition, IssuedUpToCounter;
    SameTickets(s.producers, p, st);
    StillOneEach(s.producers, p, st);
    SameNumbers(s, s');
  }

  lemma StillOneEachWithout(m: Flight, p: Producer)
    requires OneProducerEach(m)
    ensures OneProducerEach(m - {p})
  {
  }

  lemma SubmitPartition(s: State, a: Action)
    requires Accounted(s) && Enabled(s, a) && a.Submit?
    ensures var s' := Act(s, a); Partition(s'.issued, Submitted(s'), InFlight(s'), s'.lost) && OneRecordEach(s'.ring)
  {
    var st := s.producers[a.p];
    assert st.t in Tickets(s.producers);
    TicketLeaves(s.producers, a.p);
    RingGrows(s.ring, Record(st.t, st.epoch, st.time));
    SubmitSets(s.issued, Submitted(s), InFlight(s), s.lost, st.t);
  }

  lemma SubmitAccounted(s: State, a: Action)
    requires Accounted(s) && Enabled(s, a) && a.Submit?
    ensures Accounted(Act(s, a))
  {
    SubmitPartition(s, a);
    StillOneEachWithout(s.producers, a.p);
    SameNumbers(s, Act(s, a));
  }

  lemma SameNumbers(s: State, s': State)
    requires IssuedUpToCounter(s) && s'.counters == s.counters && s'.issued == s.issued
    ensures IssuedUpToCounter(s')
  {
  }

  lemma EndPartition(s: State, p: Producer)
    requires Accounted(s) && p in s.producers
    ensures var ended := if HasTicket(s.producers[p]) then {s.producers[p].t} else {};
      Partition(s.issued, Submitted(s), Tickets(s.producers - {p}), s.lost + ended)
  {
    TicketLeaves(s.producers, p);
    if HasTicket(s.producers[p]) {
      assert s.producers[p].t in Tickets(s.producers);
      LoseSets(s.issued, Submitted(s), InFlight(s), s.lost, s.producers[p].t);
    }
  }

  /** The end of a failed attempt: one more number is lost, and one more loss is recorded. */
  lemma EndAccounted(s: State, s': State, p: Producer)
    requires Accounted(s) && p in s.producers
    requires s' == s.(epoch := s.epoch + 1, producers := s.producers - {p},
        lost := s.lost + if HasTicket(s.producers[p]) then {s.producers[p].t} else {})
    ensures Accounted(s')
  {
    EndPartition(s, p);
    StillOneEachWithout(s.producers, p);
    SameNumbers(s, s');
  }

  lemma ActAccounted(s: State, a: Action)
    requires Accounted(s) && Enabled(s, a)
    ensures Accounted(Act(s, a))
  {
    hide Accounted;
    var s' := Act(s, a);
    if a.Allocate? {
      AllocateAccounted(s, a);
    } else if a.Submit? {
      SubmitAccounted(s, a);
    } else if a.FetchAdd? && !(s.producers[a.p].BumpEpoch? && !s.producers[a.p].fatal) {
      EndAccounted(s, s', a.p);
    } else {
      MoveAccounted(s, s', a.p, s'.producers[a.p]);
    }
  }

  lemma {:induction false} RunAccounted(s: State, actions: seq<Action>, s': State)
    requires Accounted(s) && Runs(s, actions, s')
    ensures Accounted(s')
    decreases |actions|
  {
    if actions != [] {
      ActAccounted(s, actions[0]);
      RunAccounted(Act(s, actions[0]), actions[1..], s');
    }
  }

  /** No sequence number is ever reused: no two records of the ring, no two attempts in flight,
      and no attempt and record share one. */
  lemma SequenceNumbersAreUnique(s: State, actions: seq<Action>, s': State)
    requires Initial(s) && Runs(s, actions, s')
    ensures OneProducerEach(s'.producers) && OneRecordEach(s'.ring) && InFlight(s') !! Submitted(s')
    ensures IssuedUpToCounter(s')
  {
    RunAccounted(s, actions, s');
  }

  /** Conservation: numbers handed out are submitted, in flight or lost, and the lost ones never
      outnumber the losses recorded in the epoch. */
  lemma EveryLossIsRecorded(s: State, actions: seq<Action>, s': State)
    requires Initial(s) && Runs(s, actions, s')
    ensures s'.lost == s'.issued - Submitted(s') - InFlight(s')
    ensures |s'.issued| == |Submitted(s')| + |InFlight(s')| + |s'.lost|
    ensures |s'.issued| - |Submitted(s')| - |InFlight(s')| <= s'.epoch
  {
    RunAccounted(s, actions, s');
    PartitionCount(s'.issued, Submitted(s'), InFlight(s'), s'.lost);
  }

  lemma PartitionCount(issued: set<Ticket>, landed: set<Ticket>, flying: set<Ticket>, lost: set<Ticket>)
    requires Partition(issued, landed, flying, lost)
    ensures lost == issued - landed - flying
    ensures |issued| == |landed| + |flying| + |lost|
  {
  }

  /** Gaps are backed one for one: take any set of numbers below submitted ones of their CPU
      that a reader never sees and that no attempt still holds. There are at most as many of
      them as recorded losses. */
  lemma GapsAreBacked(s: State, actions: seq<Action>, s': State, gaps: set<Ticket>)
    requires Initial(s) && Runs(s, actions, s')
    requires forall t :: t in gaps ==>
      && t !in Submitted(s') && t !in InFlight(s')
      && 1 <= t.number && exists n :: t.number < n && Ticket(t.cpu, n) in Submitted(s')
    ensures gaps <= s'.lost && |gaps| <= s'.epoch
  {
    RunAccounted(s, actions, s');
    hide Tickets, RingTickets, OneRecordEach, OneProducerEach;
    forall t | t in gaps ensures t in s'.lost {
      var n :| t.number < n && Ticket(t.cpu, n) in Submitted(s');
      assert Ticket(t.cpu, n) in s'.issued;
      assert t in s'.issued;
    }
    SubsetSize(gaps, s'.lost);
  }

  // ----- what a header says about losses -------------------------------------------------

  /** The attempt still has to read the epoch. */
  predicate BeforeRead(st: Stage) { st.Allocated? || st.Reserved? || st.MarkTime? || st.BumpEpoch? }

  /** Whoever holds number `t` with an epoch in hand read one between `low` and now. */
  ghost predicate StageFresh(s: State, st: Stage, t: Ticket, low: nat) {
    (st.EpochRead? || st.Stamped?) && st.t == t ==> low <= st.epoch <= s.epoch
  }

  ghost predicate Fresh(s: State, t: Ticket, low: nat) {
    && low <= s.epoch
    && (forall p :: p in s.producers ==> StageFresh(s, s.producers[p], t, low))
    && (forall r :: r in s.ring && r.ticket == t ==> low <= r.epoch <= s.epoch)
  }

  lemma ActFresh(s: State, a: Action, t: Ticket, low: nat)
    requires Fresh(s, t, low) && Enabled(s, a)
    ensures Fresh(Act(s, a), t, low)
  {
    var s' := Act(s, a);
    forall p | p in s'.producers ensures StageFresh(s', s'.producers[p], t, low) {
      if p in s.producers { assert StageFresh(s, s.producers[p], t, low); }
    }
    if a.Submit? { assert StageFresh(s, s.producers[a.p], t, low); }
  }

  lemma {:induction false} RunFresh(s: State, actions: seq<Action>, s': State, t: Ticket, low: nat)
    requires Fresh(s, t, low) && Runs(s, actions, s')
    ensures Fresh(s', t, low)
    decreases |actions|
  {
    if actions != [] {
      ActFresh(s, actions[0], t, low);
      RunFresh(Act(s, actions[0]), actions[1..], s', t, low);
    }
  }

  /** Headers tell of losses: whatever had been recorded while an attempt had not yet read the
      epoch, its record's epoch counts, and it counts nothing that has not happened. */
  lemma HeaderTellsOfLosses(
      s: State, first: seq<Action>, mid: State, p: Producer, second: seq<Action>, s': State, i: nat)
    requires Initial(s) && Runs(s, first, mid) && Runs(mid, second, s')
    requires p in mid.producers && BeforeRead(mid.producers[p])
    requires i < |s'.ring| && s'.ring[i].ticket == mid.producers[p].t
    ensures mid.epoch <= s'.ring[i].epoch <= s'.epoch
  {
    var t := mid.producers[p].t;
    RunAccounted(s, first, mid);
    UnreadIsFresh(mid, p);
    RunFresh(mid, second, s', t, mid.epoch);
    assert s'.ring[i] in s'.ring;
  }

  lemma UnreadIsFresh(s: State, p: Producer)
    requires Accounted(s) && p in s.producers && BeforeRead(s.producers[p])
    ensures Fresh(s, s.producers[p].t, s.epoch)
  {
    hide IssuedUpToCounter, OneRecordEach;
    var t := s.producers[p].t;
    assert t in Tickets(s.producers);
    forall q | q in s.producers ensures StageFresh(s, s.producers[q], t, s.epoch) {
    }
    forall r | r in s.ring ensures r.ticket != t { assert r.ticket in Submitted(s); }
  }

  /** How many losses the run recorded. */
  function Losses(actions: seq<Action>): nat {
    if actions == [] then 0 else (if actions[0].FetchAdd? then 1 else 0) + Losses(actions[1..])
  }

  /** The epoch counts the recorded losses, one for one. */
  lemma {:induction false} EpochCountsLosses(s: State, actions: seq<Action>, s': State)
    requires Runs(s, actions, s')
    ensures s'.epoch == s.epoch + Losses(actions)
    decreases |actions|
  {
    if actions != [] { EpochCountsLosses(Act(s, actions[0]), actions[1..], s'); }
  }

  predicate LossAt(a: Action, now: nat) { (a.Fail? || a.CaptureFault? || a.StrayLoss?) && a.now == now }

  /** The times in hand, and the first-loss time, are times at which a loss happened. */
  ghost predicate TimesAmong(s: State, times: set<nat>) {
    && (s.firstTime != 0 ==> s.firstTime in times)
    && (forall p :: p in s.producers && (s.producers[p].MarkTime? || s.producers[p].StrayMark?) ==>
          s.producers[p].now in times)
  }

  /** The first-loss time is the time of a loss of the run. */
  lemma {:induction false} FirstTimeIsALoss(s: State, actions: seq<Action>, s': State, times: set<nat>)
    requires TimesAmong(s, times) && Runs(s, actions, s')
    ensures s'.firstTime == 0 || s'.firstTime in times ||
      exists i :: 0 <= i < |actions| && LossAt(actions[i], s'.firstTime)
    decreases |actions|
  {
    if actions != [] {
      var a := actions[0];
      var more := if a.Fail? || a.CaptureFault? || a.StrayLoss? then {a.now} else {};
      ActTimes(s, a, times);
      FirstTimeIsALoss(Act(s, a), actions[1..], s', times + more);
      if s'.firstTime in more {
        assert LossAt(actions[0], s'.firstTime);
      } else if i :| 0 <= i < |actions[1..]| && LossAt(actions[1..][i], s'.firstTime) {
        assert LossAt(actions[i + 1], s'.firstTime);
      }
    }
  }

  lemma ActTimes(s: State, a: Action, times: set<nat>)
    requires TimesAmong(s, times) && Enabled(s, a)
    ensures TimesAmong(Act(s, a), times + if a.Fail? || a.CaptureFault? || a.StrayLoss? then {a.now} else {})
  {
  }
}
