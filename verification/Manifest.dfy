/** The capture manifest validator: program table checks and cycle detection over the program
    dependency graph, for every map iteration order. */
module Manifest {

  datatype Kind = TailCall | Standalone | UnknownKind

  datatype ProgramRef = ProgramRef(arrayName: string, program: string)

  datatype ProgramSpec = ProgramSpec(
    arrayName: string, slot: nat, goName: string, cName: string, programName: string, family: string,
    kind: Kind, dependencies: seq<ProgramRef>)

  type Programs = map<string, ProgramSpec>

  // ----- the dependency graph ------------------------------------------------------------

  /** A program depends on another by name. */
  ghost predicate Edge(programs: Programs, a: string, b: string) {
    a in programs && exists i :: 0 <= i < |programs[a].dependencies| && programs[a].dependencies[i].program == b
  }

  ghost predicate IsPath(programs: Programs, p: seq<string>) {
    |p| > 0 && forall i :: 0 <= i < |p| - 1 ==> Edge(programs, p[i], p[i + 1])
  }

  ghost predicate IsCycle(programs: Programs, p: seq<string>) {
    IsPath(programs, p) && |p| > 1 && p[0] == p[|p| - 1]
  }

  ghost predicate Acyclic(programs: Programs) { forall p :: !IsCycle(programs, p) }

  predicate RefResolves(ref: ProgramRef, arrayName: string, programs: Programs) {
    && ref.program in programs
    && programs[ref.program].kind.TailCall?
    && programs[ref.program].arrayName == ref.arrayName
    && ref.arrayName == arrayName
  }

  ghost predicate SpecResolves(spec: ProgramSpec, programs: Programs) {
    forall i :: 0 <= i < |spec.dependencies| ==> RefResolves(spec.dependencies[i], spec.arrayName, programs)
  }

  /** Every dependency names a program of the table. */
  ghost predicate Closed(programs: Programs) {
    forall a, b :: Edge(programs, a, b) ==> b in programs
  }

  // ----- finishing order -----------------------------------------------------------------

  /** Each program's dependencies come before it. */
  ghost predicate Ordered(programs: Programs, order: seq<string>) {
    forall i, b :: 0 <= i < |order| && Edge(programs, order[i], b) ==> b in order[..i]
  }

  ghost predicate Distinct(s: seq<string>) { forall i, j :: 0 <= i < j < |s| ==> s[i] != s[j] }

  ghost function IndexOf(s: seq<string>, x: string): (i: nat)
    requires x in s
    ensures i < |s| && s[i] == x
  {
    if s[0] == x then 0 else 1 + IndexOf(s[1..], x)
  }

  lemma EdgeDescends(programs: Programs, order: seq<string>, a: string, b: string)
    requires Ordered(programs, order) && Distinct(order) && a in order && Edge(programs, a, b)
    ensures b in order && IndexOf(order, b) < IndexOf(order, a)
  {
    var i := IndexOf(order, a);
    assert b in order[..i];
    var j :| 0 <= j < i && order[j] == b;
  }

  /** Along a path the finishing index strictly decreases. */
  lemma {:induction false} PathDescends(programs: Programs, order: seq<string>, p: seq<string>, k: nat)
    requires Ordered(programs, order) && Distinct(order) && IsPath(programs, p) && p[0] in order && 0 < k < |p|
    ensures p[k] in order && IndexOf(order, p[k]) < IndexOf(order, p[0])
  {
    if k > 1 { PathDescends(programs, order, p, k - 1); }
    EdgeDescends(programs, order, p[k - 1], p[k]);
  }

  lemma OrderedIsAcyclic(programs: Programs, order: seq<string>)
    requires Ordered(programs, order) && Distinct(order) && forall a :: a in programs ==> a in order
    ensures Acyclic(programs)
  {
    forall p ensures !IsCycle(programs, p) {
      if IsCycle(programs, p) {
        assert Edge(programs, p[0], p[1]);
        PathDescends(programs, order, p, |p| - 1);
      }
    }
  }

  lemma StackGivesCycle(programs: Programs, stack: seq<string>, name: string, i: nat)
    requires IsPath(programs, stack) && i < |stack| && stack[i] == name
    requires Edge(programs, stack[|stack| - 1], name)
    ensures !Acyclic(programs)
  {
    var p := stack[i..] + [name];
    forall j | 0 <= j < |p| - 1 ensures Edge(programs, p[j], p[j + 1]) {
      if j < |p| - 2 { assert Edge(programs, stack[i + j], stack[i + j + 1]); }
    }
    assert IsCycle(programs, p);
  }

  // ----- the depth-first visit -----------------------------------------------------------

  datatype Colour = Grey | Black

  /** The recursive visit and the colour map it captures. A name without a colour is white. */
  class Visitor {
    const programs: Programs
    var state: map<string, Colour>
    ghost var order: seq<string>

    constructor (programs: Programs)
      ensures this.programs == programs && state == map[] && order == []
    {
      this.programs := programs;
      state := map[];
      order := [];
    }

    /** `stack` is the chain of visits in progress. */
    ghost predicate Valid(stack: seq<string>)
      reads this
    {
      && state.Keys <= programs.Keys
      && Distinct(order) && Distinct(stack)
      && (forall x :: x in state && state[x].Grey? <==> x in stack)
      && (forall x :: x in state && state[x].Black? <==> x in order)
      && Ordered(programs, order)
      && (stack != [] ==> IsPath(programs, stack))
    }

    /** Greys a program that has not been met. */
    method Start(name: string, ghost stack: seq<string>)
      requires Valid(stack) && name in programs && name !in state
      requires stack != [] ==> Edge(programs, stack[|stack| - 1], name)
      modifies this
      ensures Valid(stack + [name]) && order == old(order) && state == old(state)[name := Grey]
    {
      hide Ordered, IsPath, Edge;
      state := state[name := Grey];
      assert forall i :: 0 <= i < |stack| ==> stack[i] in stack;
      PushKeepsPath(stack, name);
    }

    method Visit(name: string, ghost stack: seq<string>) returns (ok: bool)
      requires Closed(programs) && Valid(stack) && name in programs
      requires stack != [] ==> Edge(programs, stack[|stack| - 1], name)
      modifies this
      ensures old(state.Keys) <= state.Keys
      ensures ok ==> Valid(stack) && name in order && old(order) <= order
      ensures !ok ==> !Acyclic(programs)
      decreases programs.Keys - state.Keys
    {
      hide Ordered, IsPath, Acyclic, Distinct;
      if name in state && state[name] == Grey {
        ghost var i :| 0 <= i < |stack| && stack[i] == name;
        StackGivesCycle(programs, stack, name, i);
        return false;
      }
      if name in state && state[name] == Black {
        return true;
      }
      Start(name, stack);
      ghost var deeper := stack + [name];
      var deps := programs[name].dependencies;
      for i := 0 to |deps|
        invariant Valid(deeper) && old(order) <= order
        invariant old(state.Keys) + {name} <= state.Keys
        invariant forall j :: 0 <= j < i ==> deps[j].program in order
      {
        assert Edge(programs, name, deps[i].program);
        assert deeper[|deeper| - 1] == name;
        ok := Visit(deps[i].program, deeper);
        if !ok {
          return false;
        }
      }
      Finish(name, stack);
      return true;
    }

    lemma PushKeepsPath(stack: seq<string>, name: string)
      requires stack != [] ==> IsPath(programs, stack) && Edge(programs, stack[|stack| - 1], name)
      ensures IsPath(programs, stack + [name])
    {
      var deeper := stack + [name];
      forall i | 0 <= i < |deeper| - 1 ensures Edge(programs, deeper[i], deeper[i + 1]) {
        if i < |stack| - 1 { assert Edge(programs, stack[i], stack[i + 1]); }
      }
    }

    /** Colour the node black: its dependencies are all finished, so it may follow them. */
    method Finish(name: string, ghost stack: seq<string>)
      requires Valid(stack + [name])
      requires name in programs && forall j :: 0 <= j < |programs[name].dependencies| ==>
        programs[name].dependencies[j].program in order
      modifies this
      ensures Valid(stack) && order == old(order) + [name] && state == old(state)[name := Black]
    {
      ghost var deeper := stack + [name];
      assert deeper[|stack|] == name;
      assert stack == deeper[..|stack|];
      assert stack != [] ==> IsPath(programs, stack) by {
        assert forall i :: 0 <= i < |stack| - 1 ==> Edge(programs, deeper[i], deeper[i + 1]);
      }
      assert name !in stack && forall x :: x in deeper <==> x in stack || x == name;
      assert name !in order;
      ghost var was := order;
      state := state[name := Black];
      order := order + [name];
      assert Ordered(programs, order) by {
        forall i, b | 0 <= i < |order| && Edge(programs, order[i], b) ensures b in order[..i] {
          assert order[..i] == was[..i];
          if i == |was| { assert was[..i] == was; } else { assert order[i] == was[i]; }
        }
      }
    }
  }

  /** The dependency check accepts exactly the tables whose references all resolve and whose
      graph has no cycle, whatever order the table is walked in. */
  method ValidateDependencies(specs: seq<ProgramSpec>, programs: Programs) returns (ok: bool)
    requires forall name :: name in programs ==> programs[name] in specs
    ensures ok <==> (forall spec :: spec in specs ==> SpecResolves(spec, programs)) && Acyclic(programs)
  {
    for i := 0 to |specs|
      invariant forall k :: 0 <= k < i ==> SpecResolves(specs[k], programs)
    {
      var spec := specs[i];
      for j := 0 to |spec.dependencies|
        invariant forall k :: 0 <= k < j ==> RefResolves(spec.dependencies[k], spec.arrayName, programs)
      {
        if !RefResolves(spec.dependencies[j], spec.arrayName, programs) {
          assert spec in specs;
          return false;
        }
      }
    }
    assert Closed(programs) by {
      forall a, b | Edge(programs, a, b) ensures b in programs {
        var i :| 0 <= i < |programs[a].dependencies| && programs[a].dependencies[i].program == b;
        assert SpecResolves(programs[a], programs);
      }
    }
    var visitor := new Visitor(programs);
    var todo := programs.Keys;
    while todo != {}
      invariant todo <= programs.Keys
      invariant visitor.programs == programs && visitor.Valid([])
      invariant forall name :: name in programs.Keys - todo ==> name in visitor.order
      decreases todo
    {
      var name :| name in todo;
      var good := visitor.Visit(name, []);
      if !good {
        return false;
      }
      todo := todo - {name};
    }
    OrderedIsAcyclic(programs, visitor.order);
    return true;
  }

  // ----- dense program arrays ------------------------------------------------------------

  /** Slot 0 of the enter array is reserved. */
  function FirstSlot(arrayName: string): nat { if arrayName == "enter" then 1 else 0 }

  /** Occupied from the first slot to the last without a gap. */
  ghost predicate Dense(arrayName: string, slots: set<nat>) {
    FirstSlot(arrayName) in slots &&
    forall s, top :: top in slots && FirstSlot(arrayName) <= s <= top ==> s in slots
  }

  method ArrayIsDense(arrayName: string, slots: set<nat>) returns (ok: bool)
    ensures ok <==> Dense(arrayName, slots)
  {
    if slots == {} {
      return false;
    }
    var start := FirstSlot(arrayName);
    var max := start;
    var rest := slots;
    while rest != {}
      invariant rest <= slots && start <= max && (max in slots || max == start)
      invariant forall s :: s in slots && s !in rest ==> s <= max
      decreases rest
    {
      var slot :| slot in rest;
      if slot > max {
        max := slot;
      }
      rest := rest - {slot};
    }
    var slot := start;
    while slot <= max
      invariant start <= slot <= max + 1
      invariant forall s :: start <= s < slot ==> s in slots
    {
      if slot !in slots {
        return false;
      }
      slot := slot + 1;
    }
    return true;
  }

  // ----- the program table ---------------------------------------------------------------

  const ARRAYS := ["enter", "exit", "recvmsg", "mmsg_bytes"]

  predicate WellFormed(spec: ProgramSpec, families: set<string>) {
    && spec.programName != "" && spec.family != "" && spec.family in families
    && match spec.kind
       case TailCall => spec.goName != "" && spec.cName != ""
       case Standalone => spec.arrayName == "" && spec.goName == "" && spec.cName == ""
       case UnknownKind => false
  }

  /** Two programs that may stand in one table. */
  predicate Apart(a: ProgramSpec, b: ProgramSpec) {
    && a.programName != b.programName
    && (a.kind.TailCall? && b.kind.TailCall? ==>
          a.goName != b.goName && a.cName != b.cName && !(a.arrayName == b.arrayName && a.slot == b.slot))
  }

  ghost predicate AllApart(
      specs: seq<ProgramSpec>) { forall i, j :: 0 <= i < j < |specs| ==> Apart(specs[i], specs[j]) }

  ghost predicate AllWellFormed(specs: seq<ProgramSpec>, families: set<string>) {
    forall i :: 0 <= i < |specs| ==> WellFormed(specs[i], families)
  }

  ghost function GoNames(specs: seq<ProgramSpec>): set<string> {
    set i | 0 <= i < |specs| && specs[i].kind.TailCall? :: specs[i].goName
  }

  ghost function CNames(specs: seq<ProgramSpec>): set<string> {
    set i | 0 <= i < |specs| && specs[i].kind.TailCall? :: specs[i].cName
  }

  ghost function SlotsOf(specs: seq<ProgramSpec>, arrayName: string): set<nat> {
    set i | 0 <= i < |specs| && specs[i].kind.TailCall? && specs[i].arrayName == arrayName :: specs[i].slot
  }

  lemma NamesSnoc(specs: seq<ProgramSpec>, spec: ProgramSpec)
    ensures GoNames(specs + [spec]) == GoNames(specs) + if spec.kind.TailCall? then {spec.goName} else {}
    ensures CNames(specs + [spec]) == CNames(specs) + if spec.kind.TailCall? then {spec.cName} else {}
  {
    var more := specs + [spec];
    assert more[|specs|] == spec;
    forall i | 0 <= i < |specs| && specs[i].kind.TailCall? ensures specs[i].goName in GoNames(more) &&
        specs[i].cName in CNames(more) {
      assert more[i] == specs[i];
    }
  }

  lemma SlotsSnoc(specs: seq<ProgramSpec>, spec: ProgramSpec, a: string)
    ensures SlotsOf(specs + [spec], a) == SlotsOf(specs, a) + if spec.kind.TailCall? &&
      spec.arrayName == a then {spec.slot} else {}
  {
    var more := specs + [spec];
    assert more[|specs|] == spec;
    forall i | 0 <= i < |specs| && specs[i].kind.TailCall? &&
        specs[i].arrayName == a ensures specs[i].slot in SlotsOf(more, a) {
      assert more[i] == specs[i];
    }
  }

  lemma TableSnoc(specs: seq<ProgramSpec>, programs: Programs, spec: ProgramSpec)
    requires TableOf(specs, programs) && spec.programName !in programs
    ensures TableOf(specs + [spec], programs[spec.programName := spec])
  {
  }

  /** What the sets say about a newcomer. */
  lemma ApartFromAll(specs: seq<ProgramSpec>, programs: Programs, spec: ProgramSpec)
    requires TableOf(specs, programs)
    ensures
      (forall i :: 0 <= i < |specs| ==> Apart(specs[i], spec)) <==>
      && spec.programName !in programs
      && (spec.kind.TailCall? ==>
            spec.goName !in GoNames(specs) && spec.cName !in CNames(specs) &&
                spec.slot !in SlotsOf(specs, spec.arrayName))
  {
  }

  ghost predicate AllDense(specs: seq<ProgramSpec>) {
    forall i :: 0 <= i < |ARRAYS| ==> Dense(ARRAYS[i], SlotsOf(specs, ARRAYS[i]))
  }

  /** The table holds each program under its name and nothing else. */
  ghost predicate TableOf(specs: seq<ProgramSpec>, programs: Programs) {
    && (forall i :: 0 <= i < |specs| ==> specs[i].programName in programs && programs[specs[i].programName] == specs[i])
    && (forall name :: name in programs ==> programs[name] in specs && programs[name].programName == name)
  }

  function SlotsIn(
      seen: map<string, set<nat>>, arrayName: string): set<nat> { if arrayName in seen then seen[arrayName] else {} }

  /** The name and slot sets the check fills as it goes. */
  class Table {
    var programs: Programs
    var seenGo: set<string>
    var seenC: set<string>
    var seenSlots: map<string, set<nat>>

    constructor ()
      ensures Holds([])
    {
      programs, seenGo, seenC, seenSlots := map[], {}, {}, map[];
    }

    ghost predicate Holds(specs: seq<ProgramSpec>)
      reads this
    {
      && TableOf(specs, programs) && seenGo == GoNames(specs) && seenC == CNames(specs)
      && forall a :: SlotsIn(seenSlots, a) == SlotsOf(specs, a)
    }

    /** One turn of the loop: the program is taken in exactly when it is well formed and apart
        from all before it. */
    method Add(ghost before: seq<ProgramSpec>, spec: ProgramSpec, families: set<string>) returns (ok: bool)
      requires Holds(before)
      modifies this
      ensures ok <==> WellFormed(spec, families) && forall i :: 0 <= i < |before| ==> Apart(before[i], spec)
      ensures ok ==> Holds(before + [spec])
    {
      hide GoNames, CNames, SlotsOf, TableOf, Apart;
      ApartFromAll(before, programs, spec);
      if spec.programName == "" || spec.programName in programs || spec.family == "" || spec.family !in families {
        return false;
      }
      match spec.kind {
        case TailCall =>
          if spec.goName == "" || spec.cName == "" || spec.goName in seenGo || spec.cName in seenC {
            return false;
          }
          var slots := SlotsIn(seenSlots, spec.arrayName);
          if spec.slot in slots {
            return false;
          }
          seenGo := seenGo + {spec.goName};
          seenC := seenC + {spec.cName};
          seenSlots := seenSlots[spec.arrayName := slots + {spec.slot}];
        case Standalone =>
          if spec.arrayName != "" || spec.goName != "" || spec.cName != "" {
            return false;
          }
        case UnknownKind =>
          return false;
      }
      TableSnoc(before, programs, spec);
      NamesSnoc(before, spec);
      forall a ensures SlotsIn(seenSlots, a) == SlotsOf(before + [spec], a) { SlotsSnoc(before, spec, a); }
      programs := programs[spec.programName := spec];
      return true;
    }
  }

  /** The table check accepts exactly the lists whose programs are well formed, pairwise apart
      and densely slotted, and returns the table by name. */
  method ValidatePrograms(specs: seq<ProgramSpec>, families: set<string>) returns (ok: bool, programs: Programs)
    ensures ok <==> AllWellFormed(specs, families) && AllApart(specs) && AllDense(specs)
    ensures ok ==> TableOf(specs, programs)
  {
    hide Apart, WellFormed, Dense, TableOf, GoNames, CNames, SlotsOf, SlotsIn;
    var table := new Table();
    for i := 0 to |specs|
      invariant table.Holds(specs[..i]) && AllWellFormed(specs[..i], families) && AllApart(specs[..i])
    {
      assert specs[..i + 1] == specs[..i] + [specs[i]];
      var good := table.Add(specs[..i], specs[i], families);
      if !good {
        Offends(specs, i, families);
        return false, map[];
      }
    }
    assert specs[..|specs|] == specs;
    for k := 0 to |ARRAYS|
      invariant table.Holds(specs)
      invariant forall j :: 0 <= j < k ==> Dense(ARRAYS[j], SlotsOf(specs, ARRAYS[j]))
    {
      var dense := ArrayIsDense(ARRAYS[k], SlotsIn(table.seenSlots, ARRAYS[k]));
      if !dense {
        return false, map[];
      }
    }
    return true, table.programs;
  }

  lemma Offends(specs: seq<ProgramSpec>, k: nat, families: set<string>)
    requires k < |specs|
    requires !WellFormed(specs[k], families) || !(forall i :: 0 <= i < k ==> Apart(specs[..k][i], specs[k]))
    ensures !(AllWellFormed(specs, families) && AllApart(specs))
  {
  }

  /** Both checks together: the manifest's programs are accepted exactly when they are well
      formed, apart, densely slotted, resolve all their references, and form no cycle. */
  method ValidateProgramsAndDependencies(specs: seq<ProgramSpec>, families: set<string>) returns (ok: bool)
    ensures ok <==>
      && AllWellFormed(specs, families) && AllApart(specs) && AllDense(specs)
      && exists programs :: TableOf(specs, programs) &&
          (forall spec :: spec in specs ==> SpecResolves(spec, programs)) && Acyclic(programs)
  {
    var programs;
    ok, programs := ValidatePrograms(specs, families);
    if !ok {
      return;
    }
    ok := ValidateDependencies(specs, programs);
    forall other | TableOf(specs, other) ensures other == programs { TableIsUnique(specs, programs, other); }
  }

  lemma TableIsUnique(specs: seq<ProgramSpec>, p: Programs, q: Programs)
    requires TableOf(specs, p) && TableOf(specs, q)
    ensures p == q
  {
    forall name ensures name in p <==> name in q {
      if name in p { var i :| 0 <= i < |specs| && specs[i] == p[name]; }
      if name in q { var i :| 0 <= i < |specs| && specs[i] == q[name]; }
    }
    forall name | name in p && name in q ensures p[name] == q[name] {
      var i :| 0 <= i < |specs| && specs[i] == p[name];
    }
  }
}
