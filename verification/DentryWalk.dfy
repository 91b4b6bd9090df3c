/** Resolving an open file to a path: a bounded walk from a dentry to the global root, across
    mounts, and the root-to-leaf join of the names it met. */
module DentryWalk {
  import opened Abi
  import opened UserMemory

  const DENTRY_MAX := 8
  const DIRECT_MAX := 512
  const PATH_FAILED := -36
  const SLASH: Byte := 47

  type Name = Option<seq<Byte>>

  /** The kernel's dentry and mount links; 0 is null, and a failed read of a link reads 0. A
      name that cannot be read is `None`. */
  datatype Vfs = Vfs(
    parent: int -> int,
    name: int -> Name,
    rootOf: int -> int,
    mountParent: int -> int,
    mountPoint: int -> int)

  function RootOf(v: Vfs, mnt: int): int { if mnt == 0 then 0 else v.rootOf(mnt) }

  /** The dentry is where the global root hangs: the root of a mount without a parent. */
  predicate IsGlobalRoot(v: Vfs, d: int, mnt: int) {
    d != 0 && d == RootOf(v, mnt) && (v.mountParent(mnt) == 0 || v.mountParent(mnt) == mnt)
  }

  /** The reference walk: the dentries from `d` up to the global root, root first, if the root is
      met within `steps` looks. Crossing a mount costs a look like any parent. */
  function Ascend(v: Vfs, d: int, mnt: int, steps: nat): Option<seq<int>>
    decreases steps
  {
    if steps == 0 || d == 0 then None
    else if IsGlobalRoot(v, d, mnt) then Some([])
    else if d == RootOf(v, mnt) then Ascend(v, v.mountPoint(mnt), v.mountParent(mnt), steps - 1)
    else if v.parent(d) == 0 || v.parent(d) == d then None
    else
      var above := Ascend(v, v.parent(d), mnt, steps - 1);
      if above.None? then None else Some(above.value + [d])
  }

  lemma {:induction false} AscendIsShort(v: Vfs, d: int, mnt: int, steps: nat)
    ensures Ascend(v, d, mnt, steps).Some? ==> |Ascend(v, d, mnt, steps).value| < steps
    decreases steps
  {
    if steps > 0 && d != 0 && !IsGlobalRoot(v, d, mnt) {
      if d == RootOf(v, mnt) {
        AscendIsShort(v, v.mountPoint(mnt), v.mountParent(mnt), steps - 1);
      } else {
        AscendIsShort(v, v.parent(d), mnt, steps - 1);
      }
    }
  }

  predicate GoodName(n: Name) { n.Some? && 1 <= |n.value| <= 255 }

  /** Slash and name for each dentry, root first. It fails on an unreadable, empty or oversized
      name, and when a name would have to start past byte 255. */
  function Join(v: Vfs, ds: seq<int>): Option<seq<Byte>> {
    if ds == [] then Some([])
    else
      var before := Join(v, ds[..|ds| - 1]);
      var name := v.name(ds[|ds| - 1]);
      if before.None? || |before.value| > 255 || !GoodName(name) then None
      else Some(before.value + [SLASH] + name.value)
  }

  lemma {:induction false} JoinIsBounded(v: Vfs, ds: seq<int>)
    ensures Join(v, ds).Some? ==> |Join(v, ds).value| <= 511
    decreases |ds|
  {
    if ds != [] { JoinIsBounded(v, ds[..|ds| - 1]); }
  }

  /** The bytes of the path with its terminator; the root itself is a single slash. */
  function PathBytes(v: Vfs, d: int, mnt: int): Option<seq<Byte>> {
    var ds := Ascend(v, d, mnt, DENTRY_MAX);
    if ds.None? then None
    else
      var joined := Join(v, ds.value);
      if joined.None? then None
      else Some((if joined.value == [] then [SLASH] else joined.value) + [0])
  }

  /** A joined path is the concatenation of its names, each after one slash. */
  lemma {:induction false} JoinMeaning(v: Vfs, ds: seq<int>, i: nat)
    requires Join(v, ds).Some? && i < |ds|
    ensures GoodName(v.name(ds[i]))
    ensures Join(v, ds[..i]).Some? && Join(v, ds[..i + 1]).Some?
    ensures Join(v, ds[..i + 1]).value == Join(v, ds[..i]).value + [SLASH] + v.name(ds[i]).value
    ensures Join(v, ds[..i + 1]).value <= Join(v, ds).value
    decreases |ds|
  {
    var front := ds[..|ds| - 1];
    if i < |ds| - 1 {
      JoinMeaning(v, front, i);
      assert front[..i] == ds[..i] && front[..i + 1] == ds[..i + 1];
    } else {
      assert ds[..i] == front && ds[..i + 1] == ds;
      assert front + [ds[i]] == ds;
    }
  }

  /** append_dentry_name_direct: slash, then the name, at the running length */
  method AppendName(buf: array<Byte>, off: nat, length: nat, v: Vfs, d: int) returns (ok: bool, newLength: nat)
    requires off + DIRECT_MAX <= buf.Length && length <= 511
    modifies buf
    ensures ok <==> GoodName(v.name(d)) && length <= 255
    ensures ok ==> newLength == length + 1 + |v.name(d).value| <= 511
    ensures ok ==> buf[off..off + newLength] == old(buf[off..off + length]) + [SLASH] + v.name(d).value
    ensures OnlyWithin(buf, off, off + DIRECT_MAX)
  {
    newLength := length;
    var name := v.name(d);
    if name.None? || |name.value| == 0 || |name.value| > 255 || length > 255 {
      return false, length;
    }
    ghost var was := buf[off..off + length];
    buf[off + length] := SLASH;
    Write(buf, off + length + 1, name.value);
    newLength := length + 1 + |name.value|;
    assert buf[off..off + newLength] ==
        buf[off..off + length] + [buf[off + length]] + buf[off + length + 1..off + newLength];
    assert buf[off..off + length] == was;
    return true, newLength;
  }

  /** The first loop: collect the components, leaf first. The array is never indexed past its
      eighth slot. */
  method CollectComponents(components: array<int>, v: Vfs, start: int, startMnt: int)
      returns (reached: bool, count: nat)
    requires components.Length == DENTRY_MAX
    modifies components
    ensures reached <==> Ascend(v, start, startMnt, DENTRY_MAX).Some?
    ensures count <= DENTRY_MAX
    ensures reached ==> LeafFirst(components[..count], Ascend(v, start, startMnt, DENTRY_MAX).value)
  {
    ghost var goal := Ascend(v, start, startMnt, DENTRY_MAX);
    var dentry, mnt := start, startMnt;
    var root := RootOf(v, mnt);
    count, reached := 0, false;
    var i := 0;
    ghost var below: seq<int> := [];
    PrependNothing(goal);
    while i < DENTRY_MAX
      invariant 0 <= i <= DENTRY_MAX && count <= i && root == RootOf(v, mnt) && !reached
      invariant LeafFirst(components[..count], below)
      invariant goal == Prepend(Ascend(v, dentry, mnt, DENTRY_MAX - i), below)
      decreases DENTRY_MAX - i
    {
      if dentry == 0 {
        break;
      }
      if dentry == root {
        var parent := v.mountParent(mnt);
        if parent == 0 || parent == mnt {
          reached := true;
          break;
        }
        dentry := v.mountPoint(mnt);
        mnt := parent;
        root := RootOf(v, mnt);
        i := i + 1;
        continue;
      }
      ghost var before := components[..count];
      components[count] := dentry;
      count := count + 1;
      assert components[..count] == before + [dentry];
      var parent := v.parent(dentry);
      if parent == 0 || parent == dentry {
        break;
      }
      PrependStep(Ascend(v, parent, mnt, DENTRY_MAX - i - 1), dentry, below);
      below := [dentry] + below;
      dentry := parent;
      i := i + 1;
    }
    if reached { assert goal == Some([] + below) && [] + below == below; }
  }

  /** The same dentries in opposite orders. */
  ghost predicate LeafFirst(s: seq<int>, rootFirst: seq<int>) {
    |s| == |rootFirst| && forall i :: 0 <= i < |s| ==> s[i] == rootFirst[|s| - 1 - i]
  }

  ghost function Prepend(above: Option<seq<int>>, below: seq<int>): Option<seq<int>> {
    if above.None? then None else Some(above.value + below)
  }

  lemma PrependNothing(above: Option<seq<int>>)
    ensures Prepend(above, []) == above
  {
    if above.Some? { assert above.value + [] == above.value; }
  }

  lemma PrependStep(above: Option<seq<int>>, d: int, below: seq<int>)
    ensures Prepend(if above.None? then None else Some(above.value + [d]), below) == Prepend(above, [d] + below)
  {
    if above.Some? { assert above.value + [d] + below == above.value + ([d] + below); }
  }

  /** read_dentry_path_direct: it succeeds exactly when the global root is met within eight looks
      and every name fits; the bytes written are then the path with its terminator, and no byte
      outside the 512 reserved for it is touched. */
  method ReadDentryPath(buf: array<Byte>, off: nat, components: array<int>, v: Vfs, dentry: int, mnt: int)
      returns (ret: int)
    requires off + DIRECT_MAX <= buf.Length && components.Length == DENTRY_MAX && buf as object != components
    modifies buf, components
    ensures ret > 0 <==> PathBytes(v, dentry, mnt).Some?
    ensures ret <= 0 ==> ret == PATH_FAILED
    ensures ret > 0 ==> ret <= DIRECT_MAX && buf[off..off + ret] == PathBytes(v, dentry, mnt).value
    ensures OnlyWithin(buf, off, off + DIRECT_MAX)
  {
    hide Ascend;
    var reached, count := CollectComponents(components, v, dentry, mnt);
    if !reached {
      return PATH_FAILED;
    }
    ghost var ds := Ascend(v, dentry, mnt, DENTRY_MAX).value;
    var length := 0;
    var i := 0;
    while i < DENTRY_MAX
      invariant 0 <= i <= count && length <= 511 && LeafFirst(components[..count], ds)
      invariant Join(v, ds[..i]).Some? && buf[off..off + length] == Join(v, ds[..i]).value
      invariant OnlyWithin(buf, off, off + DIRECT_MAX)
      decreases DENTRY_MAX - i
    {
      if i >= count {
        break;
      }
      var component := components[count - i - 1];
      assert components[..count][count - i - 1] == ds[i] && ds[..i + 1][..i] == ds[..i];
      var ok, newLength := AppendName(buf, off, length, v, component);
      if !ok {
        JoinFails(v, ds, i);
        return PATH_FAILED;
      }
      length := newLength;
      i := i + 1;
    }
    assert ds[..i] == ds;
    if length == 0 {
      buf[off] := SLASH;
      length := 1;
    }
    ghost var path := buf[off..off + length];
    buf[off + length] := 0;
    assert buf[off..off + length + 1] == path + [0];
    return length + 1;
  }

  lemma {:induction false} JoinFails(v: Vfs, ds: seq<int>, i: nat)
    requires i < |ds| && Join(v, ds[..i]).Some?
    requires !GoodName(v.name(ds[i])) || |Join(v, ds[..i]).value| > 255
    ensures Join(v, ds).None?
  {
    if Join(v, ds).Some? { JoinMeaning(v, ds, i); JoinStepLimit(v, ds, i); }
  }

  lemma JoinStepLimit(v: Vfs, ds: seq<int>, i: nat)
    requires i < |ds| && Join(v, ds[..i + 1]).Some?
    ensures Join(v, ds[..i]).Some? && |Join(v, ds[..i]).value| <= 255
  {
    assert ds[..i + 1][..i] == ds[..i];
  }

  // ----- what the walk means -------------------------------------------------------------

  /** A dentry as seen in a mount. */
  datatype Place = Place(dentry: int, mnt: int)

  predicate AtMountRoot(v: Vfs, p: Place) { p.mnt != 0 && p.dentry == v.rootOf(p.mnt) }

  /** Nothing is above this place: the root of a mount that is mounted nowhere else. */
  predicate OnTop(v: Vfs, p: Place) {
    p.dentry != 0 && AtMountRoot(v, p) && (v.mountParent(p.mnt) == 0 || v.mountParent(p.mnt) == p.mnt)
  }

  /** `q` is directly above `p`: the parent dentry in the same mount, or, from the root of a
      mount, the place in the parent mount that it is mounted on. */
  predicate Above(v: Vfs, p: Place, q: Place) {
    && p.dentry != 0 && !OnTop(v, p)
    && if AtMountRoot(v, p) then q == Place(v.mountPoint(p.mnt), v.mountParent(p.mnt))
       else v.parent(p.dentry) != 0 && v.parent(p.dentry) != p.dentry && q == Place(v.parent(p.dentry), p.mnt)
  }

  /** A climb from the first place of the chain to the top. */
  ghost predicate Climbs(v: Vfs, chain: seq<Place>) {
    && chain != [] && OnTop(v, chain[|chain| - 1])
    && forall i :: 0 <= i < |chain| - 1 ==> Above(v, chain[i], chain[i + 1])
  }

  /** The dentries that name something, root first: all but the roots of mounts. */
  function Named(v: Vfs, chain: seq<Place>): seq<int> {
    if chain == [] then []
    else Named(v, chain[1..]) + if AtMountRoot(v, chain[0]) then [] else [chain[0].dentry]
  }

  /** Any climb that fits the looks is what the walk finds. */
  lemma {:induction false} ClimbIsFound(v: Vfs, chain: seq<Place>, steps: nat)
    requires Climbs(v, chain) && |chain| <= steps
    ensures Ascend(v, chain[0].dentry, chain[0].mnt, steps) == Some(Named(v, chain))
    decreases |chain|
  {
    if |chain| == 1 {
      assert Named(v, chain[1..]) == [];
    } else {
      var p, rest := chain[0], chain[1..];
      assert Above(v, chain[0], chain[1]);
      forall i | 0 <= i < |rest| - 1 ensures Above(v, rest[i], rest[i + 1]) {
        var j := i + 1;
        assert Above(v, chain[j], chain[j + 1]);
      }
      ClimbIsFound(v, rest, steps - 1);
      assert Named(v, rest) + [] == Named(v, rest);
      assert AtMountRoot(v, p) <==> p.dentry == RootOf(v, p.mnt);
    }
  }

  /** And what the walk finds is a climb. */
  lemma {:induction false} FoundIsClimb(v: Vfs, d: int, mnt: int, steps: nat) returns (chain: seq<Place>)
    requires Ascend(v, d, mnt, steps).Some?
    ensures Climbs(v, chain) && |chain| <= steps && chain[0] == Place(d, mnt)
    decreases steps
  {
    var p := Place(d, mnt);
    if IsGlobalRoot(v, d, mnt) {
      chain := [p];
    } else {
      var q := if d == RootOf(v, mnt) then Place(v.mountPoint(mnt), v.mountParent(mnt)) else Place(v.parent(d), mnt);
      var rest := FoundIsClimb(v, q.dentry, q.mnt, steps - 1);
      chain := [p] + rest;
      assert Above(v, chain[0], chain[1]);
      forall i | 0 <= i < |chain| - 1 ensures Above(v, chain[i], chain[i + 1]) {
        if i > 0 { assert Above(v, rest[i - 1], rest[i]); }
      }
    }
  }

  /** The walk succeeds if and only if the top is at most eight places up, mount crossings
      included, and then finds the named dentries of that climb, root first. */
  lemma AscendIsClimb(v: Vfs, d: int, mnt: int, steps: nat)
    ensures Ascend(v, d, mnt, steps).Some? <==>
      exists chain :: Climbs(v, chain) && |chain| <= steps && chain[0] == Place(d, mnt)
    ensures forall chain :: Climbs(v, chain) && |chain| <= steps && chain[0] == Place(d, mnt) ==>
      Ascend(v, d, mnt, steps) == Some(Named(v, chain))
  {
    if Ascend(v, d, mnt, steps).Some? { var chain := FoundIsClimb(v, d, mnt, steps); }
    forall chain | Climbs(v, chain) && |chain| <= steps && chain[0] == Place(d, mnt)
      ensures Ascend(v, d, mnt, steps) == Some(Named(v, chain))
    {
      ClimbIsFound(v, chain, steps);
    }
  }

  /** Slash and name, one after the other. */
  function Slashed(names: seq<seq<Byte>>): seq<Byte> {
    if names == [] then [] else [SLASH] + names[0] + Slashed(names[1..])
  }

  lemma {:induction false} SlashedSnoc(names: seq<seq<Byte>>, last: seq<Byte>)
    ensures Slashed(names + [last]) == Slashed(names) + [SLASH] + last
  {
    if names == [] {
      assert [last][1..] == [] && [] + [last] == [last];
    } else {
      assert (names + [last])[1..] == names[1..] + [last];
      SlashedSnoc(names[1..], last);
    }
  }

  /** The names of these dentries, all readable and of legal length. */
  ghost predicate NamesOf(v: Vfs, ds: seq<int>, names: seq<seq<Byte>>) {
    |names| == |ds| && forall i :: 0 <= i < |ds| ==> GoodName(v.name(ds[i])) && v.name(ds[i]).value == names[i]
  }

  /** Every name starts within the first 256 bytes. */
  ghost predicate AllStartEarly(names: seq<seq<Byte>>) { forall i :: 0 <= i < |names| ==> |Slashed(names[..i])| <= 255 }

  /** The join exists if and only if all names are legal and start early; it is then exactly
      their concatenation. */
  lemma {:induction false} JoinIsSlashed(v: Vfs, ds: seq<int>, names: seq<seq<Byte>>)
    requires NamesOf(v, ds, names)
    ensures Join(v, ds).Some? <==> AllStartEarly(names)
    ensures Join(v, ds).Some? ==> Join(v, ds).value == Slashed(names)
    decreases |ds|
  {
    if ds != [] {
      var n := |ds| - 1;
      JoinIsSlashed(v, ds[..n], names[..n]);
      SlashedSnoc(names[..n], names[n]);
      assert names[..n] + [names[n]] == names;
      assert forall i :: 0 <= i < n ==> names[..n][..i] == names[..i];
      if AllStartEarly(names) {
        assert |Slashed(names[..n])| <= 255;
      } else if Join(v, ds).Some? {
        assert AllStartEarly(names[..n]);
        forall i | 0 <= i < |names| ensures |Slashed(names[..i])| <= 255 {
          if i < n { assert |Slashed(names[..n][..i])| <= 255; }
        }
      }
    }
  }

  /** The bytes of a path with legal names: the names of the climb behind their slashes, or a
      single slash for the root itself, and the terminator. */
  lemma PathBytesMeaning(v: Vfs, chain: seq<Place>, names: seq<seq<Byte>>)
    requires Climbs(v, chain) && |chain| <= DENTRY_MAX && NamesOf(v, Named(v, chain), names) && AllStartEarly(names)
    ensures PathBytes(v, chain[0].dentry, chain[0].mnt) ==
      Some((if names == [] then [SLASH] else Slashed(names)) + [0])
  {
    ClimbIsFound(v, chain, DENTRY_MAX);
    JoinIsSlashed(v, Named(v, chain), names);
  }
}
