/** The fd path section: what the kernel says about an fd argument, with its state and path. */
module FdPaths {
  import opened Abi
  import opened UserMemory
  import opened Tlv
  import opened DentryWalk
  import opened Captures

  const STATE_PREFIX := 48
  const FD_SECTION_MAX := HEADER_SIZE + STATE_PREFIX + DIRECT_MAX
  const CWD_ARG_INDEX := 0xfffe

  datatype PathRef = PathRef(dentry: int, mnt: int)

  /** What the kernel says about an fd argument: the working directory, no open file, or a file
      with its state snapshot and path, each of which may be unreadable. */
  datatype FdTarget =
    | Cwd(path: Option<PathRef>, error: int)
    | NoFile
    | OpenFile(state: Option<seq<Byte>>, path: Option<PathRef>)

  predicate GoodTarget(t: FdTarget) {
    match t
    case Cwd(_, error) => -0x8000_0000 <= error < 0
    case NoFile => true
    case OpenFile(state, _) => state.Some? ==> |state.value| == STATE_PREFIX
  }

  function EmptyFdSection(argIndex: nat, probe: int): Section {
    Section(Header(KIND_FD_PATH, argIndex, 0, 0, 0, probe, 0), [])
  }

  function PathSectionOf(argIndex: nat, prefix: seq<Byte>, path: seq<Byte>): Section {
    Section(Header(KIND_FD_PATH, argIndex, 0, |path|, |prefix| + |path|, 0, 0), prefix + path)
  }

  /** The section for a target whose path reference could be read. */
  function ResolvedSection(v: Vfs, argIndex: nat, prefix: seq<Byte>, p: PathRef): Section {
    var path := PathBytes(v, p.dentry, p.mnt);
    if path.None? then EmptyFdSection(argIndex, PATH_FAILED)
    else if |path.value| >= DIRECT_MAX then EmptyFdSection(argIndex, |path.value|)
    else PathSectionOf(argIndex, prefix, path.value)
  }

  function FdSection(v: Vfs, argIndex: nat, t: FdTarget): Section {
    match t
    case NoFile => EmptyFdSection(argIndex, EFAULT)
    case Cwd(path, error) =>
      if path.None? then EmptyFdSection(CWD_ARG_INDEX, error) else ResolvedSection(v, CWD_ARG_INDEX, [], path.value)
    case OpenFile(state, path) =>
      if path.None? then EmptyFdSection(argIndex, PATH_FAILED)
      else ResolvedSection(v, argIndex, if state.None? then [] else state.value, path.value)
  }

  lemma PathBytesBounded(v: Vfs, p: PathRef)
    ensures PathBytes(v, p.dentry, p.mnt).Some? ==> 0 < |PathBytes(v, p.dentry, p.mnt).value| <= DIRECT_MAX
  {
    var ds := Ascend(v, p.dentry, p.mnt, DENTRY_MAX);
    if ds.Some? { JoinIsBounded(v, ds.value); }
  }

  /** The section for a path that was written behind its prefix. */
  method SealResolved(
      buf: array<Byte>, off: nat, argIndex: nat, ghost prefix: seq<Byte>, prefixLen: nat, ghost path: seq<Byte>,
          ret: nat)
      returns (size: nat)
    requires prefixLen == |prefix| <= STATE_PREFIX && ret == |path| < DIRECT_MAX && argIndex < 0x1_0000
    requires off + FD_SECTION_MAX <= buf.Length
    requires buf[off + HEADER_SIZE..off + HEADER_SIZE + prefixLen] == prefix
    requires buf[off + HEADER_SIZE + prefixLen..off + HEADER_SIZE + prefixLen + ret] == path
    modifies buf
    ensures Holds(buf, off, size, [PathSectionOf(argIndex, prefix, path)], FD_SECTION_MAX)
  {
    hide EncodeAll, EncodeHeader, Encode;
    var start := off + HEADER_SIZE;
    var dataOff := start + prefixLen;
    assert buf[start..dataOff + ret] == buf[start..dataOff] + buf[dataOff..dataOff + ret];
    size := Seal(buf, off, Header(KIND_FD_PATH, argIndex, 0, ret, prefixLen + ret, 0, 0), prefix + path);
  }

  method CaptureResolved(
      buf: array<Byte>, off: nat, components: array<int>, v: Vfs, argIndex: nat, ghost prefix: seq<Byte>,
          prefixLen: nat, p: PathRef)
      returns (size: nat)
    requires off + FD_SECTION_MAX <= buf.Length && components.Length == DENTRY_MAX && buf as object != components
    requires argIndex < 0x1_0000 && prefixLen == |prefix| <= STATE_PREFIX
    requires buf[off + HEADER_SIZE..off + HEADER_SIZE + prefixLen] == prefix
    modifies buf, components
    ensures Holds(buf, off, size, [ResolvedSection(v, argIndex, prefix, p)], FD_SECTION_MAX)
  {
    hide EncodeAll, EncodeHeader, Encode, PathBytes, PathSectionOf;
    var start := off + HEADER_SIZE;
    var ret := ReadDentryPath(buf, start + prefixLen, components, v, p.dentry, p.mnt);
    PathBytesBounded(v, p);
    if ret <= 0 || ret >= DIRECT_MAX {
      size := Seal(buf, off, Header(KIND_FD_PATH, argIndex, 0, 0, 0, ret, 0), []);
      return;
    }
    assert buf[start..start + prefixLen] == prefix;
    size := SealResolved(buf, off, argIndex, prefix, prefixLen, PathBytes(v, p.dentry, p.mnt).value, ret);
  }

  method CaptureFdPath(buf: array<Byte>, off: nat, components: array<int>, v: Vfs, argIndex: nat, t: FdTarget)
      returns (size: nat)
    requires off + FD_SECTION_MAX <= buf.Length && components.Length == DENTRY_MAX && buf as object != components
    requires argIndex < 0x1_0000 && GoodTarget(t)
    modifies buf, components
    ensures Holds(buf, off, size, [FdSection(v, argIndex, t)], FD_SECTION_MAX)
  {
    hide EncodeAll, EncodeHeader, Encode, ResolvedSection;
    match t {
      case NoFile =>
        size := Seal(buf, off, Header(KIND_FD_PATH, argIndex, 0, 0, 0, EFAULT, 0), []);
      case Cwd(path, error) =>
        if path.None? {
          size := Seal(buf, off, Header(KIND_FD_PATH, CWD_ARG_INDEX, 0, 0, 0, error, 0), []);
        } else {
          size := CaptureResolved(buf, off, components, v, CWD_ARG_INDEX, [], 0, path.value);
        }
      case OpenFile(state, path) =>
        var prefixLen := 0;
        if state.Some? {
          Write(buf, off + HEADER_SIZE, state.value);
          prefixLen := STATE_PREFIX;
        }
        if path.None? {
          size := Seal(buf, off, Header(KIND_FD_PATH, argIndex, 0, 0, 0, PATH_FAILED, 0), []);
        } else {
          size := CaptureResolved(buf, off, components, v, argIndex, if state.None? then [] else state.value, prefixLen,
              path.value);
        }
    }
  }

  /** A section with a path holds the state first and the path behind it; one without says why. */
  lemma FdSectionMeaning(v: Vfs, argIndex: nat, t: FdTarget)
    requires GoodTarget(t)
    ensures var s := FdSection(v, argIndex, t);
      var prefix := if t.OpenFile? && t.state.Some? then 48 else 0;
      && s.h.kind == KIND_FD_PATH && s.h.argIndex == (if t.Cwd? then 0xfffe else argIndex)
      && (t.NoFile? ==> s.h.probe == EFAULT && s.data == [])
      && (t.Cwd? && t.path.None? ==> s.h.probe == t.error && s.data == [])
      && (t.OpenFile? && t.path.None? ==> s.h.probe == PATH_FAILED && s.data == [])
      && (!t.NoFile? && t.path.Some? ==>
            var path := PathBytes(v, t.path.value.dentry, t.path.value.mnt);
            && (path.None? ==> s.h.probe == PATH_FAILED && s.data == [])
            && (path.Some? && |path.value| < 512 ==>
                  && s.h.probe == 0 && |s.data| == prefix + |path.value|
                  && s.data[prefix..] == path.value && (prefix > 0 ==> s.data[..prefix] == t.state.value)))
  {
    hide PathBytes;
  }
}
