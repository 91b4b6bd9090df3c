/** The mount_setattr payload: an fd path, a two-chunk path, and the attribute structure with
    its extension, at running offsets in a reservation whose capacity is tight. */
module MountSetattr {
  import opened Abi
  import opened UserMemory
  import opened Tlv
  import opened PathRead
  import opened DentryWalk
  import opened Captures
  import opened FdPaths

  // ----- the path -----------------------------------------------------------------------

  ghost function PathSection(mem: ByteMemory, argIndex: nat, ptr: U64): Section {
    var c := CapturedPath(mem, ptr);
    Section(Header(KIND_STRING, argIndex, 0, |c.bytes|, |c.bytes|, ProbeOf(ptr, c), ptr), c.bytes)
  }

  method CapturePathSection(buf: array<Byte>, off: nat, mem: ByteMemory, argIndex: nat, ptr: U64)
      returns (size: nat, truncated: bool)
    requires off + HEADER_SIZE + PATH_MAX <= buf.Length && argIndex < 0x1_0000
    modifies buf
    ensures Holds(buf, off, size, [PathSection(mem, argIndex, ptr)], HEADER_SIZE + PATH_MAX)
    ensures truncated == CapturedPath(mem, ptr).truncated
  {
    var copied, probe;
    copied, probe, truncated := CapturePath(buf, off + HEADER_SIZE, mem, ptr);
    size := Seal(buf, off, Header(KIND_STRING, argIndex, 0, copied, copied, probe, ptr), CapturedPath(mem, ptr).bytes);
  }

  // ----- mount_setattr -------------------------------------------------------------------

  const ATTR_BASE := 32
  const ATTR_EXTENSION_MAX := 256
  const MOUNT_SETATTR_CAPACITY := FD_SECTION_MAX + 3 * HEADER_SIZE + PATH_MAX + ATTR_BASE + ATTR_EXTENSION_MAX

  ghost function AttrBaseSections(mem: ByteMemory, ptr: U64, rawSize: U64): seq<Section> {
    if rawSize < ATTR_BASE then []
    else [RegionSection(mem, Header(KIND_STRUCT, 3, 0, ATTR_BASE, ATTR_BASE, 0, ptr), ptr, ATTR_BASE)]
  }

  /** The extension starts 32 bytes in; a null base or a pointer that wraps counts as null. */
  function ExtensionPtr(ptr: U64): U64 {
    if ptr == 0 then 0 else (ptr + ATTR_BASE) % 0x1_0000_0000_0000_0000
  }

  function ExtensionHeader(ptr: U64, rawSize: U64): Header
    requires rawSize > ATTR_BASE
  {
    var len := rawSize - ATTR_BASE;
    Header(KIND_BYTES, 3, 0, ClampU32(len), CopyLen(len, ATTR_EXTENSION_MAX), 0, ExtensionPtr(ptr))
  }

  ghost function AttrExtensionSections(mem: ByteMemory, ptr: U64, rawSize: U64): seq<Section> {
    if rawSize <= ATTR_BASE then []
    else
      var h := ExtensionHeader(ptr, rawSize);
      if ptr == 0 || ExtensionPtr(ptr) < ptr then [Section(h.(copiedLen := 0, probe := -1), [])]
      else [RegionSection(mem, h, ExtensionPtr(ptr), h.copiedLen)]
  }

  method CaptureAttrBase(buf: array<Byte>, off: nat, mem: ByteMemory, ptr: U64, rawSize: U64) returns (size: nat)
    requires off + HEADER_SIZE + ATTR_BASE <= buf.Length
    modifies buf
    ensures Holds(buf, off, size, AttrBaseSections(mem, ptr, rawSize), HEADER_SIZE + ATTR_BASE)
  {
    if rawSize < ATTR_BASE {
      return 0;
    }
    size := CaptureRegion(buf, off, mem, Header(KIND_STRUCT, 3, 0, ATTR_BASE, ATTR_BASE, 0, ptr), ptr, ATTR_BASE);
  }

  method CaptureAttrExtension(buf: array<Byte>, off: nat, mem: ByteMemory, ptr: U64, rawSize: U64)
      returns (size: nat, truncated: bool)
    requires off + HEADER_SIZE + ATTR_EXTENSION_MAX <= buf.Length
    modifies buf
    ensures Holds(buf, off, size, AttrExtensionSections(mem, ptr, rawSize), HEADER_SIZE + ATTR_EXTENSION_MAX)
    ensures truncated <==> AttrTruncated(mem, ptr, rawSize)
  {
    if rawSize <= ATTR_BASE {
      return 0, false;
    }
    var h := ExtensionHeader(ptr, rawSize);
    if ptr == 0 || ExtensionPtr(ptr) < ptr {
      size := Seal(buf, off, h.(copiedLen := 0, probe := -1), []);
      return size, false;
    }
    size := CaptureRegion(buf, off, mem, h, ExtensionPtr(ptr), h.copiedLen);
    truncated := size == HEADER_SIZE + h.copiedLen && h.copiedLen < h.userLen;
  }

  /** The extension was captured but not all of it. */
  ghost predicate AttrTruncated(mem: ByteMemory, ptr: U64, rawSize: U64) {
    && rawSize - ATTR_BASE > ATTR_EXTENSION_MAX
    && ptr != 0 && ExtensionPtr(ptr) > ptr && Readable(mem, ExtensionPtr(ptr), ATTR_EXTENSION_MAX)
  }

  method CaptureAttrs(buf: array<Byte>, off: nat, mem: ByteMemory, attr: U64, attrSize: U64)
      returns (size: nat, truncated: bool)
    requires off + 2 * HEADER_SIZE + ATTR_BASE + ATTR_EXTENSION_MAX <= buf.Length
    modifies buf
    ensures Holds(buf, off, size, AttrBaseSections(mem, attr, attrSize) + AttrExtensionSections(mem, attr, attrSize),
                  2 * HEADER_SIZE + ATTR_BASE + ATTR_EXTENSION_MAX)
    ensures truncated <==> AttrTruncated(mem, attr, attrSize)
  {
    hide EncodeAll, EncodeHeader, Encode, GoodSections, AttrBaseSections, AttrExtensionSections, AttrTruncated;
    size := CaptureAttrBase(buf, off, mem, attr, attrSize);
    ghost var was := buf[..];
    var more;
    more, truncated := CaptureAttrExtension(buf, off + size, mem, attr, attrSize);
    Follow(was, buf[..], off, size, AttrBaseSections(mem, attr, attrSize), more,
        AttrExtensionSections(mem, attr, attrSize));
    size := size + more;
  }

  ghost function FdSections(v: Vfs, fdState: bool, t: FdTarget): seq<Section> {
    if fdState then [FdSection(v, 0, t)] else []
  }

  /** The fd path is captured only when fd state is on. */
  method CaptureFdSections(buf: array<Byte>, off: nat, components: array<int>, v: Vfs, fdState: bool, t: FdTarget)
      returns (size: nat)
    requires off + FD_SECTION_MAX <= buf.Length && components.Length == DENTRY_MAX && buf as object != components
    requires GoodTarget(t)
    modifies buf, components
    ensures Holds(buf, off, size, FdSections(v, fdState, t), FD_SECTION_MAX)
  {
    hide EncodeAll, EncodeHeader, Encode, GoodSections, FdSection;
    if !fdState {
      EncodeNone();
      return 0;
    }
    size := CaptureFdPath(buf, off, components, v, 0, t);
  }

  method CaptureFdAndPath(
      buf: array<Byte>, off: nat, components: array<int>, mem: ByteMemory, v: Vfs, fdState: bool, t: FdTarget,
      path: U64)
      returns (size: nat)
    requires off + FD_SECTION_MAX + HEADER_SIZE + PATH_MAX <= buf.Length && components.Length == DENTRY_MAX
    requires buf as object != components
    requires GoodTarget(t)
    modifies buf, components
    ensures Holds(buf, off, size, FdSections(v, fdState, t) + [PathSection(mem, 1, path)], FD_SECTION_MAX +
      HEADER_SIZE + PATH_MAX)
  {
    hide EncodeAll, EncodeHeader, Encode, GoodSections, PathSection, FdSections, CapturedPath, GoodTarget;
    size := CaptureFdSections(buf, off, components, v, fdState, t);
    ghost var was := buf[..];
    var more, _ := CapturePathSection(buf, off + size, mem, 1, path);
    Follow(was, buf[..], off, size, FdSections(v, fdState, t), more, [PathSection(mem, 1, path)]);
    size := size + more;
  }

  ghost function MountSetattrSections(
      mem: ByteMemory, v: Vfs, fdState: bool, t: FdTarget, path: U64, attr: U64, attrSize: U64): seq<Section> {
    (FdSections(v, fdState, t) + [PathSection(mem, 1, path)]) +
    (AttrBaseSections(mem, attr, attrSize) + AttrExtensionSections(mem, attr, attrSize))
  }

  /** The whole mount_setattr payload fits its reservation, whose capacity is tight, for every
      memory and fault pattern; a walk over the captured length recovers its sections. */
  method CaptureMountSetattr(
      buf: array<Byte>, off: nat, components: array<int>, mem: ByteMemory, v: Vfs,
      fdState: bool, t: FdTarget, path: U64, attr: U64, attrSize: U64) returns (size: nat, truncated: bool)
    requires off + MOUNT_SETATTR_CAPACITY <= buf.Length && components.Length == DENTRY_MAX
    requires buf as object != components
    requires GoodTarget(t)
    modifies buf, components
    ensures Holds(buf, off, size, MountSetattrSections(mem, v, fdState, t, path, attr, attrSize),
      MOUNT_SETATTR_CAPACITY)
    ensures Walk(buf[off..off + size]) == Some(MountSetattrSections(mem, v, fdState, t, path, attr, attrSize))
    ensures truncated <==> AttrTruncated(mem, attr, attrSize)
  {
    hide EncodeAll, EncodeHeader, Encode, Walk, FdSections, AttrBaseSections, AttrExtensionSections, PathSection,
        AttrTruncated;
    size := CaptureFdAndPath(buf, off, components, mem, v, fdState, t, path);
    ghost var was := buf[..];
    var more;
    more, truncated := CaptureAttrs(buf, off + size, mem, attr, attrSize);
    Follow(was, buf[..], off, size, FdSections(v, fdState, t) + [PathSection(mem, 1, path)],
           more, AttrBaseSections(mem, attr, attrSize) + AttrExtensionSections(mem, attr, attrSize));
    size := size + more;
    WalkRecovers(MountSetattrSections(mem, v, fdState, t, path, attr, attrSize));
  }

  /** The path section names argument 1, the attribute sections argument 3; the base holds the
      first 32 bytes of the structure and the extension the ones behind them. */
  lemma MountSetattrMeaning(mem: ByteMemory, attr: U64, attrSize: U64, path: U64)
    ensures var s := PathSection(mem, 1, path); s.h.argIndex == 1 && s.h.userPtr == path && s.h.userLen == |s.data|
    ensures forall s :: s in AttrBaseSections(mem, attr, attrSize) ==>
      && s.h.argIndex == 3 && s.h.userPtr == attr && |s.data| <= 32
      && forall i :: 0 <= i < |s.data| ==> At(mem, attr, i) == Some(s.data[i])
    ensures forall s :: s in AttrExtensionSections(mem, attr, attrSize) && s.h.probe == 0 ==>
      && s.h.argIndex == 3 && s.h.userPtr == attr + 32 && |s.data| <= 256
      && (|s.data| == attrSize - 32 || |s.data| == 256)
      && forall i :: 0 <= i < |s.data| ==> At(mem, attr, 32 + i) == Some(s.data[i])
  {
    hide CapturedPath;
    if attrSize > ATTR_BASE && attr != 0 && ExtensionPtr(attr) >= attr {
      var extension := attr + 32;
      assert ExtensionPtr(attr) == extension;
      assert forall i :: At(mem, extension, i) == At(mem, attr, 32 + i);
    }
  }
}
