/** The select and pselect6 payload: three fd_sets, the timeout and the two-level signal mask. */
module SelectPayload {
  import opened Abi
  import opened UserMemory
  import opened Tlv
  import opened Captures
  import Collectors

  const FDSET_MAX := HEADER_SIZE + Collectors.SCAN_BYTES
  const TIMEOUT_SIZE := 16
  const WRAPPER_SIZE := 16
  const SIGMASK_SIZE := 8
  const BASE_CAPACITY := 3 * FDSET_MAX + HEADER_SIZE + TIMEOUT_SIZE
  const SIGMASK_CAPACITY := HEADER_SIZE + WRAPPER_SIZE + HEADER_SIZE + SIGMASK_SIZE

  /** select_direct_payload_capacity; only pselect6 has a mask */
  function Capacity(pselect6: bool): nat { if pselect6 then BASE_CAPACITY + SIGMASK_CAPACITY else BASE_CAPACITY }

  /** The fixed-size read that covers `len` bytes. */
  function ReadWidth(len: nat): nat {
    if len <= 8 then len else if len <= 16 then 16 else if len <= 32 then 32 else if len <= 64 then 64 else 128
  }

  ghost function FdsetSections(mem: ByteMemory, argIndex: nat, flags: nat, nfds: U64, ptr: U64): seq<Section> {
    var len := Collectors.FdsetLen(nfds);
    if len == 0 || ptr == 0 then []
    else [RegionSection(mem, Header(KIND_BYTES, argIndex, flags, len, len, 0, ptr), ptr, ReadWidth(len))]
  }

  method CaptureFdset(buf: array<Byte>, off: nat, mem: ByteMemory, argIndex: nat, flags: nat, nfds: U64, ptr: U64)
      returns (size: nat)
    requires off + FDSET_MAX <= buf.Length && argIndex < 0x1_0000 && flags < 0x1_0000
    modifies buf
    ensures Holds(buf, off, size, FdsetSections(mem, argIndex, flags, nfds, ptr), FDSET_MAX)
  {
    hide EncodeAll, EncodeHeader, Encode;
    var len := Collectors.FdsetLen(nfds);
    if len == 0 || ptr == 0 {
      EncodeNone();
      return 0;
    }
    size := CaptureRegion(buf, off, mem, Header(KIND_BYTES, argIndex, flags, len, len, 0, ptr), ptr, ReadWidth(len));
  }

  ghost function TwoFdsets(mem: ByteMemory, flags: nat, nfds: U64, readPtr: U64, writePtr: U64): seq<Section> {
    FdsetSections(mem, 1, flags, nfds, readPtr) + FdsetSections(mem, 2, flags, nfds, writePtr)
  }

  ghost function ThreeFdsets(
      mem: ByteMemory, flags: nat, nfds: U64, readPtr: U64, writePtr: U64, exceptPtr: U64): seq<Section> {
    TwoFdsets(mem, flags, nfds, readPtr, writePtr) + FdsetSections(mem, 3, flags, nfds, exceptPtr)
  }

  method CaptureTwoFdsets(
      buf: array<Byte>, off: nat, mem: ByteMemory, flags: nat, nfds: U64, readPtr: U64, writePtr: U64)
      returns (size: nat)
    requires off + 2 * FDSET_MAX <= buf.Length && flags < 0x1_0000
    modifies buf
    ensures Holds(buf, off, size, TwoFdsets(mem, flags, nfds, readPtr, writePtr), 2 * FDSET_MAX)
  {
    hide EncodeAll, EncodeHeader, Encode, GoodSections, FdsetSections;
    size := CaptureFdset(buf, off, mem, 1, flags, nfds, readPtr);
    ghost var was := buf[..];
    var more := CaptureFdset(buf, off + size, mem, 2, flags, nfds, writePtr);
    Follow(was, buf[..], off, size, FdsetSections(mem, 1, flags, nfds, readPtr), more,
        FdsetSections(mem, 2, flags, nfds, writePtr));
    size := size + more;
  }

  method CaptureFdsets(
      buf: array<Byte>, off: nat, mem: ByteMemory, flags: nat, nfds: U64, readPtr: U64, writePtr: U64, exceptPtr: U64)
      returns (size: nat)
    requires off + 3 * FDSET_MAX <= buf.Length && flags < 0x1_0000
    modifies buf
    ensures Holds(buf, off, size, ThreeFdsets(mem, flags, nfds, readPtr, writePtr, exceptPtr), 3 * FDSET_MAX)
  {
    hide EncodeAll, EncodeHeader, Encode, GoodSections, FdsetSections, TwoFdsets;
    size := CaptureTwoFdsets(buf, off, mem, flags, nfds, readPtr, writePtr);
    ghost var was := buf[..];
    var more := CaptureFdset(buf, off + size, mem, 3, flags, nfds, exceptPtr);
    Follow(was, buf[..], off, size, TwoFdsets(mem, flags, nfds, readPtr, writePtr), more,
        FdsetSections(mem, 3, flags, nfds, exceptPtr));
    size := size + more;
  }

  ghost function TimeoutSections(mem: ByteMemory, flags: nat, ptr: U64): seq<Section> {
    if ptr == 0 then [] else [RegionSection(mem, Header(KIND_STRUCT, 4, flags, TIMEOUT_SIZE, TIMEOUT_SIZE, 0, ptr), ptr,
        TIMEOUT_SIZE)]
  }

  method CaptureTimeout(buf: array<Byte>, off: nat, mem: ByteMemory, flags: nat, ptr: U64) returns (size: nat)
    requires off + HEADER_SIZE + TIMEOUT_SIZE <= buf.Length && flags < 0x1_0000
    modifies buf
    ensures Holds(buf, off, size, TimeoutSections(mem, flags, ptr), HEADER_SIZE + TIMEOUT_SIZE)
  {
    hide EncodeAll, EncodeHeader, Encode;
    if ptr == 0 {
      EncodeNone();
      return 0;
    }
    size := CaptureRegion(buf, off, mem, Header(KIND_STRUCT, 4, flags, TIMEOUT_SIZE, TIMEOUT_SIZE, 0, ptr), ptr,
        TIMEOUT_SIZE);
  }

  // ----- the signal mask -----------------------------------------------------------------

  /** The sixth argument points at a pointer and a size. */
  datatype Wrapper = Wrapper(maskPtr: U64, maskSize: U64)

  ghost function WrapperAt(mem: ByteMemory, ptr: U64): Wrapper {
    if ptr == 0 || !Readable(mem, ptr, WRAPPER_SIZE) then Wrapper(0, 0)
    else WordOf(Raw(mem, ptr, WRAPPER_SIZE))
  }

  function WordOf(bytes: seq<Byte>): Wrapper
    requires |bytes| == WRAPPER_SIZE
  {
    FromLeBounded(bytes[..8]);
    FromLeBounded(bytes[8..]);
    Wrapper(FromLe(bytes[..8]), FromLe(bytes[8..]))
  }

  ghost function WrapperSections(mem: ByteMemory, flags: nat, ptr: U64): seq<Section> {
    if ptr == 0 then [] else [RegionSection(mem, Header(KIND_STRUCT, 5, flags, WRAPPER_SIZE, WRAPPER_SIZE, 0, ptr), ptr,
        WRAPPER_SIZE)]
  }

  ghost function MaskSections(mem: ByteMemory, flags: nat, w: Wrapper): seq<Section> {
    if w.maskPtr == 0 || w.maskSize == 0 then []
    else
      var h := Header(KIND_STRUCT, 6, flags, ClampU32(w.maskSize), CopyLen(w.maskSize, SIGMASK_SIZE), 0, w.maskPtr);
      [RegionSection(mem, h, w.maskPtr, h.copiedLen)]
  }

  /** The wrapper is read into a local and copied to the payload; a fault leaves the zeroed
      local, so no mask is followed. */
  method CaptureWrapper(buf: array<Byte>, off: nat, mem: ByteMemory, flags: nat, ptr: U64)
      returns (size: nat, w: Wrapper)
    requires off + HEADER_SIZE + WRAPPER_SIZE <= buf.Length && flags < 0x1_0000
    modifies buf
    ensures Holds(buf, off, size, WrapperSections(mem, flags, ptr), HEADER_SIZE + WRAPPER_SIZE)
    ensures w == WrapperAt(mem, ptr)
  {
    hide EncodeAll, EncodeHeader, Encode, FromLe;
    if ptr == 0 {
      EncodeNone();
      return 0, Wrapper(0, 0);
    }
    var local := new Byte[WRAPPER_SIZE];
    var ok := ReadUser(local, 0, mem, ptr, WRAPPER_SIZE);
    assert local[..] == local[0..0 + WRAPPER_SIZE];
    var h := Header(KIND_STRUCT, 5, flags, WRAPPER_SIZE, WRAPPER_SIZE, 0, ptr);
    if !ok {
      size := Seal(buf, off, h.(copiedLen := 0, probe := EFAULT), []);
      return size, Wrapper(0, 0);
    }
    Write(buf, off + HEADER_SIZE, local[..]);
    size := Seal(buf, off, h, local[..]);
    w := WordOf(local[..]);
    assert Raw(mem, ptr, WRAPPER_SIZE)[..WRAPPER_SIZE] == Raw(mem, ptr, WRAPPER_SIZE);
  }

  method CaptureMask(buf: array<Byte>, off: nat, mem: ByteMemory, flags: nat, w: Wrapper) returns (size: nat)
    requires off + HEADER_SIZE + SIGMASK_SIZE <= buf.Length && flags < 0x1_0000
    modifies buf
    ensures Holds(buf, off, size, MaskSections(mem, flags, w), HEADER_SIZE + SIGMASK_SIZE)
  {
    hide EncodeAll, EncodeHeader, Encode;
    if w.maskPtr == 0 || w.maskSize == 0 {
      EncodeNone();
      return 0;
    }
    var h := Header(KIND_STRUCT, 6, flags, ClampU32(w.maskSize), CopyLen(w.maskSize, SIGMASK_SIZE), 0, w.maskPtr);
    size := CaptureRegion(buf, off, mem, h, w.maskPtr, h.copiedLen);
  }

  ghost function SigmaskSections(mem: ByteMemory, flags: nat, ptr: U64): seq<Section> {
    WrapperSections(mem, flags, ptr) + MaskSections(mem, flags, WrapperAt(mem, ptr))
  }

  method CaptureSigmask(buf: array<Byte>, off: nat, mem: ByteMemory, flags: nat, ptr: U64) returns (size: nat)
    requires off + SIGMASK_CAPACITY <= buf.Length && flags < 0x1_0000
    modifies buf
    ensures Holds(buf, off, size, SigmaskSections(mem, flags, ptr), SIGMASK_CAPACITY)
  {
    hide EncodeAll, EncodeHeader, Encode, GoodSections, WrapperSections, MaskSections, WrapperAt;
    var w;
    size, w := CaptureWrapper(buf, off, mem, flags, ptr);
    ghost var was := buf[..];
    var more := CaptureMask(buf, off + size, mem, flags, w);
    Follow(was, buf[..], off, size, WrapperSections(mem, flags, ptr), more, MaskSections(mem, flags, w));
    size := size + more;
  }

  // ----- the whole payload ---------------------------------------------------------------

  /** capture_policy: which parts this edge captures. Enter takes all there are; exit takes the
      timeout, and the sets when some fd is ready. */
  datatype Policy = Policy(fdsets: bool, timeout: bool, sigmask: bool)

  function EnterPolicy(pselect6: bool): Policy { Policy(true, true, pselect6) }

  function ExitPolicy(ret: int): Policy { Policy(ret > 0, true, false) }

  datatype Args = Args(nfds: U64, readPtr: U64, writePtr: U64, exceptPtr: U64, timeout: U64, sigmask: U64)

  ghost function FdsetPart(mem: ByteMemory, flags: nat, p: Policy, a: Args): seq<Section> {
    if p.fdsets then ThreeFdsets(mem, flags, a.nfds, a.readPtr, a.writePtr, a.exceptPtr) else []
  }

  ghost function TimeoutPart(mem: ByteMemory, flags: nat, p: Policy, a: Args): seq<Section> {
    if p.timeout then TimeoutSections(mem, flags, a.timeout) else []
  }

  ghost function SigmaskPart(mem: ByteMemory, flags: nat, p: Policy, a: Args): seq<Section> {
    if p.sigmask then SigmaskSections(mem, flags, a.sigmask) else []
  }

  ghost function SelectSections(mem: ByteMemory, flags: nat, p: Policy, a: Args): seq<Section> {
    (FdsetPart(mem, flags, p, a) + TimeoutPart(mem, flags, p, a)) + SigmaskPart(mem, flags, p, a)
  }

  method CaptureFdsetPart(buf: array<Byte>, off: nat, mem: ByteMemory, flags: nat, p: Policy, a: Args)
      returns (size: nat)
    requires off + 3 * FDSET_MAX <= buf.Length && flags < 0x1_0000
    modifies buf
    ensures Holds(buf, off, size, FdsetPart(mem, flags, p, a), 3 * FDSET_MAX)
  {
    hide EncodeAll, EncodeHeader, Encode, GoodSections, ThreeFdsets;
    if !p.fdsets {
      EncodeNone();
      return 0;
    }
    size := CaptureFdsets(buf, off, mem, flags, a.nfds, a.readPtr, a.writePtr, a.exceptPtr);
  }

  method CaptureTimeoutPart(buf: array<Byte>, off: nat, mem: ByteMemory, flags: nat, p: Policy, a: Args)
      returns (size: nat)
    requires off + HEADER_SIZE + TIMEOUT_SIZE <= buf.Length && flags < 0x1_0000
    modifies buf
    ensures Holds(buf, off, size, TimeoutPart(mem, flags, p, a), HEADER_SIZE + TIMEOUT_SIZE)
  {
    hide EncodeAll, EncodeHeader, Encode, GoodSections, TimeoutSections;
    if !p.timeout {
      EncodeNone();
      return 0;
    }
    size := CaptureTimeout(buf, off, mem, flags, a.timeout);
  }

  method CaptureBase(buf: array<Byte>, off: nat, mem: ByteMemory, flags: nat, p: Policy, a: Args) returns (size: nat)
    requires off + BASE_CAPACITY <= buf.Length && flags < 0x1_0000
    modifies buf
    ensures Holds(buf, off, size, FdsetPart(mem, flags, p, a) + TimeoutPart(mem, flags, p, a), BASE_CAPACITY)
  {
    hide EncodeAll, EncodeHeader, Encode, GoodSections, FdsetPart, TimeoutPart;
    size := CaptureFdsetPart(buf, off, mem, flags, p, a);
    ghost var was := buf[..];
    var more := CaptureTimeoutPart(buf, off + size, mem, flags, p, a);
    Follow(was, buf[..], off, size, FdsetPart(mem, flags, p, a), more, TimeoutPart(mem, flags, p, a));
    size := size + more;
  }

  /** For every memory, fault pattern and argument, the payload stays inside the reservation and
      a walk over the captured length recovers its sections in order. */
  method CaptureSelect(buf: array<Byte>, off: nat, mem: ByteMemory, pselect6: bool, flags: nat, p: Policy, a: Args)
      returns (size: nat)
    requires buf.Length == off + Capacity(pselect6) && flags < 0x1_0000
    requires p.sigmask ==> pselect6
    modifies buf
    ensures size <= Capacity(pselect6) && OnlyWithin(buf, off, buf.Length)
    ensures Walk(buf[off..off + size]) == Some(SelectSections(mem, flags, p, a))
  {
    hide EncodeAll, EncodeHeader, Encode, GoodSections, FdsetPart, TimeoutPart, SigmaskSections, Walk;
    size := CaptureBase(buf, off, mem, flags, p, a);
    ghost var base := FdsetPart(mem, flags, p, a) + TimeoutPart(mem, flags, p, a);
    if p.sigmask {
      ghost var was := buf[..];
      var more := CaptureSigmask(buf, off + size, mem, flags, a.sigmask);
      Follow(was, buf[..], off, size, base, more, SigmaskPart(mem, flags, p, a));
      size := size + more;
    } else {
      assert base + [] == base;
    }
    WalkRecovers(SelectSections(mem, flags, p, a));
  }

  /** The payload of the enter event. */
  method CaptureSelectEnter(buf: array<Byte>, off: nat, mem: ByteMemory, pselect6: bool, a: Args) returns (size: nat)
    requires buf.Length == off + Capacity(pselect6)
    modifies buf
    ensures size <= Capacity(pselect6) && OnlyWithin(buf, off, buf.Length)
    ensures Walk(buf[off..off + size]) == Some(SelectSections(mem, 0, EnterPolicy(pselect6), a))
  {
    size := CaptureSelect(buf, off, mem, pselect6, 0, EnterPolicy(pselect6), a);
  }

  /** The payload of the exit event: no mask, and the sets only when some fd is ready. */
  method CaptureSelectExit(buf: array<Byte>, off: nat, mem: ByteMemory, pselect6: bool, ret: int, a: Args)
      returns (size: nat)
    requires buf.Length == off + Capacity(pselect6)
    modifies buf
    ensures size <= Capacity(pselect6) && OnlyWithin(buf, off, buf.Length)
    ensures Walk(buf[off..off + size]) == Some(SelectSections(mem, FLAG_DIRECTION_OUT, ExitPolicy(ret), a))
  {
    size := CaptureSelect(buf, off, mem, pselect6, FLAG_DIRECTION_OUT, ExitPolicy(ret), a);
  }

  // ----- what the payload means ----------------------------------------------------------

  function ArgsOf(ss: seq<Section>): seq<nat> {
    if ss == [] then [] else [ss[0].h.argIndex] + ArgsOf(ss[1..])
  }

  lemma {:induction false} ArgsAppend(a: seq<Section>, b: seq<Section>)
    ensures ArgsOf(a + b) == ArgsOf(a) + ArgsOf(b)
  {
    if a == [] {
      assert a + b == b;
    } else {
      assert (a + b)[1..] == a[1..] + b;
      ArgsAppend(a[1..], b);
    }
  }

  lemma ArgsOfOne(s: Section)
    ensures ArgsOf([s]) == [s.h.argIndex] && ArgsOf([]) == []
  {
    assert [s][1..] == [];
  }

  /** The pointer that argument `i` of the payload stands for; 6 is the mask the wrapper names. */
  ghost function PointerOf(mem: ByteMemory, a: Args, i: nat): int {
    if i == 1 then a.readPtr
    else if i == 2 then a.writePtr
    else if i == 3 then a.exceptPtr
    else if i == 4 then a.timeout
    else if i == 5 then a.sigmask
    else WrapperAt(mem, a.sigmask).maskPtr
  }

  ghost function LengthOf(mem: ByteMemory, a: Args, i: nat): nat {
    if 1 <= i <= 3 then Collectors.FdsetLen(a.nfds)
    else if i == 4 || i == 5 then 16
    else if WrapperAt(mem, a.sigmask).maskSize < 8 then WrapperAt(mem, a.sigmask).maskSize
    else 8
  }

  ghost predicate Present(mem: ByteMemory, p: Policy, a: Args, i: nat) {
    PointerOf(mem, a, i) != 0 && LengthOf(mem, a, i) > 0 &&
    if i <= 3 then p.fdsets else if i == 4 then p.timeout else p.sigmask
  }

  /** A section that holds the bytes of argument `i`, or nothing because of a fault. */
  ghost predicate Stands(mem: ByteMemory, flags: nat, a: Args, s: Section, i: nat) {
    && s.h.argIndex == i && s.h.flags == flags && s.h.userPtr == PointerOf(mem, a, i)
    && s.h.kind == (if i <= 3 then KIND_BYTES else KIND_STRUCT)
    && (s.h.probe == 0 || s.h.probe == EFAULT)
    && |s.data| == (if s.h.probe == 0 then LengthOf(mem, a, i) else 0)
    && forall j :: 0 <= j < |s.data| ==> At(mem, PointerOf(mem, a, i), j) == Some(s.data[j])
  }

  /** At most one section, there exactly if the argument is captured. */
  ghost predicate Part(mem: ByteMemory, flags: nat, p: Policy, a: Args, ss: seq<Section>, i: nat) {
    && |ss| == (if Present(mem, p, a, i) then 1 else 0)
    && (ss != [] ==> Stands(mem, flags, a, ss[0], i))
  }

  lemma FdsetPartMeaning(mem: ByteMemory, flags: nat, p: Policy, a: Args, i: nat, ptr: U64)
    requires 1 <= i <= 3 && ptr == PointerOf(mem, a, i) && p.fdsets
    ensures Part(mem, flags, p, a, FdsetSections(mem, i, flags, a.nfds, ptr), i)
  {
    hide WrapperAt;
  }

  lemma TimeoutPartMeaning(mem: ByteMemory, flags: nat, p: Policy, a: Args)
    requires p.timeout
    ensures Part(mem, flags, p, a, TimeoutSections(mem, flags, a.timeout), 4)
  {
    hide WrapperAt;
  }

  lemma SigmaskPartMeaning(mem: ByteMemory, flags: nat, p: Policy, a: Args)
    requires p.sigmask
    ensures Part(mem, flags, p, a, WrapperSections(mem, flags, a.sigmask), 5)
    ensures Part(mem, flags, p, a, MaskSections(mem, flags, WrapperAt(mem, a.sigmask)), 6)
  {
    hide WrapperAt;
  }

  /** The parts of the payload, in argument order. */
  ghost function SelectParts(mem: ByteMemory, flags: nat, p: Policy, a: Args, i: nat): seq<Section> {
    if i == 1 && p.fdsets then FdsetSections(mem, 1, flags, a.nfds, a.readPtr)
    else if i == 2 && p.fdsets then FdsetSections(mem, 2, flags, a.nfds, a.writePtr)
    else if i == 3 && p.fdsets then FdsetSections(mem, 3, flags, a.nfds, a.exceptPtr)
    else if i == 4 && p.timeout then TimeoutSections(mem, flags, a.timeout)
    else if i == 5 && p.sigmask then WrapperSections(mem, flags, a.sigmask)
    else if i == 6 && p.sigmask then MaskSections(mem, flags, WrapperAt(mem, a.sigmask))
    else []
  }

  lemma PartMeaning(mem: ByteMemory, flags: nat, p: Policy, a: Args, i: nat)
    requires 1 <= i <= 6
    ensures Part(mem, flags, p, a, SelectParts(mem, flags, p, a, i), i)
    ensures ArgsOf(SelectParts(mem, flags, p, a, i)) == if Present(mem, p, a, i) then [i] else []
  {
    hide FdsetSections, TimeoutSections, WrapperSections, MaskSections, WrapperAt;
    if i <= 3 && p.fdsets {
      FdsetPartMeaning(mem, flags, p, a, i, PointerOf(mem, a, i));
    } else if i == 4 && p.timeout {
      TimeoutPartMeaning(mem, flags, p, a);
    } else if i >= 5 && p.sigmask {
      SigmaskPartMeaning(mem, flags, p, a);
    }
    var ss := SelectParts(mem, flags, p, a, i);
    if ss != [] {
      ArgsOfOne(ss[0]);
      assert ss == [ss[0]];
    }
  }

  lemma SelectIsItsParts(mem: ByteMemory, flags: nat, p: Policy, a: Args)
    ensures SelectSections(mem, flags, p, a) ==
      SelectParts(mem, flags, p, a, 1) + SelectParts(mem, flags, p, a, 2) + SelectParts(mem, flags, p, a, 3) +
      SelectParts(mem, flags, p, a, 4) + SelectParts(mem, flags, p, a, 5) + SelectParts(mem, flags, p, a, 6)
  {
    hide FdsetSections, TimeoutSections, WrapperSections, MaskSections, WrapperAt;
  }

  /** The payload of select and pselect6: one section for each argument that is captured, in
      argument order, and each holds the bytes behind that very argument's pointer. */
  lemma SelectPayloadMeaning(mem: ByteMemory, flags: nat, p: Policy, a: Args)
    ensures ArgsOf(SelectSections(mem, flags, p, a)) ==
      (if Present(mem, p, a, 1) then [1] else []) + (if Present(mem, p, a, 2) then [2] else []) +
      (if Present(mem, p, a, 3) then [3] else []) + (if Present(mem, p, a, 4) then [4] else []) +
      (if Present(mem, p, a, 5) then [5] else []) + (if Present(mem, p, a, 6) then [6] else [])
    ensures forall s :: s in SelectSections(mem, flags, p, a) ==> Stands(mem, flags, a, s, s.h.argIndex)
  {
    hide SelectSections, SelectParts, Present, ArgsOf, Stands;
    SelectIsItsParts(mem, flags, p, a);
    var one, two := SelectParts(mem, flags, p, a, 1), SelectParts(mem, flags, p, a, 2);
    var three, four := SelectParts(mem, flags, p, a, 3), SelectParts(mem, flags, p, a, 4);
    var five, six := SelectParts(mem, flags, p, a, 5), SelectParts(mem, flags, p, a, 6);
    ArgsAppend(one, two);
    ArgsAppend(one + two, three);
    ArgsAppend(one + two + three, four);
    ArgsAppend(one + two + three + four, five);
    ArgsAppend(one + two + three + four + five, six);
    forall i | 1 <= i <= 6
      ensures ArgsOf(SelectParts(mem, flags, p, a, i)) == if Present(mem, p, a, i) then [i] else []
    {
      PartMeaning(mem, flags, p, a, i);
    }
    forall s | s in SelectSections(mem, flags, p, a) ensures Stands(mem, flags, a, s, s.h.argIndex) {
      var i: nat :| 1 <= i <= 6 && s in SelectParts(mem, flags, p, a, i);
      PartMeaning(mem, flags, p, a, i);
      StandsByIndex(mem, flags, a, s, i);
    }
  }

  lemma StandsByIndex(mem: ByteMemory, flags: nat, a: Args, s: Section, i: nat)
    requires Stands(mem, flags, a, s, i)
    ensures Stands(mem, flags, a, s, s.h.argIndex)
  {
  }

  /** A pointer and a size that user memory holds in little-endian form are what is followed. */
  lemma WrapperMeaning(mem: ByteMemory, ptr: U64, maskPtr: U64, maskSize: U64)
    requires ptr != 0 && Readable(mem, ptr, WRAPPER_SIZE)
    requires Raw(mem, ptr, WRAPPER_SIZE) == Le(maskPtr, 8) + Le(maskSize, 8)
    ensures WrapperAt(mem, ptr) == Wrapper(maskPtr, maskSize)
  {
    hide Le, FromLe;
    var b := Raw(mem, ptr, WRAPPER_SIZE);
    assert b[..8] == Le(maskPtr, 8) && b[8..] == Le(maskSize, 8);
    Pow256Widths();
    LeRoundTrip(maskPtr, 8);
    LeRoundTrip(maskSize, 8);
  }
}
