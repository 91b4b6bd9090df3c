/** Captures: a section written behind its header at a running offset in a reservation.

    Each capture is specified by the sections it yields from user memory and kernel state; its
    method proves that those sections, encoded, are what the buffer holds, for every memory and
    fault pattern, and that no byte outside the capture's share is touched. */
module Captures {
  import opened Abi
  import opened UserMemory
  import opened Tlv

  /** What a capture leaves at `off`: the encoded sections, and nothing touched outside its
      share of `max` bytes. */
  twostate predicate Holds(buf: array<Byte>, off: nat, size: nat, ss: seq<Section>, max: nat)
    requires off + max <= buf.Length
    reads buf
  {
    && size == |EncodeAll(ss)| <= max
    && GoodSections(ss)
    && buf[off..off + size] == EncodeAll(ss)
    && OnlyWithin(buf, off, off + max)
  }

  // ----- fixed-size regions   --------------------------------------------------

  /** A region read of `copied` bytes out of `width` that must be readable; a null pointer or a
      fault leaves an empty section that says why. */
  ghost function RegionSection(mem: ByteMemory, h: Header, ptr: U64, width: nat): Section
    requires h.copiedLen <= width
  {
    if ptr == 0 then Section(h.(copiedLen := 0, probe := -1), [])
    else if !Readable(mem, ptr, width) then Section(h.(copiedLen := 0, probe := EFAULT), [])
    else Section(h.(probe := 0), Raw(mem, ptr, width)[..h.copiedLen])
  }

  method CaptureRegion(buf: array<Byte>, off: nat, mem: ByteMemory, h: Header, ptr: U64, width: nat) returns (size: nat)
    requires off + HEADER_SIZE + width <= buf.Length && h.copiedLen <= width && GoodHeader(h)
    modifies buf
    ensures Holds(buf, off, size, [RegionSection(mem, h, ptr, width)], HEADER_SIZE + width)
    ensures size == HEADER_SIZE + |RegionSection(mem, h, ptr, width).data|
  {
    hide EncodeAll, EncodeHeader, Encode;
    if ptr == 0 {
      size := Seal(buf, off, h.(copiedLen := 0, probe := -1), []);
      return;
    }
    var ok := ReadUser(buf, off + HEADER_SIZE, mem, ptr, width);
    if !ok {
      size := Seal(buf, off, h.(copiedLen := 0, probe := EFAULT), []);
      return;
    }
    var start := off + HEADER_SIZE;
    assert buf[start..start + h.copiedLen] == buf[start..start + width][..h.copiedLen];
    size := Seal(buf, off, h.(probe := 0), Raw(mem, ptr, width)[..h.copiedLen]);
  }

  /** Two captures in a row: the second starts where the first ended and leaves it alone. */
  lemma Follow(was: seq<Byte>, b: seq<Byte>, off: nat, size: nat, ss: seq<Section>, more: nat, next: seq<Section>)
    requires |was| == |b| && off + size + more <= |b|
    requires was[off..off + size] == EncodeAll(ss) && GoodSections(ss)
    requires forall i :: off <= i < off + size ==> b[i] == was[i]
    requires b[off + size..off + size + more] == EncodeAll(next) && GoodSections(next)
    ensures b[off..off + (size + more)] == EncodeAll(ss + next)
    ensures size + more == |EncodeAll(ss + next)| && GoodSections(ss + next)
  {
    hide EncodeAll, EncodeHeader, Encode;
    EncodeAppend(ss, next);
    assert b[off..off + size] == was[off..off + size];
    SliceJoin(b, off, off + size, off + size + more);
    GoodAppend(ss, next);
  }

  lemma SliceJoin(b: seq<Byte>, lo: nat, mid: nat, hi: nat)
    requires lo <= mid <= hi <= |b|
    ensures b[lo..hi] == b[lo..mid] + b[mid..hi]
  {
  }

  lemma GoodAppend(a: seq<Section>, b: seq<Section>)
    requires GoodSections(a) && GoodSections(b)
    ensures GoodSections(a + b)
  {
  }

  // ----- strings -------------------------------------------------------------------------

  /** A string of at most `max` bytes with its terminator; a null pointer or a fault leaves an
      empty section that says why. */
  ghost function StringSection(mem: ByteMemory, argIndex: nat, ptr: U64, max: nat): Section
    requires max > 0
  {
    if ptr == 0 then Section(Header(KIND_STRING, argIndex, 0, 0, 0, -1, ptr), [])
    else if ScanString(mem, ptr, max) == Fault then Section(Header(KIND_STRING, argIndex, 0, 0, 0, EFAULT, ptr), [])
    else
      var bytes := StringBytes(mem, ptr, max);
      Section(Header(KIND_STRING, argIndex, 0, |bytes|, |bytes|, 0, ptr), bytes)
  }

  method CaptureString(buf: array<Byte>, off: nat, mem: ByteMemory, argIndex: nat, ptr: U64, max: nat)
      returns (size: nat)
    requires 0 < max < 0x1_0000_0000 && off + HEADER_SIZE + max <= buf.Length && argIndex < 0x1_0000
    modifies buf
    ensures Holds(buf, off, size, [StringSection(mem, argIndex, ptr, max)], HEADER_SIZE + max)
  {
    hide EncodeAll, EncodeHeader, Encode, ScanString, StringBytes;
    if ptr == 0 {
      size := Seal(buf, off, Header(KIND_STRING, argIndex, 0, 0, 0, -1, ptr), []);
      return;
    }
    var n := ReadUserString(buf, off + HEADER_SIZE, mem, ptr, max);
    if n < 0 {
      size := Seal(buf, off, Header(KIND_STRING, argIndex, 0, 0, 0, n, ptr), []);
      return;
    }
    size := Seal(buf, off, Header(KIND_STRING, argIndex, 0, n, n, 0, ptr), StringBytes(mem, ptr, max));
  }

  // ----- bucketed bytes ------------------------------------------------------------------

  const DATA_MAX := 512

  /** Bytes 0..CopyLen of a write or a read buffer; a zero length reads nothing and is no
      fault, whatever the pointer. */
  ghost function BytesSection(mem: ByteMemory, flags: nat, ptr: U64, rawLen: U64): Section {
    var h := Header(KIND_BYTES, 1, flags, ClampU32(rawLen), CopyLen(rawLen, DATA_MAX), 0, ptr);
    if rawLen == 0 then Section(h, []) else RegionSection(mem, h, ptr, h.copiedLen)
  }

  /** All 512 bytes were captured and there were more. */
  ghost predicate BytesTruncated(mem: ByteMemory, ptr: U64, rawLen: U64) {
    rawLen > DATA_MAX && ptr != 0 && Readable(mem, ptr, DATA_MAX)
  }

  function BytesCapacity(rawLen: U64): nat { HEADER_SIZE + Bucket(CopyLen(rawLen, DATA_MAX)) }

  /** The bucket reserved from the length is the bucket the capture writes through. */
  method CaptureBytes(buf: array<Byte>, off: nat, mem: ByteMemory, flags: nat, ptr: U64, rawLen: U64)
      returns (size: nat, truncated: bool)
    requires off + BytesCapacity(rawLen) <= buf.Length && flags < 0x1_0000
    modifies buf
    ensures Holds(buf, off, size, [BytesSection(mem, flags, ptr, rawLen)], BytesCapacity(rawLen))
    ensures truncated <==> BytesTruncated(mem, ptr, rawLen)
  {
    hide EncodeAll, EncodeHeader, Encode;
    var h := Header(KIND_BYTES, 1, flags, ClampU32(rawLen), CopyLen(rawLen, DATA_MAX), 0, ptr);
    if h.copiedLen == 0 {
      size := Seal(buf, off, h, []);
      return size, false;
    }
    size := CaptureRegion(buf, off, mem, h, ptr, h.copiedLen);
    truncated := size > HEADER_SIZE && size - HEADER_SIZE < h.userLen;
  }

  /** capture_write_bytes_tlv_direct in the reservation of emit_payload_enter_event_v2_direct */
  method CaptureWrite(buf: array<Byte>, off: nat, mem: ByteMemory, ptr: U64, rawLen: U64)
      returns (size: nat, truncated: bool)
    requires buf.Length == off + BytesCapacity(rawLen)
    modifies buf
    ensures size <= buf.Length - off && Walk(buf[off..off + size]) == Some([BytesSection(mem, 0, ptr, rawLen)])
    ensures truncated <==> BytesTruncated(mem, ptr, rawLen)
    ensures OnlyWithin(buf, off, buf.Length)
  {
    size, truncated := CaptureBytes(buf, off, mem, 0, ptr, rawLen);
    WalkRecovers([BytesSection(mem, 0, ptr, rawLen)]);
  }

  /** capture_read_bytes_tlv_direct: a failed or empty read reserves and captures nothing. */
  method CaptureRead(buf: array<Byte>, off: nat, mem: ByteMemory, ptr: U64, ret: int)
      returns (size: nat, truncated: bool)
    requires ret < 0x8000_0000_0000_0000
    requires buf.Length == off + if ret > 0 then BytesCapacity(ret) else 0
    modifies buf
    ensures size <= buf.Length - off
    ensures Walk(buf[off..off + size]) ==
      Some(if ret > 0 then [BytesSection(mem, FLAG_DIRECTION_OUT, ptr, ret)] else [])
    ensures truncated <==> ret > 0 && BytesTruncated(mem, ptr, ret)
    ensures OnlyWithin(buf, off, buf.Length)
  {
    if ret <= 0 {
      return 0, false;
    }
    size, truncated := CaptureBytes(buf, off, mem, FLAG_DIRECTION_OUT, ptr, ret);
    WalkRecovers([BytesSection(mem, FLAG_DIRECTION_OUT, ptr, ret)]);
  }

  // ----- what the sections mean ----------------------------------------------------------

  /** A region section names its argument and pointer; it holds the user's first bytes if the
      whole width could be read, and otherwise nothing but the reason. */
  lemma RegionMeaning(mem: ByteMemory, h: Header, ptr: U64, width: nat)
    requires h.copiedLen <= width
    ensures var s := RegionSection(mem, h, ptr, width);
      && s.h == h.(copiedLen := |s.data|, probe := s.h.probe)
      && s.h.probe == (if ptr == 0 then -1 else if Readable(mem, ptr, width) then 0 else EFAULT)
      && |s.data| == (if s.h.probe == 0 then h.copiedLen else 0)
      && forall i :: 0 <= i < |s.data| ==> At(mem, ptr, i) == Some(s.data[i])
  {
  }

  /** The bucket is the smallest of the five sizes that holds the bytes. */
  lemma BucketMeaning(copied: nat, size: nat)
    requires copied <= size && size in {0, 64, 128, 256, 512}
    ensures copied <= Bucket(copied) <= size && Bucket(copied) in {0, 64, 128, 256, 512}
  {
  }

  /** A bytes section: at most 512 of the user's bytes, and how many there were. */
  lemma BytesMeaning(mem: ByteMemory, flags: nat, ptr: U64, rawLen: U64)
    ensures var s := BytesSection(mem, flags, ptr, rawLen);
      && s.h.kind == KIND_BYTES && s.h.argIndex == 1 && s.h.flags == flags && s.h.userPtr == ptr
      && s.h.userLen == (if rawLen < 0x1_0000_0000 then rawLen else 0xffff_ffff)
      && |s.data| <= rawLen && |s.data| <= 512
      && (s.h.probe == 0 ==> |s.data| == rawLen || |s.data| == 512)
      && forall i :: 0 <= i < |s.data| ==> At(mem, ptr, i) == Some(s.data[i])
  {
  }
}
