/** The two-chunk path read: one section of up to 4096 bytes captured with two bounded string
    reads that overlap by one byte, and a patched last byte. */
module PathRead {
  import opened Abi
  import opened UserMemory

  const PATH_MAX := 4096
  const FIRST_CHUNK := 2048
  const SECOND_CHUNK := 2049

  datatype Capture = Capture(bytes: seq<Byte>, faulted: bool, truncated: bool)

  /** The simple form: one bounded read of the whole path, all of it or nothing. */
  ghost function OneShot(mem: ByteMemory, ptr: int): Capture {
    if ptr == 0 then Capture([], true, false)
    else
      ScanMeaning(mem, ptr, 0, PATH_MAX);
      match ScanString(mem, ptr, PATH_MAX)
      case Fault => Capture([], true, false)
      case Ends(n) => Capture(Raw(mem, ptr, n), false, false)
      case Full => Capture(Raw(mem, ptr, PATH_MAX), false, true)
  }

  /** What the two-chunk read captures: as the one-shot read, except that a fault behind the
      first chunk leaves that chunk's bytes before its forced terminator. */
  ghost function CapturedPath(mem: ByteMemory, ptr: int): Capture {
    if ptr == 0 || ScanString(mem, ptr, FIRST_CHUNK) == Fault then Capture([], true, false)
    else
      ScanMeaning(mem, ptr, 0, FIRST_CHUNK);
      ScanMeaning(mem, ptr, 0, PATH_MAX);
      match ScanString(mem, ptr, PATH_MAX)
      case Fault => PrefixReadable(mem, ptr); Capture(Raw(mem, ptr, FIRST_CHUNK - 1), true, false)
      case Ends(n) => Capture(Raw(mem, ptr, n), false, false)
      case Full => Capture(Raw(mem, ptr, PATH_MAX), false, true)
  }

  /** The probe result the section header reports. */
  function ProbeOf(ptr: int, c: Capture): int { if ptr == 0 then -1 else if c.faulted then EFAULT else 0 }

  lemma PrefixReadable(mem: ByteMemory, ptr: int)
    requires ScanString(mem, ptr, FIRST_CHUNK) != Fault && ScanString(mem, ptr, PATH_MAX) == Fault
    ensures Readable(mem, ptr, FIRST_CHUNK - 1)
  {
    ScanExtends(mem, ptr, 0, FIRST_CHUNK, PATH_MAX);
    ScanMeaning(mem, ptr, 0, FIRST_CHUNK);
  }

  /** For every user memory and fault pattern the two-chunk read captures exactly what is
      specified, and touches no byte outside its 4096. */
  method CapturePath(buf: array<Byte>, off: nat, mem: ByteMemory, ptr: int)
      returns (copied: nat, probe: int, truncated: bool)
    requires off + PATH_MAX <= buf.Length
    modifies buf
    ensures var c := CapturedPath(mem, ptr);
      && copied == |c.bytes| <= PATH_MAX && probe == ProbeOf(ptr, c) && truncated == c.truncated
      && buf[off..off + copied] == c.bytes
    ensures OnlyWithin(buf, off, off + PATH_MAX)
  {
    copied, probe, truncated := 0, 0, false;
    if ptr == 0 {
      probe := -1;
      return;
    }
    ScanExtends(mem, ptr, 0, FIRST_CHUNK, PATH_MAX);
    ScanMeaning(mem, ptr, 0, FIRST_CHUNK);
    var n := ReadUserString(buf, off, mem, ptr, FIRST_CHUNK);
    if n < 0 {
      probe := n;
      return;
    }
    if n < FIRST_CHUNK {
      copied := n;
      return;
    }
    assert buf[off..off + FIRST_CHUNK - 1] == buf[off..off + n][..FIRST_CHUNK - 1];
    FirstChunkIsRaw(mem, ptr, buf[off..off + FIRST_CHUNK - 1]);
    copied, probe, truncated := CaptureTail(buf, off, mem, ptr);
  }

  /** The branch for paths that fill the first chunk. */
  method CaptureTail(buf: array<Byte>, off: nat, mem: ByteMemory, ptr: int)
      returns (copied: nat, probe: int, truncated: bool)
    requires off + PATH_MAX <= buf.Length && ptr != 0
    requires ScanString(mem, ptr, FIRST_CHUNK) == Full || ScanString(mem, ptr, FIRST_CHUNK) == Ends(FIRST_CHUNK)
    requires Readable(mem, ptr, FIRST_CHUNK - 1) && buf[off..off + FIRST_CHUNK - 1] == Raw(mem, ptr, FIRST_CHUNK - 1)
    modifies buf
    ensures var c := CapturedPath(mem, ptr);
      && copied == |c.bytes| <= PATH_MAX && probe == ProbeOf(ptr, c) && truncated == c.truncated
      && buf[off..off + copied] == c.bytes
    ensures OnlyWithin(buf, off + FIRST_CHUNK - 1, off + PATH_MAX)
  {
    hide CapturedPath, StringBytes, ScanFrom;
    probe, truncated := 0, false;
    var tail := ReadUserString(buf, off + FIRST_CHUNK - 1, mem, ptr + FIRST_CHUNK - 1, SECOND_CHUNK);
    assert buf[off..off + FIRST_CHUNK - 1] == old(buf[off..off + FIRST_CHUNK - 1]);
    if tail < 0 {
      FaultyTail(mem, ptr);
      probe := tail;
      copied := FIRST_CHUNK - 1;
      return;
    }
    copied := FIRST_CHUNK - 1 + tail;
    assert buf[off..off + copied] == buf[off..off + FIRST_CHUNK - 1] + buf[off + FIRST_CHUNK - 1..off + copied];
    TailJoins(mem, ptr, buf[off..off + copied]);
    if copied >= PATH_MAX {
      truncated := PatchLast(buf, off, mem, ptr);
    }
  }

  /** The string read forced a terminator into the last byte; put the user's byte back. */
  method PatchLast(buf: array<Byte>, off: nat, mem: ByteMemory, ptr: int) returns (truncated: bool)
    requires off + PATH_MAX <= buf.Length
    modifies buf
    ensures var last := At(mem, ptr, PATH_MAX - 1);
      last.Some? ==>
        (truncated == (last.value != 0) &&
         buf[off..off + PATH_MAX] == old(buf[off..off + PATH_MAX])[..PATH_MAX - 1] + [last.value])
    ensures OnlyWithin(buf, off + PATH_MAX - 1, off + PATH_MAX)
  {
    var last := At(mem, ptr, PATH_MAX - 1);
    var lastByte := if last.Some? then last.value else 0;
    buf[off + PATH_MAX - 1] := lastByte;
    truncated := lastByte != 0;
  }

  lemma FaultyTail(mem: ByteMemory, ptr: int)
    requires ptr != 0
    requires ScanString(mem, ptr, FIRST_CHUNK) == Full || ScanString(mem, ptr, FIRST_CHUNK) == Ends(FIRST_CHUNK)
    requires ScanString(mem, ptr + FIRST_CHUNK - 1, SECOND_CHUNK) == Fault
    ensures Readable(mem, ptr, FIRST_CHUNK - 1)
    ensures CapturedPath(mem, ptr) == Capture(Raw(mem, ptr, FIRST_CHUNK - 1), true, false)
  {
    TailScan(mem, ptr);
    PrefixReadable(mem, ptr);
  }

  /** Before the patch every byte but a forced terminator at the boundary is raw already. */
  lemma TailIsRaw(mem: ByteMemory, ptr: int, data: seq<Byte>)
    requires ScanString(mem, ptr, FIRST_CHUNK - 1) == Full && ScanString(mem, ptr, PATH_MAX) != Fault
    requires ScanString(mem, ptr + FIRST_CHUNK - 1, SECOND_CHUNK) != Fault
    requires Readable(mem, ptr, FIRST_CHUNK - 1)
    requires data == Raw(mem, ptr, FIRST_CHUNK - 1) + StringBytes(mem, ptr + FIRST_CHUNK - 1, SECOND_CHUNK)
    ensures forall i :: 0 <= i < |data| && i < PATH_MAX - 1 ==> At(mem, ptr, i) == Some(data[i])
    ensures |data| < PATH_MAX ==> forall i :: 0 <= i < |data| ==> At(mem, ptr, i) == Some(data[i])
  {
    hide ScanFrom;
    var p := ptr + FIRST_CHUNK - 1;
    ScanMeaning(mem, p, 0, SECOND_CHUNK);
    var rest := StringBytes(mem, p, SECOND_CHUNK);
    forall i | 0 <= i < |data| && i < PATH_MAX - 1 ensures At(mem, ptr, i) == Some(data[i]) {
      if i >= FIRST_CHUNK - 1 {
        assert data[i] == rest[i - (FIRST_CHUNK - 1)];
        assert At(mem, p, i - (FIRST_CHUNK - 1)) == At(mem, ptr, i);
      }
    }
  }

  lemma FirstChunkIsRaw(mem: ByteMemory, ptr: int, first: seq<Byte>)
    requires ScanString(mem, ptr, FIRST_CHUNK) != Fault && |StringBytes(mem, ptr, FIRST_CHUNK)| == FIRST_CHUNK
    requires first == StringBytes(mem, ptr, FIRST_CHUNK)[..FIRST_CHUNK - 1]
    ensures Readable(mem, ptr, FIRST_CHUNK - 1) && first == Raw(mem, ptr, FIRST_CHUNK - 1)
  {
    ScanMeaning(mem, ptr, 0, FIRST_CHUNK);
  }

  /** The second chunk starts one byte before the first one ended and stops exactly at the
      4096 boundary, so it decides as the whole scan does. */
  lemma TailScan(mem: ByteMemory, ptr: int)
    requires ScanString(mem, ptr, FIRST_CHUNK) == Full || ScanString(mem, ptr, FIRST_CHUNK) == Ends(FIRST_CHUNK)
    ensures ScanString(mem, ptr, FIRST_CHUNK - 1) == Full
    ensures FIRST_CHUNK - 1 + SECOND_CHUNK == PATH_MAX
    ensures ScanString(mem, ptr + FIRST_CHUNK - 1, SECOND_CHUNK) ==
      match ScanString(mem, ptr, PATH_MAX)
      case Ends(n) => if n >= FIRST_CHUNK then Ends(n - (FIRST_CHUNK - 1)) else Full
      case other => other
    ensures ScanString(mem, ptr, PATH_MAX).Ends? ==> FIRST_CHUNK <= ScanString(mem, ptr, PATH_MAX).length <= PATH_MAX
  {
    ScanMeaning(mem, ptr, 0, FIRST_CHUNK);
    ScanMeaning(mem, ptr, 0, FIRST_CHUNK - 1);
    ScanExtends(mem, ptr, 0, FIRST_CHUNK - 1, FIRST_CHUNK);
    ScanExtends(mem, ptr, 0, FIRST_CHUNK - 1, PATH_MAX);
    ScanMeaning(mem, ptr, FIRST_CHUNK - 1, PATH_MAX);
    ScanShifts(mem, ptr, FIRST_CHUNK - 1, 0, SECOND_CHUNK);
  }

  /** Both chunks, with the last byte patched when the section is full, are the specified capture. */
  lemma TailJoins(mem: ByteMemory, ptr: int, data: seq<Byte>)
    requires ptr != 0
    requires ScanString(mem, ptr, FIRST_CHUNK) == Full || ScanString(mem, ptr, FIRST_CHUNK) == Ends(FIRST_CHUNK)
    requires Readable(mem, ptr, FIRST_CHUNK - 1) && ScanString(mem, ptr + FIRST_CHUNK - 1, SECOND_CHUNK) != Fault
    requires data == Raw(mem, ptr, FIRST_CHUNK - 1) + StringBytes(mem, ptr + FIRST_CHUNK - 1, SECOND_CHUNK)
    ensures |data| <= PATH_MAX
    ensures var c := CapturedPath(mem, ptr);
      !c.faulted && |c.bytes| == |data| && (|data| < PATH_MAX ==> !c.truncated && c.bytes == data)
    ensures |data| == PATH_MAX ==>
      var c := CapturedPath(mem, ptr); var last := At(mem, ptr, PATH_MAX - 1);
      last.Some? && c.truncated == (last.value != 0) && c.bytes == data[..PATH_MAX - 1] + [last.value]
  {
    hide ScanFrom;
    TailScan(mem, ptr);
    ScanMeaning(mem, ptr, 0, PATH_MAX);
    ScanMeaning(mem, ptr + FIRST_CHUNK - 1, 0, SECOND_CHUNK);
    TailIsRaw(mem, ptr, data);
    if |data| == PATH_MAX {
      assert At(mem, ptr, PATH_MAX - 1).Some?;
      Joined(mem, ptr, data[..PATH_MAX - 1] + [At(mem, ptr, PATH_MAX - 1).value]);
    } else {
      Joined(mem, ptr, data);
    }
  }

  /** First chunk and patched tail are the raw bytes of the specified capture. */
  lemma Joined(mem: ByteMemory, ptr: int, data: seq<Byte>)
    requires ptr != 0 && ScanString(mem, ptr, FIRST_CHUNK) != Fault && ScanString(mem, ptr, PATH_MAX) != Fault
    requires forall i :: 0 <= i < |data| ==> At(mem, ptr, i) == Some(data[i])
    requires |data| == |CapturedPath(mem, ptr).bytes|
    ensures data == CapturedPath(mem, ptr).bytes
  {
  }

  /** The two-chunk read refines the one-shot read on every memory: the same verdict on faults
      and truncation always, and the same bytes exactly unless the fault lies behind the first
      chunk, where it keeps 2047 bytes that the one-shot read would lose. */
  lemma TwoChunksRefineOneShot(mem: ByteMemory, ptr: int)
    ensures var c := CapturedPath(mem, ptr); var one := OneShot(mem, ptr);
      c.faulted == one.faulted && c.truncated == one.truncated
    ensures
      var late := ptr != 0 && ScanString(mem, ptr, FIRST_CHUNK) != Fault && ScanString(mem, ptr, PATH_MAX) == Fault;
      && (CapturedPath(mem, ptr) == OneShot(mem, ptr) <==> !late)
      && (late ==> Readable(mem, ptr, FIRST_CHUNK - 1))
      && (late ==> CapturedPath(mem, ptr).bytes == Raw(mem, ptr, FIRST_CHUNK - 1))
  {
    ScanExtends(mem, ptr, 0, FIRST_CHUNK, PATH_MAX);
    if ptr != 0 && ScanString(mem, ptr, FIRST_CHUNK) != Fault && ScanString(mem, ptr, PATH_MAX) == Fault {
      PrefixReadable(mem, ptr);
      assert |CapturedPath(mem, ptr).bytes| == FIRST_CHUNK - 1;
    }
  }

  /** On memory that is readable up to the terminator or the limit, the section holds exactly
      the first min(strlen + 1, 4096) raw bytes, and truncation is reported exactly when the
      string is longer than 4095. */
  lemma StablePathIsExact(mem: ByteMemory, ptr: int, length: nat)
    requires ptr != 0 && At(mem, ptr, length) == Some(0)
    requires forall i :: 0 <= i < length ==> At(mem, ptr, i).Some? && At(mem, ptr, i).value != 0
    ensures var c := CapturedPath(mem, ptr); var n := if length + 1 < PATH_MAX then length + 1 else PATH_MAX;
      && !c.faulted && c.truncated == (length > PATH_MAX - 1)
      && Readable(mem, ptr, n) && c.bytes == Raw(mem, ptr, n)
  {
    ScanMeaning(mem, ptr, 0, FIRST_CHUNK);
    ScanMeaning(mem, ptr, 0, PATH_MAX);
  }
}
