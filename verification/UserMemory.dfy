/** User memory as the probe helpers see it: bytes that can be read or fault. */
module UserMemory {
  import opened Abi

  type Byte = x: int | 0 <= x < 256

  type U64 = x: int | 0 <= x < 0x1_0000_0000_0000_0000

  const EFAULT := -14

  /** Byte reads; `None` is a fault. */
  type ByteMemory = int -> Option<Byte>

  function At(mem: ByteMemory, ptr: int, i: int): Option<Byte> { mem(ptr + i) }

  /** A region is readable only as a whole. */
  ghost predicate Readable(mem: ByteMemory, ptr: int, n: nat) {
    forall i :: 0 <= i < n ==> At(mem, ptr, i).Some?
  }

  /** The `n` raw bytes at `ptr`. */
  ghost function Raw(mem: ByteMemory, ptr: int, n: nat): (bytes: seq<Byte>)
    requires Readable(mem, ptr, n)
    ensures |bytes| == n && forall i :: 0 <= i < n ==> Some(bytes[i]) == At(mem, ptr, i)
  {
    seq(n, i requires 0 <= i < n => At(mem, ptr, i).value)
  }

  function Zeros(n: nat): (bytes: seq<Byte>)
    ensures |bytes| == n && forall i :: 0 <= i < n ==> bytes[i] == 0
  {
    seq(n, i => 0)
  }

  /** Nothing changed outside [lo, hi). */
  twostate predicate OnlyWithin(buf: array<Byte>, lo: int, hi: int)
    reads buf
  {
    forall i :: 0 <= i < buf.Length && !(lo <= i < hi) ==> buf[i] == old(buf[i])
  }

  /** bpf_dynptr_write into a reservation that is large enough */
  method Write(buf: array<Byte>, off: nat, bytes: seq<Byte>)
    requires off + |bytes| <= buf.Length
    modifies buf
    ensures buf[off..off + |bytes|] == bytes && OnlyWithin(buf, off, off + |bytes|)
  {
    forall i | 0 <= i < |bytes| { buf[off + i] := bytes[i]; }
  }

  /** bpf_probe_read_user: all of it, or a fault that leaves zeros */
  method ReadUser(buf: array<Byte>, off: nat, mem: ByteMemory, ptr: int, n: nat) returns (ok: bool)
    requires off + n <= buf.Length
    modifies buf
    ensures ok <==> Readable(mem, ptr, n)
    ensures buf[off..off + n] == if ok then Raw(mem, ptr, n) else Zeros(n)
    ensures OnlyWithin(buf, off, off + n)
  {
    var i := 0;
    while i < n
      invariant 0 <= i <= n && Readable(mem, ptr, i)
      invariant buf[off..off + i] == Raw(mem, ptr, i)
      invariant OnlyWithin(buf, off, off + n)
    {
      var b := At(mem, ptr, i);
      if b.None? {
        Write(buf, off, Zeros(n));
        return false;
      }
      ghost var was := buf[off..off + i];
      buf[off + i] := b.value;
      i := i + 1;
      assert buf[off..off + i] == was + [b.value];
      assert Raw(mem, ptr, i) == was + [b.value];
    }
    return true;
  }

  // ----- strings -------------------------------------------------------------------------

  /** What a bounded string read meets first. */
  datatype Scan = Fault | Ends(length: nat) | Full

  /** Scan from byte `i` for at most `max` bytes: a fault, the terminator (length counts it), or
      neither. */
  function ScanFrom(mem: ByteMemory, ptr: int, i: nat, max: nat): Scan
    requires i <= max
    decreases max - i
  {
    if i == max then Full
    else if At(mem, ptr, i).None? then Fault
    else if At(mem, ptr, i).value == 0 then Ends(i + 1)
    else ScanFrom(mem, ptr, i + 1, max)
  }

  function ScanString(mem: ByteMemory, ptr: int, max: nat): Scan { ScanFrom(mem, ptr, 0, max) }

  /** What the scan says about the bytes. */
  lemma {:induction false} ScanMeaning(mem: ByteMemory, ptr: int, i: nat, max: nat)
    requires i <= max
    ensures match ScanFrom(mem, ptr, i, max)
      case Ends(n) =>
        i < n <= max && At(mem, ptr, n - 1) == Some(0) &&
        forall j :: i <= j < n - 1 ==> At(mem, ptr, j).Some? && At(mem, ptr, j).value != 0
      case Full => forall j :: i <= j < max ==> At(mem, ptr, j).Some? && At(mem, ptr, j).value != 0
      case Fault =>
        exists n :: i <= n < max && At(mem, ptr, n).None? &&
          forall j :: i <= j < n ==> At(mem, ptr, j).Some? && At(mem, ptr, j).value != 0
    decreases max - i
  {
    if i < max && At(mem, ptr, i).Some? && At(mem, ptr, i).value != 0 { ScanMeaning(mem, ptr, i + 1, max); }
  }

  /** A longer scan decides as the shorter one did, unless the shorter one was full. */
  lemma {:induction false} ScanExtends(mem: ByteMemory, ptr: int, i: nat, short: nat, long: nat)
    requires i <= short <= long
    ensures ScanFrom(mem, ptr, i, short) != Full ==> ScanFrom(mem, ptr, i, long) == ScanFrom(mem, ptr, i, short)
    ensures ScanFrom(mem, ptr, i, short) == Full ==> ScanFrom(mem, ptr, i, long) == ScanFrom(mem, ptr, short, long)
    decreases short - i
  {
    if i < short { ScanExtends(mem, ptr, i + 1, short, long); }
  }

  /** Scanning from a moved pointer. */
  lemma {:induction false} ScanShifts(mem: ByteMemory, ptr: int, base: nat, i: nat, max: nat)
    requires i <= max
    ensures ScanFrom(mem, ptr + base, i, max) ==
      match ScanFrom(mem, ptr, base + i, base + max)
      case Ends(n) => if n >= base then Ends(n - base) else Full
      case other => other
    decreases max - i
  {
    assert At(mem, ptr + base, i) == At(mem, ptr, base + i);
    if i < max { ScanShifts(mem, ptr, base, i + 1, max); }
    ScanMeaning(mem, ptr, base + i, base + max);
  }

  /** The bytes bpf_probe_read_user_str leaves: the string with its terminator, or the first
      max-1 bytes and a forced terminator. */
  ghost function StringBytes(mem: ByteMemory, ptr: int, max: nat): (bytes: seq<Byte>)
    requires max > 0 && ScanString(mem, ptr, max) != Fault
    ensures 0 < |bytes| <= max
  {
    ScanMeaning(mem, ptr, 0, max);
    match ScanString(mem, ptr, max)
    case Ends(n) => Raw(mem, ptr, n)
    case Full => Raw(mem, ptr, max - 1) + [0]
  }

  /** bpf_probe_read_user_str: the length with terminator, `max` when it had to cut, -14 on a
      fault (and zeros) */
  method ReadUserString(buf: array<Byte>, off: nat, mem: ByteMemory, ptr: int, max: nat) returns (ret: int)
    requires 0 < max && off + max <= buf.Length
    modifies buf
    ensures ret < 0 <==> ScanString(mem, ptr, max) == Fault
    ensures ret < 0 ==> ret == EFAULT && buf[off..off + max] == Zeros(max)
    ensures ret >= 0 ==> ret == |StringBytes(mem, ptr, max)| && buf[off..off + ret] == StringBytes(mem, ptr, max)
    ensures ret >= 0 ==> OnlyWithin(buf, off, off + ret)
    ensures OnlyWithin(buf, off, off + max)
  {
    var i := 0;
    while i < max
      invariant 0 <= i <= max && Readable(mem, ptr, i)
      invariant ScanString(mem, ptr, max) == ScanFrom(mem, ptr, i, max)
      invariant buf[off..off + i] == Raw(mem, ptr, i)
      invariant OnlyWithin(buf, off, off + i)
    {
      var b := At(mem, ptr, i);
      if b.None? {
        Write(buf, off, Zeros(max));
        return EFAULT;
      }
      ghost var was := buf[off..off + i];
      buf[off + i] := b.value;
      i := i + 1;
      assert buf[off..off + i] == was + [b.value];
      assert Raw(mem, ptr, i) == was + [b.value];
      if b.value == 0 {
        return i;
      }
    }
    ghost var all := buf[off..off + max];
    buf[off + max - 1] := 0;
    assert buf[off..off + max] == all[..max - 1] + [0];
    assert Raw(mem, ptr, max)[..max - 1] == Raw(mem, ptr, max - 1);
    return max;
  }

  /** What a bounded string read leaves: the user's bytes up to and with the terminator, or the
      first max-1 of them and a terminator of its own. */
  lemma StringBytesMeaning(mem: ByteMemory, ptr: int, max: nat)
    requires max > 0 && ScanString(mem, ptr, max) != Fault
    ensures var b := StringBytes(mem, ptr, max);
      && b[|b| - 1] == 0
      && (forall i :: 0 <= i < |b| - 1 ==> b[i] != 0 && At(mem, ptr, i) == Some(b[i]))
      && (|b| < max ==> At(mem, ptr, |b| - 1) == Some(0))
  {
    ScanMeaning(mem, ptr, 0, max);
  }
}
