/** The exec payload: the path and a snapshot of argv and the environment, read slot by slot
    into fixed-size records. */
module ExecPayload {
  import opened Abi
  import opened UserMemory
  import opened Tlv
  import opened Captures

  const MAGIC := 0x4558_4543
  const PATH_SNAPSHOT_MAX := 512
  const ARG_MAX := 48
  const ENV_MAX := 64
  const ARG_DATA := 50
  const RECORD := 64
  const SNAPSHOT_HEADER := 32
  const ENV_OFFSET := SNAPSHOT_HEADER + ARG_MAX * RECORD
  const SNAPSHOT_SIZE := ENV_OFFSET + ENV_MAX * RECORD
  const EXEC_CAPACITY := HEADER_SIZE + SNAPSHOT_SIZE + HEADER_SIZE + PATH_SNAPSHOT_MAX

  // ----- one argument --------------------------------------------------------------------

  datatype Item = Item(ptr: U64, len: int, data: seq<Byte>)

  predicate GoodItem(x: Item) { |x.data| == ARG_DATA && -0x8000_0000 <= x.len < 0x8000_0000 }

  /** The record for the string at `ptr`: its length with terminator (or the fault), and its
      bytes padded with zeros. */
  ghost function ItemAt(mem: ByteMemory, ptr: U64): (x: Item)
    ensures GoodItem(x)
  {
    if ScanString(mem, ptr, ARG_DATA) == Fault then Item(ptr, EFAULT, Zeros(ARG_DATA))
    else
      var bytes := StringBytes(mem, ptr, ARG_DATA);
      Item(ptr, |bytes|, bytes + Zeros(ARG_DATA - |bytes|))
  }

  function EncodeItem(x: Item): (bytes: seq<Byte>)
    requires GoodItem(x)
    ensures |bytes| == RECORD
  {
    Le(x.ptr, 8) + Le(Unsigned32(x.len), 4) + x.data + Zeros(2)
  }

  function DecodeItem(b: seq<Byte>): Item
    requires |b| == RECORD
  {
    FromLeBounded(b[0..8]);
    Item(FromLe(b[0..8]), Signed32(FromLe(b[8..12])), b[12..62])
  }

  lemma ItemRoundTrip(x: Item)
    requires GoodItem(x)
    ensures DecodeItem(EncodeItem(x)) == x
  {
    var b := EncodeItem(x);
    assert b[0..8] == Le(x.ptr, 8);
    assert b[8..12] == Le(Unsigned32(x.len), 4);
    assert b[12..62] == x.data;
    Pow256Widths();
    LeRoundTrip(x.ptr, 8);
    LeRoundTrip(Unsigned32(x.len), 4);
  }

  /** Reads the string into a zeroed local record. */
  method ReadItem(mem: ByteMemory, ptr: U64) returns (x: Item)
    ensures x == ItemAt(mem, ptr)
  {
    var data := new Byte[ARG_DATA](_ => 0);
    var len := ReadUserString(data, 0, mem, ptr, ARG_DATA);
    x := Item(ptr, len, data[..]);
    if len < 0 {
      assert data[..] == data[0..0 + ARG_DATA];
    } else {
      assert len <= ARG_DATA;
      assert data[..] == data[..len] + data[len..];
      assert data[..len] == data[0..0 + len];
      assert data[len..] == Zeros(ARG_DATA - len);
    }
  }

  // ----- a vector of arguments -----------------------------------------------------------

  /** The records, whether the vector ended (0), has more (1) or could not be read (-1), and
      where reading stopped. */
  datatype Vector = Vector(items: seq<Item>, status: int, next: U64)

  function SlotAt(base: U64, i: nat): U64 { (base + 8 * i) % 0x1_0000_0000_0000_0000 }

  ghost function WordAt(mem: ByteMemory, ptr: U64): Option<U64> {
    if !Readable(mem, ptr, 8) then None else FromLeBounded(Raw(mem, ptr, 8)); Some(FromLe(Raw(mem, ptr, 8)))
  }

  /** The slots before `n` all hold arguments. */
  ghost predicate Filled(mem: ByteMemory, base: U64, n: nat) {
    forall i :: 0 <= i < n ==> WordAt(mem, SlotAt(base, i)).Some? && WordAt(mem, SlotAt(base, i)).value != 0
  }

  /** What a snapshot of at most `max` arguments says of the vector at `base`. */
  ghost predicate Snapshots(mem: ByteMemory, base: U64, max: nat, v: Vector) {
    if base == 0 then v == Vector([], 0, 0)
    else
      var n := |v.items|;
      && n <= max && Filled(mem, base, n)
      && (forall i :: 0 <= i < n ==> v.items[i] == ItemAt(mem, WordAt(mem, SlotAt(base, i)).value))
      && var stop := WordAt(mem, SlotAt(base, n));
         if stop.None? then v.status == -1 && v.next == SlotAt(base, n)
         else v.next == base && (if stop.value == 0 then v.status == 0 else v.status == 1 && n == max)
  }

  /** At most one vector fits: the snapshot is decided by the memory. */
  lemma SnapshotIsUnique(mem: ByteMemory, base: U64, max: nat, v: Vector, w: Vector)
    requires Snapshots(mem, base, max, v) && Snapshots(mem, base, max, w)
    ensures v == w
  {
    if base != 0 {
      var n, m := |v.items|, |w.items|;
      if n < m {
        assert false;
      } else if m < n {
        assert false;
      }
      assert v.items == w.items;
    }
  }

  function EncodeItems(xs: seq<Item>): (bytes: seq<Byte>)
    requires forall i :: 0 <= i < |xs| ==> GoodItem(xs[i])
    ensures |bytes| == RECORD * |xs|
  {
    if xs == [] then [] else EncodeItems(xs[..|xs| - 1]) + EncodeItem(xs[|xs| - 1])
  }

  function DecodeItems(b: seq<Byte>, n: nat): (xs: seq<Item>)
    requires |b| == RECORD * n
    ensures |xs| == n
  {
    if n == 0 then [] else DecodeItems(b[..RECORD * (n - 1)], n - 1) + [DecodeItem(b[RECORD * (n - 1)..])]
  }

  lemma {:induction false} ItemsRoundTrip(xs: seq<Item>)
    requires forall i :: 0 <= i < |xs| ==> GoodItem(xs[i])
    ensures DecodeItems(EncodeItems(xs), |xs|) == xs
  {
    if xs != [] {
      var n := |xs| - 1;
      var b := EncodeItems(xs);
      assert b[..RECORD * n] == EncodeItems(xs[..n]);
      assert b[RECORD * n..] == EncodeItem(xs[n]);
      ItemsRoundTrip(xs[..n]);
      ItemRoundTrip(xs[n]);
      assert xs[..n] + [xs[n]] == xs;
    }
  }

  method ReadWord(mem: ByteMemory, ptr: U64) returns (w: Option<U64>)
    ensures w == WordAt(mem, ptr)
  {
    var local := new Byte[8];
    var ok := ReadUser(local, 0, mem, ptr, 8);
    assert local[..] == local[0..0 + 8];
    if !ok {
      return None;
    }
    FromLeBounded(local[..]);
    return Some(FromLe(local[..]));
  }

  /** How a full vector ends: one more slot is looked at, but not recorded. */
  method Peek(mem: ByteMemory, base: U64, max: nat) returns (status: int, next: U64)
    ensures var stop := WordAt(mem, SlotAt(base, max));
      if stop.None? then status == -1 && next == SlotAt(base, max)
      else next == base && status == if stop.value == 0 then 0 else 1
  {
    var word := ReadWord(mem, SlotAt(base, max));
    if word.None? {
      return -1, SlotAt(base, max);
    }
    return if word.value == 0 then 0 else 1, base;
  }

  /** Writes one record behind the ones already there. */
  method AppendItem(buf: array<Byte>, off: nat, count: nat, item: Item, ghost items: seq<Item>)
    requires off + RECORD * (count + 1) <= buf.Length && count == |items|
    requires GoodItem(item) && forall i :: 0 <= i < |items| ==> GoodItem(items[i])
    requires buf[off..off + RECORD * count] == EncodeItems(items)
    modifies buf
    ensures buf[off..off + RECORD * (count + 1)] == EncodeItems(items + [item])
    ensures OnlyWithin(buf, off + RECORD * count, off + RECORD * (count + 1))
  {
    hide EncodeItem;
    var at := off + RECORD * count;
    Write(buf, at, EncodeItem(item));
    assert buf[off..at] == old(buf[off..at]);
    assert buf[off..at + RECORD] == buf[off..at] + buf[at..at + RECORD];
    assert (items + [item])[..count] == items;
  }

  /** capture_exec_argv_records_direct and capture_exec_env_records_direct differ only in `max` */
  method CaptureVector(buf: array<Byte>, off: nat, mem: ByteMemory, base: U64, max: nat)
      returns (count: nat, status: int, next: U64, ghost items: seq<Item>)
    requires max > 0 && off + RECORD * max <= buf.Length
    modifies buf
    ensures count == |items| <= max && (forall i :: 0 <= i < |items| ==> GoodItem(items[i]))
    ensures Snapshots(mem, base, max, Vector(items, status, next))
    ensures buf[off..off + RECORD * count] == EncodeItems(items)
    ensures OnlyWithin(buf, off, off + RECORD * max)
  {
    hide ItemAt, EncodeItem, WordAt, SlotAt;
    count, status, next, items := 0, -1, base, [];
    if base == 0 {
      status := 0;
      return;
    }
    while count < max
      invariant 0 <= count <= max && |items| == count && Filled(mem, base, count)
      invariant forall i :: 0 <= i < count ==>
        GoodItem(items[i]) && items[i] == ItemAt(mem, WordAt(mem, SlotAt(base, i)).value)
      invariant buf[off..off + RECORD * count] == EncodeItems(items)
      invariant OnlyWithin(buf, off, off + RECORD * max)
      invariant if count < max then status == -1 &&
        next == base else Snapshots(mem, base, max, Vector(items, status, next))
    {
      var slot := SlotAt(base, count);
      var word := ReadWord(mem, slot);
      if word.None? {
        next := slot;
        return;
      }
      if word.value == 0 {
        status := 0;
        return;
      }
      var item := ReadItem(mem, word.value);
      AppendItem(buf, off, count, item, items);
      items := items + [item];
      count := count + 1;
      if count == max {
        status, next := Peek(mem, base, max);
      }
    }
  }

  // ----- the snapshot --------------------------------------------------------------------

  datatype Snapshot = Snapshot(magic: nat, argv: Vector, env: Vector)

  function EncodeSnapshotHeader(
      argvCount: nat, envCount: nat, argvStatus: int, envStatus: int, argvNext: U64, envNext: U64): (bytes: seq<Byte>)
    ensures |bytes| == SNAPSHOT_HEADER
  {
    Le(MAGIC, 4) + Le(argvCount, 2) + Le(envCount, 2) + Le(Unsigned32(argvStatus), 4) + Le(Unsigned32(envStatus), 4) +
    Le(argvNext, 8) + Le(envNext, 8)
  }

  /** How a reader takes the snapshot apart: counts say how many records of each table hold. */
  function ReadSnapshot(b: seq<Byte>): Option<Snapshot> {
    if |b| < ENV_OFFSET then None
    else
      var argc, envc := FromLe(b[4..6]), FromLe(b[6..8]);
      if argc > ARG_MAX || |b| != ENV_OFFSET + RECORD * envc then None
      else
        FromLeBounded(b[16..24]);
        FromLeBounded(b[24..32]);
        var argv := DecodeItems(b[SNAPSHOT_HEADER..SNAPSHOT_HEADER + RECORD * argc], argc);
        var env := DecodeItems(b[ENV_OFFSET..], envc);
        Some(Snapshot(FromLe(b[0..4]),
                      Vector(argv, Signed32(FromLe(b[8..12])), FromLe(b[16..24])),
                      Vector(env, Signed32(FromLe(b[12..16])), FromLe(b[24..32]))))
  }

  lemma SnapshotHeaderSlices(
      argvCount: nat, envCount: nat, argvStatus: int, envStatus: int, argvNext: U64, envNext: U64)
    ensures var b := EncodeSnapshotHeader(argvCount, envCount, argvStatus, envStatus, argvNext, envNext);
      && b[0..4] == Le(MAGIC, 4) && b[4..6] == Le(argvCount, 2) && b[6..8] == Le(envCount, 2)
      && b[8..12] == Le(Unsigned32(argvStatus), 4) && b[12..16] == Le(Unsigned32(envStatus), 4)
      && b[16..24] == Le(argvNext, 8) && b[24..32] == Le(envNext, 8)
  {
    hide Le;
  }

  predicate GoodVector(v: Vector, max: nat) {
    && |v.items| <= max && -1 <= v.status <= 1
    && forall i :: 0 <= i < |v.items| ==> GoodItem(v.items[i])
  }

  function HeaderOf(argv: Vector, env: Vector): seq<Byte> {
    EncodeSnapshotHeader(|argv.items|, |env.items|, argv.status, env.status, argv.next, env.next)
  }

  lemma HeaderReads(argv: Vector, env: Vector)
    requires GoodVector(argv, ARG_MAX) && GoodVector(env, ENV_MAX)
    ensures var b := HeaderOf(argv, env);
      && FromLe(b[0..4]) == MAGIC && FromLe(b[4..6]) == |argv.items| && FromLe(b[6..8]) == |env.items|
      && Signed32(FromLe(b[8..12])) == argv.status && Signed32(FromLe(b[12..16])) == env.status
      && FromLe(b[16..24]) == argv.next && FromLe(b[24..32]) == env.next
  {
    hide EncodeSnapshotHeader, Le, FromLe;
    SnapshotHeaderSlices(|argv.items|, |env.items|, argv.status, env.status, argv.next, env.next);
    Pow256Widths();
    LeRoundTrip(MAGIC, 4);
    LeRoundTrip(|argv.items|, 2);
    LeRoundTrip(|env.items|, 2);
    LeRoundTrip(Unsigned32(argv.status), 4);
    LeRoundTrip(Unsigned32(env.status), 4);
    LeRoundTrip(argv.next, 8);
    LeRoundTrip(env.next, 8);
  }

  lemma HeaderPrefix(b: seq<Byte>)
    requires |b| >= SNAPSHOT_HEADER
    ensures var h := b[..SNAPSHOT_HEADER];
      && b[0..4] == h[0..4] && b[4..6] == h[4..6] && b[6..8] == h[6..8] && b[8..12] == h[8..12]
      && b[12..16] == h[12..16] && b[16..24] == h[16..24] && b[24..32] == h[24..32]
  {
  }

  /** The counts and both tables survive, whatever bytes fill the unused argv slots. */
  lemma SnapshotReads(b: seq<Byte>, argv: Vector, env: Vector)
    requires GoodVector(argv, ARG_MAX) && GoodVector(env, ENV_MAX)
    requires |b| == ENV_OFFSET + RECORD * |env.items| && b[..SNAPSHOT_HEADER] == HeaderOf(argv, env)
    requires b[SNAPSHOT_HEADER..SNAPSHOT_HEADER + RECORD * |argv.items|] == EncodeItems(argv.items)
    requires b[ENV_OFFSET..] == EncodeItems(env.items)
    ensures ReadSnapshot(b) == Some(Snapshot(MAGIC, argv, env))
  {
    hide EncodeSnapshotHeader, HeaderOf, FromLe, EncodeItem, DecodeItem, EncodeItems, DecodeItems;
    HeaderReads(argv, env);
    HeaderPrefix(b);
    ItemsRoundTrip(argv.items);
    ItemsRoundTrip(env.items);
  }

  /** Both tables, with the header's place left free before them. */
  method CaptureVectors(buf: array<Byte>, off: nat, mem: ByteMemory, argvPtr: U64, envPtr: U64)
      returns (argc: nat, argvStatus: int, argvNext: U64, envc: nat, envStatus: int, envNext: U64, ghost argv: Vector,
          ghost env: Vector)
    requires off + SNAPSHOT_SIZE <= buf.Length
    modifies buf
    ensures argv == Vector(argv.items, argvStatus, argvNext) && argc == |argv.items| && GoodVector(argv, ARG_MAX)
    ensures env == Vector(env.items, envStatus, envNext) && envc == |env.items| && GoodVector(env, ENV_MAX)
    ensures Snapshots(mem, argvPtr, ARG_MAX, argv) && Snapshots(mem, envPtr, ENV_MAX, env)
    ensures buf[off + SNAPSHOT_HEADER..off + SNAPSHOT_HEADER + RECORD * argc] == EncodeItems(argv.items)
    ensures buf[off + ENV_OFFSET..off + ENV_OFFSET + RECORD * envc] == EncodeItems(env.items)
    ensures OnlyWithin(buf, off, off + SNAPSHOT_SIZE)
  {
    hide EncodeItems, Snapshots, ItemAt;
    ghost var argvItems, envItems;
    argc, argvStatus, argvNext, argvItems := CaptureVector(buf, off + SNAPSHOT_HEADER, mem, argvPtr, ARG_MAX);
    argv := Vector(argvItems, argvStatus, argvNext);
    ghost var argvBytes := buf[off + SNAPSHOT_HEADER..off + SNAPSHOT_HEADER + RECORD * argc];
    envc, envStatus, envNext, envItems := CaptureVector(buf, off + ENV_OFFSET, mem, envPtr, ENV_MAX);
    env := Vector(envItems, envStatus, envNext);
    assert buf[off + SNAPSHOT_HEADER..off + SNAPSHOT_HEADER + RECORD * argc] == argvBytes;
    VectorIsGood(mem, argvPtr, ARG_MAX, argv);
    VectorIsGood(mem, envPtr, ENV_MAX, env);
  }

  method CaptureSnapshot(buf: array<Byte>, off: nat, mem: ByteMemory, argvPtr: U64, envPtr: U64)
      returns (copied: nat, ghost argv: Vector, ghost env: Vector)
    requires off + SNAPSHOT_SIZE <= buf.Length
    modifies buf
    ensures Snapshots(mem, argvPtr, ARG_MAX, argv) && Snapshots(mem, envPtr, ENV_MAX, env)
    ensures copied <= SNAPSHOT_SIZE && ReadSnapshot(buf[off..off + copied]) == Some(Snapshot(MAGIC, argv, env))
    ensures OnlyWithin(buf, off, off + SNAPSHOT_SIZE)
  {
    hide EncodeSnapshotHeader, EncodeItems, ReadSnapshot, Snapshots;
    var argc, argvStatus, argvNext, envc, envStatus, envNext;
    argc, argvStatus, argvNext, envc, envStatus, envNext, argv, env := CaptureVectors(buf, off, mem, argvPtr, envPtr);
    ghost var was := buf[..];
    Write(buf, off, EncodeSnapshotHeader(argc, envc, argvStatus, envStatus, argvNext, envNext));
    copied := ENV_OFFSET + RECORD * envc;
    Slices(was, buf[..], off, copied, argc);
    SnapshotReads(buf[off..off + copied], argv, env);
  }

  /** Writing the header leaves both tables. */
  lemma Slices(was: seq<Byte>, now: seq<Byte>, off: nat, copied: nat, argc: nat)
    requires |was| == |now| && off + copied <= |now| && ENV_OFFSET <= copied && argc <= ARG_MAX
    requires forall i :: off + SNAPSHOT_HEADER <= i < |now| ==> now[i] == was[i]
    ensures var b := now[off..off + copied];
      && b[..SNAPSHOT_HEADER] == now[off..off + SNAPSHOT_HEADER]
      && b[SNAPSHOT_HEADER..SNAPSHOT_HEADER + RECORD * argc] ==
          was[off + SNAPSHOT_HEADER..off + SNAPSHOT_HEADER + RECORD * argc]
      && b[ENV_OFFSET..] == was[off + ENV_OFFSET..off + copied]
  {
    var argvEnd := SNAPSHOT_HEADER + RECORD * argc;
    assert argvEnd <= ENV_OFFSET;
    SliceOfSlice(now, off, copied, 0, SNAPSHOT_HEADER);
    SliceOfSlice(now, off, copied, SNAPSHOT_HEADER, argvEnd);
    SliceOfSlice(now, off, copied, ENV_OFFSET, copied);
    SameSlice(was, now, off + SNAPSHOT_HEADER, off + argvEnd);
    SameSlice(was, now, off + ENV_OFFSET, off + copied);
  }

  lemma SliceOfSlice(s: seq<Byte>, off: nat, n: nat, lo: nat, hi: nat)
    requires lo <= hi <= n && off + n <= |s|
    ensures s[off..off + n][lo..hi] == s[off + lo..off + hi]
  {
    var whole := s[off..off + n];
    var part, same := whole[lo..hi], s[off + lo..off + hi];
    assert |part| == |same|;
    forall i | 0 <= i < |part| ensures part[i] == same[i] {
      assert part[i] == whole[lo + i];
    }
  }

  lemma SameSlice(s: seq<Byte>, t: seq<Byte>, lo: nat, hi: nat)
    requires |s| == |t| && lo <= hi <= |s| && forall i :: lo <= i < hi ==> t[i] == s[i]
    ensures t[lo..hi] == s[lo..hi]
  {
  }

  lemma VectorIsGood(mem: ByteMemory, base: U64, max: nat, v: Vector)
    requires Snapshots(mem, base, max, v) && forall i :: 0 <= i < |v.items| ==> GoodItem(v.items[i])
    ensures GoodVector(v, max)
  {
  }

  // ----- the payload ---------------------------------------------------------------------

  function ExecHeader(argIndex: nat, argvPtr: U64, copied: nat): Header {
    Header(KIND_EXEC_ARGS, argIndex, 0, SNAPSHOT_SIZE, copied, 0, argvPtr)
  }

  /** The exec payload fits its reservation for every memory and fault pattern; a walk finds
      the path and one snapshot, which reads back as the two vectors that memory held. */
  method CaptureExec(
      buf: array<Byte>, off: nat, mem: ByteMemory, pathIndex: nat, pathPtr: U64, argvPtr: U64, envPtr: U64)
      returns (size: nat, ghost data: seq<Byte>, ghost argv: Vector, ghost env: Vector)
    requires buf.Length == off + EXEC_CAPACITY && pathIndex < 2
    modifies buf
    ensures size <= EXEC_CAPACITY && OnlyWithin(buf, off, off + EXEC_CAPACITY)
    ensures Walk(buf[off..off + size]) ==
      Some([StringSection(mem, pathIndex, pathPtr, PATH_SNAPSHOT_MAX),
          Section(ExecHeader(pathIndex + 1, argvPtr, |data|), data)])
    ensures ReadSnapshot(data) == Some(Snapshot(MAGIC, argv, env))
    ensures Snapshots(mem, argvPtr, ARG_MAX, argv) && Snapshots(mem, envPtr, ENV_MAX, env)
  {
    hide EncodeAll, EncodeHeader, Encode, ReadSnapshot, Snapshots, Walk, StringSection;
    size := CaptureString(buf, off, mem, pathIndex, pathPtr, PATH_SNAPSHOT_MAX);
    ghost var path := StringSection(mem, pathIndex, pathPtr, PATH_SNAPSHOT_MAX);
    ghost var was := buf[..];
    var copied;
    copied, argv, env := CaptureSnapshot(buf, off + size + HEADER_SIZE, mem, argvPtr, envPtr);
    data := buf[off + size + HEADER_SIZE..off + size + HEADER_SIZE + copied];
    var more := Seal(buf, off + size, ExecHeader(pathIndex + 1, argvPtr, copied), data);
    ghost var exec := Section(ExecHeader(pathIndex + 1, argvPtr, copied), data);
    Follow(was, buf[..], off, size, [path], more, [exec]);
    size := size + more;
    assert [path] + [exec] == [path, exec];
    WalkRecovers([path, exec]);
  }

  // ----- what the readings mean ----------------------------------------------------------

  /** Slots are eight bytes apart, and hold little-endian pointers. */
  lemma SlotMeaning(mem: ByteMemory, base: U64, i: nat, x: U64)
    ensures base + 8 * i < 0x1_0000_0000_0000_0000 ==> SlotAt(base, i) == base + 8 * i
    ensures Readable(mem, base, 8) && Raw(mem, base, 8) == Le(x, 8) ==> WordAt(mem, base) == Some(x)
  {
    Pow256Widths();
    LeRoundTrip(x, 8);
  }

  /** A record holds its pointer and the bytes of the string there, zeros behind them. */
  lemma ItemMeaning(mem: ByteMemory, ptr: U64)
    ensures var x := ItemAt(mem, ptr);
      && x.ptr == ptr && |x.data| == 50
      && (x.len < 0 ==> x.len == EFAULT && forall i :: 0 <= i < 50 ==> x.data[i] == 0)
      && (x.len >= 0 ==>
            && 0 < x.len <= 50 && (forall i :: x.len - 1 <= i < 50 ==> x.data[i] == 0)
            && forall i :: 0 <= i < x.len - 1 ==> x.data[i] != 0 && At(mem, ptr, i) == Some(x.data[i]))
  {
    if ScanString(mem, ptr, ARG_DATA) != Fault { StringBytesMeaning(mem, ptr, ARG_DATA); }
  }

  /** Where the fields of a record lie. */
  lemma ItemSlices(x: Item)
    requires GoodItem(x)
    ensures var b := EncodeItem(x);
      b[0..8] == Le(x.ptr, 8) && b[8..12] == Le(Unsigned32(x.len), 4) && b[12..62] == x.data
  {
    hide Le;
  }
}
