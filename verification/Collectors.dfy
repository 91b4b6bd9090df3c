/** The nested-fd collectors of select, poll and epoll: mutable scratch slots filled by bounded
    scans, refining plain definitions on sequences. */
module Collectors {
  import opened Abi
  import opened UserMemory
  import opened Tlv

  const NESTED_MAX := 4
  const SCAN_BYTES := 128
  const POLL_SLOT_MAX := 64
  const POLL_FD_SIZE := 8
  const EPOLL_EVENT_SIZE := 12
  const EPOLL_DATA_OFFSET := 4
  const EPOLL_SLOT_MAX := 42
  const FD_STATE_MAX_FD := 0x10_0000

  // ----- reference definitions -----------------------------------------------------------

  function Remove(s: seq<int>, x: int): seq<int> {
    if s == [] then [] else (if s[0] == x then [] else [s[0]]) + Remove(s[1..], x)
  }

  lemma RemoveFacts(s: seq<int>, x: int)
    ensures |Remove(s, x)| <= |s|
    ensures forall y :: y in Remove(s, x) <==> y in s && y != x
  {
    if s != [] { RemoveFacts(s[1..], x); }
  }

  /** The distinct elements in order of first occurrence: keep the head, drop its repetitions,
      go on. */
  function Nub(s: seq<int>): seq<int>
    decreases |s|
  {
    if s == [] then [] else RemoveFacts(s[1..], s[0]); [s[0]] + Nub(Remove(s[1..], s[0]))
  }

  function Take(s: seq<int>, n: nat): seq<int> { if |s| <= n then s else s[..n] }

  /** The first `n` distinct elements. */
  function FirstDistinct(s: seq<int>, n: nat): seq<int> { Take(Nub(s), n) }

  /** The last element of `s` outside `seen`. */
  function LastOutside(s: seq<int>, seen: seq<int>): Option<int> {
    if s == [] then None
    else if s[|s| - 1] !in seen then Some(s[|s| - 1])
    else LastOutside(s[..|s| - 1], seen)
  }

  /** First three distinct, then the last one that is not among them. */
  function Window(s: seq<int>): seq<int> {
    var head := FirstDistinct(s, NESTED_MAX - 1);
    var last := LastOutside(s, head);
    if last.None? then head else head + [last.value]
  }

  // ----- facts about them ----------------------------------------------------------------

  lemma RemoveSnoc(s: seq<int>, x: int, y: int)
    ensures Remove(s + [y], x) == Remove(s, x) + (if y == x then [] else [y])
  {
    if s != [] {
      assert (s + [y])[1..] == s[1..] + [y];
      RemoveSnoc(s[1..], x, y);
    }
  }

  lemma {:induction false} NubSnoc(s: seq<int>, x: int)
    ensures Nub(s + [x]) == if x in s then Nub(s) else Nub(s) + [x]
    decreases |s|
  {
    if s == [] {
      assert s + [x] == [x];
    } else {
      var rest := Remove(s[1..], s[0]);
      RemoveFacts(s[1..], s[0]);
      assert (s + [x])[1..] == s[1..] + [x];
      RemoveSnoc(s[1..], s[0], x);
      if x != s[0] {
        NubSnoc(rest, x);
        assert x in rest <==> x in s;
        assert [s[0]] + (Nub(rest) + [x]) == [s[0]] + Nub(rest) + [x];
      } else {
        assert rest + [] == rest;
      }
    }
  }

  lemma {:induction false} NubMembers(s: seq<int>)
    ensures forall y :: y in Nub(s) <==> y in s
    ensures forall i, j :: 0 <= i < j < |Nub(s)| ==> Nub(s)[i] != Nub(s)[j]
    decreases |s|
  {
    if s != [] {
      var x := s[|s| - 1];
      assert s == s[..|s| - 1] + [x];
      NubMembers(s[..|s| - 1]);
      NubSnoc(s[..|s| - 1], x);
    }
  }

  /** Adding one element to the input of the first-n collector. */
  lemma FirstDistinctSnoc(s: seq<int>, x: int, n: nat)
    ensures var d := FirstDistinct(s, n);
      FirstDistinct(s + [x], n) == if |d| < n && x !in d then d + [x] else d
  {
    NubSnoc(s, x);
    NubMembers(s);
  }

  /** A full collector no longer changes. */
  lemma {:induction false} FullStays(s: seq<int>, t: seq<int>, n: nat)
    requires |FirstDistinct(s, n)| == n
    ensures FirstDistinct(s + t, n) == FirstDistinct(s, n)
    decreases |t|
  {
    if t == [] {
      assert s + t == s;
    } else {
      var t' := t[..|t| - 1];
      assert s + t == (s + t') + [t[|t| - 1]];
      FullStays(s, t', n);
      FirstDistinctSnoc(s + t', t[|t| - 1], n);
    }
  }

  lemma {:induction false} NoneOutside(s: seq<int>, seen: seq<int>)
    ensures LastOutside(s, seen).None? <==> forall y :: y in s ==> y in seen
    ensures LastOutside(s, seen).Some? ==> LastOutside(s, seen).value in s && LastOutside(s, seen).value !in seen
    decreases |s|
  {
    if s != [] {
      NoneOutside(s[..|s| - 1], seen);
      assert forall y :: y in s <==> y in s[..|s| - 1] || y == s[|s| - 1];
    }
  }

  /** Below three distinct values nothing is outside. */
  lemma ShortWindow(s: seq<int>)
    requires |FirstDistinct(s, NESTED_MAX - 1)| < NESTED_MAX - 1
    ensures Window(s) == FirstDistinct(s, NESTED_MAX - 1)
  {
    NubMembers(s);
    NoneOutside(s, FirstDistinct(s, NESTED_MAX - 1));
  }

  /** Adding one element to the window: fill to three, then keep overwriting the fourth. */
  lemma WindowOfNone()
    ensures Window([]) == []
  {
  }

  lemma WindowSnoc(s: seq<int>, x: int)
    ensures var w := Window(s); var w' := Window(s + [x]);
      && |w| <= NESTED_MAX
      && (|w| < NESTED_MAX - 1 ==> w' == if x in w then w else w + [x])
      && (|w| >= NESTED_MAX - 1 ==> w' == if x in w then w else w[..NESTED_MAX - 1] + [x])
  {
    var head, head' := FirstDistinct(s, NESTED_MAX - 1), FirstDistinct(s + [x], NESTED_MAX - 1);
    FirstDistinctSnoc(s, x, NESTED_MAX - 1);
    NoneOutside(s, head);
    NoneOutside(s + [x], head');
    assert (s + [x])[..|s|] == s;
    NubMembers(s);
    NubMembers(s + [x]);
    if |head| < NESTED_MAX - 1 {
      ShortWindow(s);
      if x !in head { assert forall y :: y in s + [x] ==> y in head'; }
    } else {
      assert Window(s)[..NESTED_MAX - 1] == head;
      if x in Window(s) && x !in head { assert LastOutside(s, head) == Some(x); }
    }
  }

  ghost predicate AllIn(s: seq<int>, t: seq<int>) { forall y :: y in s ==> y in t }

  /** What the window means: at most four distinct values, the first three distinct ones in
      order, and as the fourth the last value not among those. */
  lemma WindowMeaning(s: seq<int>)
    ensures var w := Window(s);
      && |w| <= NESTED_MAX
      && (forall i, j :: 0 <= i < j < |w| ==> w[i] != w[j])
      && (forall y :: y in w ==> y in s)
      && Take(w, NESTED_MAX - 1) == FirstDistinct(s, NESTED_MAX - 1)
      && (|w| < NESTED_MAX ==> forall y :: y in s ==> y in w)
      && (|w| == NESTED_MAX ==>
          exists k :: 0 <= k < |s| && s[k] == w[NESTED_MAX - 1] && AllIn(s[k + 1..], w[..NESTED_MAX - 1]))
  {
    var head := FirstDistinct(s, NESTED_MAX - 1);
    NubMembers(s);
    NoneOutside(s, head);
    if |head| < NESTED_MAX - 1 { ShortWindow(s); }
    if LastOutside(s, head).Some? {
      var k := LastPosition(s, head);
      assert Window(s)[..NESTED_MAX - 1] == head;
      assert AllIn(s[k + 1..], head);
    }
  }

  lemma {:induction false} LastPosition(s: seq<int>, seen: seq<int>) returns (k: nat)
    requires LastOutside(s, seen).Some?
    ensures k < |s| && s[k] == LastOutside(s, seen).value && forall j :: k < j < |s| ==> s[j] in seen
    decreases |s|
  {
    if s[|s| - 1] !in seen {
      k := |s| - 1;
    } else {
      k := LastPosition(s[..|s| - 1], seen);
    }
  }

  // ----- user memory ---------------------------------------------------------------------

  /** The 32-bit signed value at an address; `None` is a fault. */
  ghost function IntAt(mem: ByteMemory, ptr: int): Option<int> {
    if !Readable(mem, ptr, 4) then None else Some(Signed32(FromLe(Raw(mem, ptr, 4))))
  }

  method ReadInt(mem: ByteMemory, ptr: int) returns (value: Option<int>)
    ensures value == IntAt(mem, ptr)
  {
    var local := new Byte[4];
    var ok := ReadUser(local, 0, mem, ptr, 4);
    assert local[..] == local[0..0 + 4];
    return if ok then Some(Signed32(FromLe(local[..]))) else None;
  }

  /** The eligible fds of the first `n` slots of an array at `ptr`, in slot order: readable,
      not negative, below `limit`. */
  ghost function Eligible(mem: ByteMemory, ptr: int, stride: nat, limit: int, n: nat): seq<int> {
    if n == 0 then []
    else
      var fd := IntAt(mem, ptr + (n - 1) * stride);
      Eligible(mem, ptr, stride, limit, n - 1) +
      (if fd.Some? && 0 <= fd.value < limit then [fd.value] else [])
  }

  predicate BitSet(b: int, k: nat)
    requires k < 8
  {
    (b / [1, 2, 4, 8, 16, 32, 64, 128][k]) % 2 == 1
  }

  /** select_direct_fdset_user_len: nfds is a signed 32-bit value */
  function FdsetLen(nfds: int): nat {
    var low := nfds % 0x1_0000_0000;
    if low == 0 || low >= 0x8000_0000 then 0
    else if low > SCAN_BYTES * 8 then SCAN_BYTES
    else (low + 7) / 8
  }

  /** Bit `fd` of the fd_set at `ptr` is readable and set. */
  predicate Member(mem: ByteMemory, ptr: int, fd: nat) {
    var b := At(mem, ptr, fd / 8);
    b.Some? && BitSet(b.value, fd % 8)
  }

  /** The set bits below `n` of a user fd_set, ascending. */
  ghost function SetBits(mem: ByteMemory, ptr: int, n: nat): seq<int> {
    if n == 0 then []
    else SetBits(mem, ptr, n - 1) + (if Member(mem, ptr, n - 1) then [n - 1] else [])
  }

  /** A null or unreadable set contributes nothing. */
  ghost function FdsOf(mem: ByteMemory, ptr: int, nfds: int): seq<int> {
    if ptr == 0 || !Readable(mem, ptr, FdsetLen(nfds)) then [] else SetBits(mem, ptr, 8 * FdsetLen(nfds))
  }

  // ----- the scratch area ----------------------------------------------------------------

  class Scratch {
    var fd0: int
    var fd1: int
    var fd2: int
    var fd3: int
    var count: nat
    const fdset: array<Byte>

    constructor (fdset: array<Byte>)
      requires fdset.Length == SCAN_BYTES
      ensures this.fdset == fdset && count == 0
    {
      this.fdset := fdset;
      count := 0;
      fd0, fd1, fd2, fd3 := 0, 0, 0, 0;
    }

    predicate Valid()
      reads this
    {
      count <= NESTED_MAX && fdset.Length == SCAN_BYTES
    }

    function Fds(): (fds: seq<int>)
      requires Valid()
      reads this
      ensures |fds| == count
    {
      if count == 0 then []
      else if count == 1 then [fd0]
      else if count == 2 then [fd0, fd1]
      else if count == 3 then [fd0, fd1, fd2]
      else [fd0, fd1, fd2, fd3]
    }

    method CandidateExists(fd: int) returns (yes: bool)
      requires Valid()
      ensures yes <==> fd in Fds()
    {
      yes := (count > 0 && fd0 == fd) || (count > 1 && fd1 == fd) || (count > 2 && fd2 == fd) ||
          (count > 3 && fd3 == fd);
    }

    method AddCandidate(fd: int)
      requires Valid()
      modifies this
      ensures Valid()
      ensures Fds() == if |old(Fds())| < NESTED_MAX && fd !in old(Fds()) then old(Fds()) + [fd] else old(Fds())
    {
      var known := CandidateExists(fd);
      if count >= NESTED_MAX || known {
        return;
      }
      if count == 0 {
        fd0 := fd;
      } else if count == 1 {
        fd1 := fd;
      } else if count == 2 {
        fd2 := fd;
      } else {
        fd3 := fd;
      }
      count := count + 1;
    }

    method AddWindowCandidate(fd: int)
      requires Valid()
      modifies this
      ensures Valid()
      ensures |old(Fds())| < NESTED_MAX - 1 ==> Fds() == if fd in old(Fds()) then old(Fds()) else old(Fds()) + [fd]
      ensures |old(Fds())| >= NESTED_MAX - 1 ==>
        Fds() == if fd in old(Fds()) then old(Fds()) else old(Fds())[..NESTED_MAX - 1] + [fd]
    {
      if count < NESTED_MAX - 1 {
        AddCandidate(fd);
        return;
      }
      var known := CandidateExists(fd);
      if known {
        return;
      }
      fd3 := fd;
      count := NESTED_MAX;
    }

    /** The scan shared by poll and epoll: for every array and fault pattern it ends with the
        window of the eligible fds. */
    method ScanWindow(mem: ByteMemory, ptr: int, stride: nat, limit: int, slotMax: nat, n: nat)
      requires Valid() && count == 0 && n <= slotMax
      modifies this
      ensures Valid() && Fds() == Window(Eligible(mem, ptr, stride, limit, n))
    {
      hide Window, IntAt;
      var index := 0;
      assert Window([]) == [] by { WindowOfNone(); }
      while index < slotMax
        invariant 0 <= index <= n && Valid()
        invariant Fds() == Window(Eligible(mem, ptr, stride, limit, index))
        decreases slotMax - index
      {
        if index >= n {
          break;
        }
        var fd := ReadInt(mem, ptr + index * stride);
        if fd.Some? && 0 <= fd.value < limit {
          WindowSnoc(Eligible(mem, ptr, stride, limit, index), fd.value);
          AddWindowCandidate(fd.value);
        } else {
          assert Eligible(mem, ptr, stride, limit, index) + [] == Eligible(mem, ptr, stride, limit, index);
        }
        index := index + 1;
      }
    }

    method CollectPoll(mem: ByteMemory, sysId: int, ptr: int, rawCount: nat) returns (found: nat)
      requires Valid()
      modifies this
      ensures Valid()
      ensures !IsPoll(sysId) || ptr == 0 || PollCount(sysId, rawCount) == 0 ==> found == 0
      ensures IsPoll(sysId) && ptr != 0 && PollCount(sysId, rawCount) > 0 ==>
        found == count && Fds() ==
            Window(Eligible(mem, ptr, POLL_FD_SIZE, 0x8000_0000, Capped(PollCount(sysId, rawCount), POLL_SLOT_MAX)))
    {
      if !IsPoll(sysId) || ptr == 0 {
        return 0;
      }
      var n := PollCount(sysId, rawCount);
      if n == 0 {
        return 0;
      }
      if n > POLL_SLOT_MAX {
        n := POLL_SLOT_MAX;
      }
      count := 0;
      ScanWindow(mem, ptr, POLL_FD_SIZE, 0x8000_0000, POLL_SLOT_MAX, n);
      return count;
    }

    method CollectEpoll(mem: ByteMemory, fdState: bool, sysId: int, ptr: int, ret: int) returns (found: nat)
      requires Valid()
      modifies this
      ensures Valid()
      ensures !(fdState && IsEpollWait(sysId) && ret > 0 && ptr != 0) ==> found == 0
      ensures fdState && IsEpollWait(sysId) && ret > 0 && ptr != 0 ==>
        found == count && Fds() ==
            Window(Eligible(mem, ptr +
                EPOLL_DATA_OFFSET, EPOLL_EVENT_SIZE, FD_STATE_MAX_FD, Capped(ret, EPOLL_SLOT_MAX)))
    {
      if !fdState || !IsEpollWait(sysId) || ret <= 0 || ptr == 0 {
        return 0;
      }
      var n := ret;
      if n > EPOLL_SLOT_MAX {
        n := EPOLL_SLOT_MAX;
      }
      count := 0;
      ScanWindow(mem, ptr + EPOLL_DATA_OFFSET, EPOLL_EVENT_SIZE, FD_STATE_MAX_FD, EPOLL_SLOT_MAX, n);
      return count;
    }

    // ----- select ------------------------------------------------------------------------

    /** Copies `n` user bytes to the front of the reused buffer; on a fault the kernel zeroes
        them instead. The rest of the buffer keeps whatever an earlier call left there. */
    method ReadFdset(mem: ByteMemory, ptr: int, n: nat) returns (ok: bool)
      requires Valid() && 0 < n <= SCAN_BYTES
      modifies fdset
      ensures ok <==> Readable(mem, ptr, n)
      ensures ok ==> forall i :: 0 <= i < n ==> At(mem, ptr, i) == Some(fdset[i])
    {
      ok := true;
      var i := 0;
      while i < n
        invariant 0 <= i <= n && ok
        invariant forall j :: 0 <= j < i ==> At(mem, ptr, j) == Some(fdset[j])
      {
        var b := At(mem, ptr, i);
        if b.None? {
          forall k | 0 <= k < n { fdset[k] := 0; }
          return false;
        }
        fdset[i] := b.value;
        i := i + 1;
      }
    }

    method CollectFdset(mem: ByteMemory, ptr: int, nfds: int, ghost before: seq<int>)
      requires Valid() && Fds() == FirstDistinct(before, NESTED_MAX)
      modifies this, fdset
      ensures Valid() && Fds() == FirstDistinct(before + FdsOf(mem, ptr, nfds), NESTED_MAX)
    {
      var n := FdsetLen(nfds);
      assert before + [] == before;
      if ptr == 0 || n == 0 {
        return;
      }
      if count >= NESTED_MAX {
        FullStays(before, FdsOf(mem, ptr, nfds), NESTED_MAX);
        return;
      }
      var ok := ReadFdset(mem, ptr, n);
      if !ok {
        return;
      }
      ScanBits(mem, ptr, n, before);
    }

    /** The bpf_loop over the copied set: stops past its last bit or when the slots are full. */
    method ScanBits(mem: ByteMemory, ptr: int, n: nat, ghost before: seq<int>)
      requires Valid() && n <= SCAN_BYTES && Fds() == FirstDistinct(before, NESTED_MAX)
      requires forall i :: 0 <= i < n ==> At(mem, ptr, i) == Some(fdset[i])
      modifies this
      ensures Valid() && Fds() == FirstDistinct(before + SetBits(mem, ptr, 8 * n), NESTED_MAX)
    {
      hide FirstDistinct, BitSet;
      var fd := 0;
      assert before + SetBits(mem, ptr, 0) == before;
      while fd < SCAN_BYTES * 8
        invariant 0 <= fd <= 8 * n && Valid()
        invariant Fds() == FirstDistinct(before + SetBits(mem, ptr, fd), NESTED_MAX)
        decreases SCAN_BYTES * 8 - fd
      {
        if fd >= 8 * n {
          break;
        }
        if count >= NESTED_MAX {
          FullScan(mem, ptr, fd, 8 * n, before);
          return;
        }
        var byteIndex := (fd / 8) % SCAN_BYTES;
        ByteOfBit(fd, n);
        var isSet := BitSet(fdset[byteIndex], fd % 8);
        assert isSet == Member(mem, ptr, fd);
        ScanStep(mem, ptr, fd, before);
        if isSet {
          AddCandidate(fd);
        }
        fd := fd + 1;
      }
    }

    /** For every nfds and every three fd_sets, the select collector holds the first four
        distinct fds of the read bits, then the write bits, then the except bits, whatever was
        left in the reused buffer. */
    method CollectSelect(mem: ByteMemory, nfds: int, readfds: int, writefds: int, exceptfds: int) returns (found: nat)
      requires Valid()
      modifies this, fdset
      ensures Valid() && found == count
      ensures Fds() == FirstDistinct(FdsOf(mem, readfds, nfds) + FdsOf(mem, writefds, nfds) +
        FdsOf(mem, exceptfds, nfds), NESTED_MAX)
    {
      count := 0;
      assert Fds() == FirstDistinct([], NESTED_MAX);
      CollectFdset(mem, readfds, nfds, []);
      assert [] + FdsOf(mem, readfds, nfds) == FdsOf(mem, readfds, nfds);
      CollectFdset(mem, writefds, nfds, FdsOf(mem, readfds, nfds));
      CollectFdset(mem, exceptfds, nfds, FdsOf(mem, readfds, nfds) + FdsOf(mem, writefds, nfds));
      return count;
    }
  }

  lemma {:induction false} SetBitsExtend(mem: ByteMemory, ptr: int, a: nat, b: nat)
    requires a <= b
    ensures exists more :: SetBits(mem, ptr, b) == SetBits(mem, ptr, a) + more
    decreases b
  {
    if a == b {
      assert SetBits(mem, ptr, b) == SetBits(mem, ptr, a) + [];
    } else {
      SetBitsExtend(mem, ptr, a, b - 1);
      var more :| SetBits(mem, ptr, b - 1) == SetBits(mem, ptr, a) + more;
      var tail := if Member(mem, ptr, b - 1) then [b - 1] else [];
      assert SetBits(mem, ptr, b) == SetBits(mem, ptr, a) + (more + tail);
    }
  }

  lemma ByteOfBit(fd: nat, n: nat)
    requires fd < 8 * n && n <= SCAN_BYTES
    ensures (fd / 8) % SCAN_BYTES == fd / 8 < n
  {
  }

  lemma ScanStep(mem: ByteMemory, ptr: int, fd: nat, before: seq<int>)
    ensures var d := FirstDistinct(before + SetBits(mem, ptr, fd), NESTED_MAX);
      FirstDistinct(before + SetBits(mem, ptr, fd + 1), NESTED_MAX) ==
        if Member(mem, ptr, fd) && |d| < NESTED_MAX && fd !in d then d + [fd] else d
  {
    var bits := SetBits(mem, ptr, fd);
    if Member(mem, ptr, fd) {
      assert before + (bits + [fd]) == before + bits + [fd];
      FirstDistinctSnoc(before + bits, fd, NESTED_MAX);
    } else {
      assert bits + [] == bits;
    }
  }

  lemma FullScan(mem: ByteMemory, ptr: int, fd: nat, n: nat, before: seq<int>)
    requires fd <= n && |FirstDistinct(before + SetBits(mem, ptr, fd), NESTED_MAX)| == NESTED_MAX
    ensures FirstDistinct(before + SetBits(mem, ptr, n), NESTED_MAX) ==
      FirstDistinct(before + SetBits(mem, ptr, fd), NESTED_MAX)
  {
    SetBitsExtend(mem, ptr, fd, n);
    var more :| SetBits(mem, ptr, n) == SetBits(mem, ptr, fd) + more;
    assert before + SetBits(mem, ptr, n) == before + SetBits(mem, ptr, fd) + more;
    FullStays(before + SetBits(mem, ptr, fd), more, NESTED_MAX);
  }

  /** The set bits are exactly the members below `n`, in ascending order. */
  lemma {:induction false} SetBitsMeaning(mem: ByteMemory, ptr: int, n: nat)
    ensures var bits := SetBits(mem, ptr, n);
      && (forall fd :: fd in bits <==> 0 <= fd < n && Member(mem, ptr, fd))
      && (forall i, j :: 0 <= i < j < |bits| ==> bits[i] < bits[j])
    decreases n
  {
    if n > 0 {
      SetBitsMeaning(mem, ptr, n - 1);
      var before := SetBits(mem, ptr, n - 1);
      forall i | 0 <= i < |before| ensures before[i] < n - 1 { assert before[i] in before; }
      assert forall fd :: fd in SetBits(mem, ptr, n) <==> fd in before || (fd == n - 1 && Member(mem, ptr, n - 1));
    }
  }

  /** poll_direct_count: ppoll's count is an unsigned int */
  function PollCount(sysId: int, rawCount: nat): nat {
    if sysId == SYS_PPOLL then rawCount % 0x1_0000_0000 else rawCount
  }

  function Capped(n: nat, max: nat): nat { if n > max then max else n }

  // ----- what the readings mean ----------------------------------------------------------

  /** The bits of a byte are its binary digits: the lowest says whether it is odd, the others are
      those of its half. */
  lemma BitsAreDigits(b: Byte, k: nat)
    requires k < 8
    ensures BitSet(b, k) <==> if k == 0 then b % 2 == 1 else BitSet(b / 2, k - 1)
  {
    if k == 1 {
    } else if k == 2 {
      assert b / 4 == b / 2 / 2;
    } else if k == 3 {
      assert b / 8 == b / 2 / 4;
    } else if k == 4 {
      assert b / 16 == b / 2 / 8;
    } else if k == 5 {
      assert b / 32 == b / 2 / 16;
    } else if k == 6 {
      assert b / 64 == b / 2 / 32;
    } else if k == 7 {
      assert b / 128 == b / 2 / 64;
    }
  }

  /** The number of bytes that hold `nfds` bits, at most 128; none for a count that is not
      positive as a 32-bit number. */
  lemma FdsetLenMeaning(nfds: int)
    ensures 0 < nfds <= 1024 ==> 8 * (FdsetLen(nfds) - 1) < nfds <= 8 * FdsetLen(nfds)
    ensures 1024 < nfds < 0x8000_0000 ==> FdsetLen(nfds) == 128
    ensures nfds == 0 || 0x8000_0000 <= nfds < 0x1_0000_0000 ==> FdsetLen(nfds) == 0
    ensures FdsetLen(nfds + 0x1_0000_0000) == FdsetLen(nfds)
  {
  }

  /** The eligible fds are the values of the first `n` slots that can be read and are in range. */
  lemma {:induction false} EligibleMeaning(mem: ByteMemory, ptr: int, stride: nat, limit: int, n: nat)
    ensures forall y :: y in Eligible(mem, ptr, stride, limit, n) <==>
      exists i :: 0 <= i < n && IntAt(mem, ptr + i * stride) == Some(y) && 0 <= y < limit
    decreases n
  {
    hide IntAt;
    if n > 0 { EligibleMeaning(mem, ptr, stride, limit, n - 1); }
  }

  /** A non-negative int that user memory holds in little-endian form is read back. */
  lemma IntAtMeaning(mem: ByteMemory, ptr: int, x: nat)
    requires x < 0x8000_0000 && Readable(mem, ptr, 4) && Raw(mem, ptr, 4) == Le(x, 4)
    ensures IntAt(mem, ptr) == Some(x)
  {
    Pow256Widths();
    LeRoundTrip(x, 4);
  }

  /** fd 8j+k of a set is bit k of its j-th byte. */
  lemma MemberMeaning(mem: ByteMemory, ptr: int, j: nat, k: nat)
    requires k < 8
    ensures Member(mem, ptr, 8 * j + k) <==> At(mem, ptr, j).Some? && BitSet(At(mem, ptr, j).value, k)
  {
    assert (8 * j + k) / 8 == j && (8 * j + k) % 8 == k;
  }

  /** The count a scan stops at is the smaller of the two. */
  lemma CappedMeaning(n: nat, max: nat)
    ensures Capped(n, max) <= n && Capped(n, max) <= max && (Capped(n, max) == n || Capped(n, max) == max)
  {
  }
}
