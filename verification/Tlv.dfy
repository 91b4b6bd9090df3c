/** The TLV wire format: 32-byte little-endian section headers followed by the captured bytes,
    and the sequential walk that a reader does over them. */
module Tlv {
  import opened Abi
  import opened UserMemory

  const HEADER_SIZE := 32

  const KIND_STRING := 1
  const KIND_BYTES := 2
  const KIND_STRUCT := 3
  const KIND_EXEC_ARGS := 6
  const KIND_FD_PATH := 9
  const FLAG_DIRECTION_OUT := 1

  // ----- little-endian numbers -----------------------------------------------------------

  function Pow256(n: nat): nat { if n == 0 then 1 else 256 * Pow256(n - 1) }

  lemma Pow256Widths()
    ensures Pow256(2) == 0x1_0000 && Pow256(4) == 0x1_0000_0000 && Pow256(8) == 0x1_0000_0000_0000_0000
  {
    assert Pow256(4) == 256 * 256 * Pow256(2);
    assert Pow256(6) == 256 * 256 * Pow256(4);
    assert Pow256(8) == 256 * 256 * Pow256(6);
  }

  function Le(x: nat, n: nat): (bytes: seq<Byte>)
    ensures |bytes| == n
  {
    if n == 0 then [] else [x % 256] + Le(x / 256, n - 1)
  }

  function FromLe(bytes: seq<Byte>): nat {
    if bytes == [] then 0 else bytes[0] + 256 * FromLe(bytes[1..])
  }

  lemma {:induction false} FromLeBelow(bytes: seq<Byte>)
    ensures FromLe(bytes) < Pow256(|bytes|)
  {
    if bytes != [] { FromLeBelow(bytes[1..]); }
  }

  lemma FromLeBounded(bytes: seq<Byte>)
    requires |bytes| == 8
    ensures FromLe(bytes) < 0x1_0000_0000_0000_0000
  {
    FromLeBelow(bytes);
    Pow256Widths();
  }

  lemma {:induction false} LeRoundTrip(x: nat, n: nat)
    requires x < Pow256(n)
    ensures FromLe(Le(x, n)) == x
    decreases n
  {
    if n > 0 {
      assert Le(x, n)[1..] == Le(x / 256, n - 1);
      LeRoundTrip(x / 256, n - 1);
    }
  }

  function Unsigned32(x: int): nat { x % 0x1_0000_0000 }

  function Signed32(x: nat): int { if x >= 0x8000_0000 then x - 0x1_0000_0000 else x }

  // ----- sections ------------------------------------------------------------------------

  datatype Header = Header(kind: nat, argIndex: nat, flags: nat, userLen: nat, copiedLen: nat, probe: int, userPtr: nat)

  predicate GoodHeader(h: Header) {
    && h.kind < 0x1_0000 && h.argIndex < 0x1_0000 && h.flags < 0x1_0000
    && h.userLen < 0x1_0000_0000 && h.copiedLen < 0x1_0000_0000
    && -0x8000_0000 <= h.probe < 0x8000_0000
    && h.userPtr < 0x1_0000_0000_0000_0000
  }

  function EncodeHeader(h: Header): (bytes: seq<Byte>)
    ensures |bytes| == HEADER_SIZE
  {
    Le(h.kind, 2) + Le(h.argIndex, 2) + Le(h.flags, 2) + Le(0, 2) + Le(h.userLen, 4) + Le(h.copiedLen, 4) +
    Le(Unsigned32(h.probe), 4) + Le(0, 4) + Le(h.userPtr, 8)
  }

  function DecodeHeader(b: seq<Byte>): Header
    requires |b| == HEADER_SIZE
  {
    Header(FromLe(b[0..2]), FromLe(b[2..4]), FromLe(b[4..6]), FromLe(b[8..12]), FromLe(b[12..16]),
           Signed32(FromLe(b[16..20])), FromLe(b[24..32]))
  }

  lemma HeaderSlices(h: Header)
    ensures var b := EncodeHeader(h);
      && b[0..2] == Le(h.kind, 2) && b[2..4] == Le(h.argIndex, 2) && b[4..6] == Le(h.flags, 2)
      && b[8..12] == Le(h.userLen, 4) && b[12..16] == Le(h.copiedLen, 4)
      && b[16..20] == Le(Unsigned32(h.probe), 4) && b[24..32] == Le(h.userPtr, 8)
  {
    hide Le;
  }

  /** Every header the emitters can build survives the wire. */
  lemma HeaderRoundTrip(h: Header)
    requires GoodHeader(h)
    ensures DecodeHeader(EncodeHeader(h)) == h
  {
    HeaderSlices(h);
    Pow256Widths();
    LeRoundTrip(h.kind, 2);
    LeRoundTrip(h.argIndex, 2);
    LeRoundTrip(h.flags, 2);
    LeRoundTrip(h.userLen, 4);
    LeRoundTrip(h.copiedLen, 4);
    LeRoundTrip(Unsigned32(h.probe), 4);
    LeRoundTrip(h.userPtr, 8);
  }

  datatype Section = Section(h: Header, data: seq<Byte>)

  predicate GoodSection(s: Section) { GoodHeader(s.h) && s.h.copiedLen == |s.data| }

  ghost predicate GoodSections(ss: seq<Section>) { forall i :: 0 <= i < |ss| ==> GoodSection(ss[i]) }

  function Encode(s: Section): seq<Byte> { EncodeHeader(s.h) + s.data }

  function EncodeAll(ss: seq<Section>): seq<Byte> {
    if ss == [] then [] else Encode(ss[0]) + EncodeAll(ss[1..])
  }

  lemma EncodeNone()
    ensures EncodeAll([]) == [] && GoodSections([])
  {
  }

  lemma EncodeOne(s: Section)
    ensures EncodeAll([s]) == Encode(s)
  {
    assert EncodeAll([s]) == Encode(s) + EncodeAll([]);
  }

  lemma {:induction false} EncodeAppend(a: seq<Section>, b: seq<Section>)
    ensures EncodeAll(a + b) == EncodeAll(a) + EncodeAll(b)
    decreases |a|
  {
    if a == [] {
      assert a + b == b;
    } else {
      assert (a + b)[1..] == a[1..] + b;
      EncodeAppend(a[1..], b);
    }
  }

  /** The reader's walk: header, then copied_len bytes, until the payload ends exactly. */
  function Walk(b: seq<Byte>): Option<seq<Section>>
    decreases |b|
  {
    if b == [] then Some([])
    else if |b| < HEADER_SIZE then None
    else
      var h := DecodeHeader(b[..HEADER_SIZE]);
      if HEADER_SIZE + h.copiedLen > |b| then None
      else
        var rest := Walk(b[HEADER_SIZE + h.copiedLen..]);
        if rest.None? then None
        else Some([Section(h, b[HEADER_SIZE..HEADER_SIZE + h.copiedLen])] + rest.value)
  }

  /** A walk by header size plus copied_len recovers exactly the sections, in order, and stops
      at the end. */
  lemma {:induction false} WalkRecovers(ss: seq<Section>)
    requires GoodSections(ss)
    ensures Walk(EncodeAll(ss)) == Some(ss)
    decreases |ss|
  {
    if ss != [] {
      var s, rest := ss[0], EncodeAll(ss[1..]);
      var b := EncodeAll(ss);
      assert GoodSection(s);
      assert b == EncodeHeader(s.h) + s.data + rest;
      assert b[..HEADER_SIZE] == EncodeHeader(s.h);
      HeaderRoundTrip(s.h);
      assert b[HEADER_SIZE..HEADER_SIZE + |s.data|] == s.data;
      assert b[HEADER_SIZE + |s.data|..] == rest;
      WalkRecovers(ss[1..]);
      assert [s] + ss[1..] == ss;
    }
  }

  /** payload_tlv_write_header_direct, after the section's bytes are in place behind it */
  method Seal(buf: array<Byte>, off: nat, h: Header, ghost data: seq<Byte>) returns (size: nat)
    requires off + HEADER_SIZE + |data| <= buf.Length && h.copiedLen == |data|
    requires buf[off + HEADER_SIZE..off + HEADER_SIZE + |data|] == data
    modifies buf
    ensures size == HEADER_SIZE + h.copiedLen == |EncodeAll([Section(h, data)])|
    ensures buf[off..off + size] == EncodeAll([Section(h, data)])
    ensures OnlyWithin(buf, off, off + HEADER_SIZE)
  {
    Write(buf, off, EncodeHeader(h));
    size := HEADER_SIZE + h.copiedLen;
    EncodeOne(Section(h, data));
    assert buf[off + HEADER_SIZE..off + size] == data;
    assert buf[off..off + size] == buf[off..off + HEADER_SIZE] + buf[off + HEADER_SIZE..off + size];
  }

  // ----- lengths -------------------------------------------------------------------------

  function ClampU32(value: nat): nat { if value > 0xffff_ffff then 0xffff_ffff else value }

  function CopyLen(value: nat, max: nat): nat { if value > max then max else value }

  /** payload_tlv_data_bucket */
  function Bucket(copied: nat): nat {
    if copied == 0 then 0 else if copied <= 64 then 64 else if copied <= 128 then 128 else if copied <= 256
        then 256 else 512
  }
}
