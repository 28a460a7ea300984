/**
 The blob: a byte buffer that starts with a header (Devicetree Specification v0.3,
 section 5.2) and holds the reserve map, the structure block and the strings block.
 */
module Blob {
  import opened Bytes
  import opened Structure
  import opened Walk

  const MAGIC: u32 := 0xd00d_feed
  const SW_MAGIC: u32 := 0x2ff2_0112
  const FIRST_VERSION: u32 := 2
  const LAST_VERSION: u32 := 17
  const HEADER: int := 40
  const RSV_ENTRY: int := 16

  datatype Header = Header(
    magic: u32, totalsize: u32, offStruct: u32, offStrings: u32, offRsv: u32,
    version: u32, lastComp: u32, bootCpu: u32, sizeStrings: u32, sizeStruct: u32)

  /** The header fields, in the order of their words. */
  function Hdr(b: bytes): Header
    requires |b| >= HEADER
  {
    Header(U32(b, 0), U32(b, 4), U32(b, 8), U32(b, 12), U32(b, 16),
           U32(b, 20), U32(b, 24), U32(b, 28), U32(b, 32), U32(b, 36))
  }

  function Wrap(v: int): u32 {
    v % 0x1_0000_0000
  }

  /** `fdt_header_size_`. */
  function HeaderSize(version: u32): int {
    if version <= 1 then 28
    else if version <= 2 then 32
    else if version <= 16 then 36
    else 40
  }

  /** `check_off_` and `check_block_`, in 32-bit arithmetic. */
  predicate CheckOff(hdrsize: int, total: u32, off: u32) {
    hdrsize <= off <= total
  }

  predicate CheckBlock(hdrsize: int, total: u32, base: u32, size: u32) {
    && CheckOff(hdrsize, total, base)
    && Wrap(base + size) >= base
    && CheckOff(hdrsize, total, Wrap(base + size))
  }

  /** `fdt_check_header`. */
  function CheckHeader(h: Header): int {
    if h.magic != MAGIC then -ERR_BADMAGIC
    else if h.version < FIRST_VERSION || h.lastComp > LAST_VERSION || h.version < h.lastComp then -ERR_BADVERSION
    else
      var size := HeaderSize(h.version);
      if h.totalsize < size || h.totalsize > INT_MAX then -ERR_TRUNCATED
      else if !CheckOff(size, h.totalsize, h.offRsv) then -ERR_TRUNCATED
      else if h.version < 17 && !CheckOff(size, h.totalsize, h.offStruct) then -ERR_TRUNCATED
      else if h.version >= 17 && !CheckBlock(size, h.totalsize, h.offStruct, h.sizeStruct) then -ERR_TRUNCATED
      else if !CheckBlock(size, h.totalsize, h.offStrings, h.sizeStrings) then -ERR_TRUNCATED
      else 0
  }

  /**
   Which error the header check gives: the magic number first, then the versions, then
   whatever does not lie between the header and the total size.
   */
  lemma HeaderErrors(h: Header)
    ensures CheckHeader(h) == -ERR_BADMAGIC <==> h.magic != MAGIC
    ensures CheckHeader(h) == -ERR_BADVERSION <==> h.magic == MAGIC && !(h.lastComp <= h.version && 2 <= h.version && h.lastComp <= 17)
    ensures CheckHeader(h) == -ERR_TRUNCATED <==>
      && h.magic == MAGIC && h.lastComp <= h.version && 2 <= h.version && h.lastComp <= 17
      && var n := HeaderSize(h.version);
         !(&& n <= h.totalsize <= INT_MAX && n <= h.offRsv <= h.totalsize
           && n <= h.offStruct <= h.totalsize && (h.version >= 17 ==> h.offStruct + h.sizeStruct <= h.totalsize)
           && n <= h.offStrings && h.offStrings + h.sizeStrings <= h.totalsize)
    ensures CheckHeader(h) in {0, -ERR_BADMAGIC, -ERR_BADVERSION, -ERR_TRUNCATED}
  {
  }

  /** `fdt_ro_probe_`: the total size, or an error. */
  function RoProbe(h: Header): int {
    if h.magic == MAGIC && (h.version < FIRST_VERSION || h.lastComp > LAST_VERSION) then -ERR_BADVERSION
    else if h.magic != MAGIC && h.magic != SW_MAGIC then -ERR_BADMAGIC
    else if h.magic == SW_MAGIC && h.sizeStruct == 0 then -ERR_BADSTATE
    else if h.totalsize < INT_MAX then h.totalsize
    else -ERR_TRUNCATED
  }

  /** `fdt_blocks_misordered_`, in 32-bit arithmetic. */
  predicate Misordered(h: Header, rsvSize: int, structSize: int) {
    || h.offRsv < HEADER
    || h.offStruct < Wrap(h.offRsv + rsvSize)
    || h.offStrings < Wrap(h.offStruct + structSize)
    || h.totalsize < Wrap(h.offStrings + h.sizeStrings)
  }

  /** `fdt_rw_probe_`. */
  function RwProbe(h: Header): int {
    if RoProbe(h) < 0 then RoProbe(h)
    else if h.version < 17 then -ERR_BADVERSION
    else if Misordered(h, RSV_ENTRY, h.sizeStruct) then -ERR_BADLAYOUT
    else 0
  }

  /** The blocks stand in the order header, reserve map, structure, strings, and end within the total size. */
  predicate Ordered(h: Header) {
    && h.magic == MAGIC
    && h.version >= 17 && h.lastComp <= LAST_VERSION
    && HEADER <= h.offRsv
    && h.offRsv + RSV_ENTRY <= h.offStruct
    && h.offStruct + h.sizeStruct <= h.offStrings
    && h.offStrings + h.sizeStrings <= h.totalsize < INT_MAX
  }

  /** For a blob that passes the header check, the editing functions' own probe accepts exactly the ordered layouts. */
  lemma RwProbeAcceptsOrdered(h: Header)
    requires CheckHeader(h) == 0
    ensures RwProbe(h) == 0 <==> Ordered(h)
    ensures RwProbe(h) != 0 ==>
      RwProbe(h) == if h.totalsize == INT_MAX then -ERR_TRUNCATED else if h.version < 17 then -ERR_BADVERSION else -ERR_BADLAYOUT
  {
  }

  /** An ordered layout passes the header check. */
  lemma OrderedPasses(h: Header)
    requires Ordered(h)
    ensures CheckHeader(h) == 0
  {
  }

  /** What C demands of its caller: a buffer as long as the header says. */
  predicate Sized(b: bytes) {
    |b| >= HEADER && Hdr(b).totalsize <= |b|
  }

  /** A blob the editing functions accept. */
  predicate Ready(b: bytes) {
    Sized(b) && Ordered(Hdr(b))
  }

  /** The structure block can be read: it lies within the blob. */
  predicate Framed(b: bytes) {
    && Sized(b)
    && Hdr(b).version >= 17 && Hdr(b).totalsize <= INT_MAX
    && HEADER <= Hdr(b).offStruct && Hdr(b).offStruct + Hdr(b).sizeStruct <= Hdr(b).totalsize
  }

  /** The strings block can be read as well. */
  predicate Stringed(b: bytes) {
    Framed(b) && Hdr(b).offStrings + Hdr(b).sizeStrings <= Hdr(b).totalsize
  }

  function StructOf(b: bytes): (s: bytes)
    requires Framed(b)
    ensures |s| == Hdr(b).sizeStruct
  {
    var h := Hdr(b);
    b[h.offStruct..h.offStruct + h.sizeStruct]
  }

  function StringsOf(b: bytes): (t: bytes)
    requires Stringed(b)
    ensures |t| == Hdr(b).sizeStrings
  {
    var h := Hdr(b);
    b[h.offStrings..h.offStrings + h.sizeStrings]
  }

  /** Everything between the header and the structure block: the reserve map and unused space. */
  function FrontOf(b: bytes): bytes
    requires Ready(b)
  {
    b[HEADER..Hdr(b).offStruct]
  }

  /**
   `b` was edited into `d`: the structure block is now `s`, the strings block `t`, the
   strings follow at the same distance, and nothing else the header describes changed,
   but for a version above 17, which may have become 17.
   */
  ghost predicate Edited(b: bytes, d: bytes, s: bytes, t: bytes) {
    && Ready(b) && Ready(d) && |d| == |b|
    && 0 <= Hdr(b).offStrings + |s| - Hdr(b).sizeStruct <= INT_MAX && |s| <= INT_MAX && |t| <= INT_MAX
    && (Hdr(d).version == 17 || Hdr(d).version == Hdr(b).version)
    && Hdr(d).(version := 17) == Hdr(b).(version := 17, sizeStruct := |s|, sizeStrings := |t|,
                                         offStrings := Hdr(b).offStrings + |s| - Hdr(b).sizeStruct)
    && StructOf(d) == s
    && StringsOf(d) == t
    && FrontOf(d) == FrontOf(b)
  }

  /** How many bytes of the blob are unused behind the strings. */
  function Slack(b: bytes): (n: int)
    requires Ready(b)
    ensures n >= 0
  {
    Hdr(b).totalsize - Hdr(b).offStrings - Hdr(b).sizeStrings
  }

  /** What the blocks gain, the unused space loses. */
  lemma SlackEdited(b: bytes, d: bytes, s: bytes, t: bytes)
    requires Edited(b, d, s, t)
    ensures Slack(d) == Slack(b) - (|s| - |StructOf(b)|) - (|t| - |StringsOf(b)|)
  {
    hide Hdr;
  }

  lemma EditedTwice(b: bytes, d: bytes, e: bytes, s: bytes, t: bytes, u: bytes, v: bytes)
    requires Edited(b, d, s, t) && Edited(d, e, u, v)
    ensures Edited(b, e, u, v)
  {
    hide Hdr;
  }

  /** `fdt_offset_ptr`, with the C code's unsigned comparisons: is `[offset, offset+len)` inside the block? */
  predicate OffsetPtr(h: Header, offset: int, len: u32) {
    var abs := Wrap(offset + h.offStruct);
    && abs >= Wrap(offset)
    && Wrap(abs + len) >= abs
    && Wrap(abs + len) <= h.totalsize
    && Wrap(offset + len) >= Wrap(offset)
    && Wrap(offset + len) <= h.sizeStruct
  }

  /** The unsigned comparisons decide exactly whether the bytes lie in the structure block. */
  lemma OffsetPtrExact(h: Header, offset: int, len: u32)
    requires HEADER <= h.offStruct && h.offStruct + h.sizeStruct <= h.totalsize <= INT_MAX && -0x8000_0000 <= offset <= INT_MAX
    ensures OffsetPtr(h, offset, len) <==> 0 <= offset && offset + len <= h.sizeStruct
  {
    if offset < 0 {
      assert Wrap(offset) == offset + 0x1_0000_0000;
    }
  }
}
