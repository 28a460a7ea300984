/**
 Moving blobs: `fdt_resize` between buffers that may overlap, `fdt_pack` in place, and the
 reserve map read back.
 */
module Relocate {
  import opened Options
  import opened Bytes
  import opened Structure
  import opened Blob
  import opened Buffer
  import opened Walk
  import opened Read
  import opened Meaning
  import opened Core
  import opened Edit
  import opened Writer
  import opened Finish
  import opened Validate

  // ---------- fdt_resize ----------

  /** The blob of `n` bytes that stands at `at` in memory. */
  function Window(mem: bytes, at: int, n: int): (b: bytes)
    requires 0 <= at && 0 <= n && at + n <= |mem|
    ensures |b| == n
  {
    mem[at..at + n]
  }

  /** Head of `headsize` bytes and tail of `tailsize` bytes copied from window to window, in the order that clobbers neither. */
  method CopyEnds(mem: array<byte>, fdt: int, total: int, buf: int, bufsize: int, headsize: int, tailsize: int)
    requires 0 <= fdt && 0 <= total && fdt + total <= mem.Length
    requires 0 <= buf && 0 <= bufsize && buf + bufsize <= mem.Length
    requires 0 <= headsize && 0 <= tailsize && headsize + tailsize <= total && headsize + tailsize <= bufsize
    modifies mem
    ensures var m, d := old(mem[..]), mem[..];
      && d[buf..buf + headsize] == m[fdt..fdt + headsize]
      && d[buf + bufsize - tailsize..buf + bufsize] == m[fdt + total - tailsize..fdt + total]
      && d[..buf] == m[..buf] && d[buf + bufsize..] == m[buf + bufsize..]
  {
    hide Put;
    ghost var m := mem[..];
    var oldtail := fdt + total - tailsize;
    var newtail := buf + bufsize - tailsize;
    if buf <= fdt {
      MemMove(mem, buf, fdt, headsize);
      CopyApart(m, mem[..], buf, fdt, headsize, oldtail, tailsize, buf, bufsize);
      ghost var e := mem[..];
      MemMove(mem, newtail, oldtail, tailsize);
      CopyApart(e, mem[..], newtail, oldtail, tailsize, buf, headsize, buf, bufsize);
    } else {
      MemMove(mem, newtail, oldtail, tailsize);
      CopyApart(m, mem[..], newtail, oldtail, tailsize, fdt, headsize, buf, bufsize);
      ghost var e := mem[..];
      MemMove(mem, buf, fdt, headsize);
      CopyApart(e, mem[..], buf, fdt, headsize, newtail, tailsize, buf, bufsize);
    }
  }

  /** A copy into the window `[buf, buf+bufsize)` that stays clear of `[i, i+k)`. */
  lemma CopyApart(e: bytes, d: bytes, dst: int, src: int, n: int, i: int, k: int, buf: int, bufsize: int)
    requires 0 <= n && 0 <= dst && dst + n <= |e| && 0 <= src && src + n <= |e|
    requires d == Put(e, dst, e[src..src + n])
    requires 0 <= k && 0 <= i && i + k <= |e| && (i + k <= dst || dst + n <= i)
    requires 0 <= buf <= dst && dst + n <= buf + bufsize <= |e|
    ensures d[dst..dst + n] == e[src..src + n]
    ensures d[i..i + k] == e[i..i + k]
    ensures d[..buf] == e[..buf] && d[buf + bufsize..] == e[buf + bufsize..]
  {
    hide Put;
    var w := e[src..src + n];
    PutReads(e, dst, w);
    PutApart(e, dst, w, i, i + k);
    PutApart(e, dst, w, 0, buf);
    PutApart(e, dst, w, buf + bufsize, |e|);
    assert d[..buf] == d[0..buf] && e[..buf] == e[0..buf];
  }

  /** The moved blob after its header was adjusted: same head, same strings, new size. */
  lemma MovedUnfinished(b: bytes, d: bytes)
    requires Unfinished(b) && |b| == Hdr(b).totalsize && HEADER <= |d| <= INT_MAX
    requires var h := Hdr(b);
             var head := h.offStruct + h.sizeStruct;
             && head + h.sizeStrings <= |d|
             && d[HEADER..head] == b[HEADER..head]
             && d[|d| - h.sizeStrings..|d|] == b[|b| - h.sizeStrings..|b|]
             && Hdr(d) == h.(totalsize := |d|, offStrings := if h.offStrings != 0 then |d| else 0)
    ensures Unfinished(d) && StructOf(d) == StructOf(b) && TailStrings(d) == TailStrings(b)
    ensures d[HEADER..Hdr(d).offStruct] == b[HEADER..Hdr(b).offStruct]
  {
    hide Hdr;
    var h := Hdr(b);
    var m := h.offStruct + h.sizeStruct - HEADER;
    assert Unfinished(d) && StructOf(d) == d[h.offStruct..h.offStruct + h.sizeStruct];
    assert TailStrings(d) == d[|d| - h.sizeStrings..|d|];
    SamePart(b, HEADER, d, HEADER, m, 0, h.offStruct - HEADER);
    SamePart(b, HEADER, d, HEADER, m, h.offStruct - HEADER, h.sizeStruct);
  }

  /** The calls made before a move stay made. */
  lemma Continues(b: bytes, d: bytes)
    requires Unfinished(b) && Unfinished(d) && StructOf(d) == StructOf(b) && TailStrings(d) == TailStrings(b)
    requires Hdr(d) == Hdr(b).(totalsize := Hdr(d).totalsize, offStrings := if Hdr(b).offStrings != 0 then Hdr(d).totalsize else 0)
    requires d[HEADER..Hdr(d).offStruct] == b[HEADER..Hdr(b).offStruct]
    ensures forall rs :: Reserved(b, rs) ==> Reserved(d, rs)
    ensures forall vs :: Written(b, vs) ==> Written(d, vs)
  {
    hide Hdr, EncReserves, Written;
    var p := Hdr(b).offStruct;
    SamePart(b, HEADER, d, HEADER, p - HEADER, FRONT - HEADER, p - FRONT);
    forall vs | Written(b, vs)
      ensures Written(d, vs)
    {
      var ks := WrittenTokens(b, vs);
      MovedWritten(b, d, vs);
    }
  }

  /** Whatever was written survives a move that keeps structure block and strings. */
  lemma MovedWritten(b: bytes, d: bytes, vs: seq<Event>)
    requires Written(b, vs) && InStruct(b) && InStruct(d)
    requires StructOf(d) == StructOf(b) && TailStrings(d) == TailStrings(b)
    ensures Written(d, vs)
  {
    hide Hdr, Spells, AllStand;
    var ks := WrittenTokens(b, vs);
    assert Spelled(d, vs, ks);
  }

  /**
   `fdt_resize`: the unfinished blob at `fdt` now stands at `buf` in a window of `bufsize`
   bytes, wherever the two windows lie in memory; only that window changed.
   */
  method Resize(mem: array<byte>, fdt: int, ghost total: int, buf: int, bufsize: int) returns (err: int)
    requires 0 <= fdt && HEADER <= total && fdt + total <= mem.Length
    requires 0 <= buf && 0 <= bufsize <= INT_MAX && buf + bufsize <= mem.Length
    requires Hdr(Window(mem[..], fdt, total)).totalsize == total
    requires Hdr(Window(mem[..], fdt, total)).magic == SW_MAGIC ==> Unfinished(Window(mem[..], fdt, total))
    modifies mem
    ensures var b := Window(old(mem[..]), fdt, total);
            var h := Hdr(b);
      && err == (if h.magic == MAGIC then -ERR_BADSTATE
                 else if h.magic != SW_MAGIC then -ERR_BADMAGIC
                 else if h.offStruct + h.sizeStruct + h.sizeStrings > bufsize then -ERR_NOSPACE else 0)
      && (err != 0 ==> mem[..] == old(mem[..]))
      && (err == 0 ==>
           var d := Window(mem[..], buf, bufsize);
           && Unfinished(d) && StructOf(d) == StructOf(b) && TailStrings(d) == TailStrings(b)
           && Hdr(d) == h.(totalsize := bufsize, offStrings := if h.offStrings != 0 then bufsize else 0)
           && d[HEADER..Hdr(d).offStruct] == b[HEADER..h.offStruct]
           && (forall rs :: Reserved(b, rs) ==> Reserved(d, rs))
           && (forall vs :: Written(b, vs) ==> Written(d, vs))
           && mem[..buf] == old(mem[..buf]) && mem[buf + bufsize..] == old(mem[buf + bufsize..]))
  {
    hide Hdr, Window;
    ghost var m := mem[..];
    ghost var b := Window(m, fdt, total);
    var h := LoadHeaderAt(mem, fdt, total);
    if h.magic == MAGIC {
      return -ERR_BADSTATE;
    } else if h.magic != SW_MAGIC {
      return -ERR_BADMAGIC;
    }
    var headsize, tailsize := h.offStruct + h.sizeStruct, h.sizeStrings;
    if headsize + tailsize > h.totalsize {
      return -ERR_INTERNAL;
    }
    if headsize + tailsize > bufsize {
      return -ERR_NOSPACE;
    }
    CopyEnds(mem, fdt, h.totalsize, buf, bufsize, headsize, tailsize);
    ghost var e := Window(mem[..], buf, bufsize);
    CopiedHead(m, mem[..], fdt, total, buf, bufsize, headsize, tailsize);
    AdjustMoved(mem, buf, bufsize);
    ResizedBlob(b, e, Window(mem[..], buf, bufsize));
    Continues(b, Window(mem[..], buf, bufsize));
    err := 0;
  }

  /** The size fields of the moved blob are set. */
  method AdjustMoved(mem: array<byte>, buf: int, bufsize: int)
    requires 0 <= buf && HEADER <= bufsize <= INT_MAX && buf + bufsize <= mem.Length
    modifies mem
    ensures var e, d := Window(old(mem[..]), buf, bufsize), Window(mem[..], buf, bufsize);
      && Hdr(d) == Hdr(e).(totalsize := bufsize, offStrings := if Hdr(e).offStrings != 0 then bufsize else 0)
      && d[HEADER..] == e[HEADER..]
    ensures mem[..buf] == old(mem[..buf]) && mem[buf + bufsize..] == old(mem[buf + bufsize..])
  {
    hide Hdr;
    SetWordAt(mem, buf, bufsize, 4, bufsize);
    var g := LoadHeaderAt(mem, buf, bufsize);
    if g.offStrings != 0 {
      SetWordAt(mem, buf, bufsize, 12, bufsize);
    }
  }

  /** The copied ends with the header adjusted: the same unfinished blob in a new window. */
  lemma ResizedBlob(b: bytes, e: bytes, d: bytes)
    requires Unfinished(b) && |b| == Hdr(b).totalsize && HEADER <= |d| == |e| <= INT_MAX
    requires var h := Hdr(b);
             var head, n := h.offStruct + h.sizeStruct, h.sizeStrings;
             && head + n <= |d| && Hdr(e) == h
             && e[HEADER..head] == b[HEADER..head] && e[|d| - n..|d|] == b[|b| - n..|b|]
             && d[HEADER..] == e[HEADER..]
             && Hdr(d) == h.(totalsize := |d|, offStrings := if h.offStrings != 0 then |d| else 0)
    ensures Unfinished(d) && StructOf(d) == StructOf(b) && TailStrings(d) == TailStrings(b)
    ensures d[HEADER..Hdr(d).offStruct] == b[HEADER..Hdr(b).offStruct]
  {
    hide Hdr;
    var h := Hdr(b);
    TailSlice(e, d, HEADER, h.offStruct + h.sizeStruct);
    TailSlice(e, d, |d| - h.sizeStrings, |d|);
    MovedUnfinished(b, d);
  }

  /** Reads the header of the blob at `at`. */
  method LoadHeaderAt(mem: array<byte>, at: int, ghost n: int) returns (h: Header)
    requires 0 <= at && HEADER <= n && at + n <= mem.Length
    ensures h == Hdr(Window(mem[..], at, n))
  {
    hide U32;
    var w0 := LoadWordAt(mem, at, n, 0);
    var w1 := LoadWordAt(mem, at, n, 4);
    var w2 := LoadWordAt(mem, at, n, 8);
    var w3 := LoadWordAt(mem, at, n, 12);
    var w4 := LoadWordAt(mem, at, n, 16);
    var w5 := LoadWordAt(mem, at, n, 20);
    var w6 := LoadWordAt(mem, at, n, 24);
    var w7 := LoadWordAt(mem, at, n, 28);
    var w8 := LoadWordAt(mem, at, n, 32);
    var w9 := LoadWordAt(mem, at, n, 36);
    h := Header(w0, w1, w2, w3, w4, w5, w6, w7, w8, w9);
  }

  method LoadWordAt(mem: array<byte>, at: int, ghost n: int, i: int) returns (v: u32)
    requires 0 <= at && 0 <= n && at + n <= mem.Length && 0 <= i && i + 4 <= n
    ensures v == U32(Window(mem[..], at, n), i)
  {
    hide Be32;
    v := Load32(mem, at + i);
    SliceOfSlice(mem[..], at, n, i, 4);
  }

  /** Sets a header word of the blob at `at`. */
  method SetWordAt(mem: array<byte>, at: int, ghost n: int, i: int, v: u32)
    requires 0 <= at && HEADER <= n && at + n <= mem.Length && (i == 4 || i == 12)
    modifies mem
    ensures var b, d := Window(old(mem[..]), at, n), Window(mem[..], at, n);
      && Hdr(d) == (if i == 4 then Hdr(b).(totalsize := v) else Hdr(b).(offStrings := v))
      && d[HEADER..] == b[HEADER..]
    ensures mem[..at] == old(mem[..at]) && mem[at + n..] == old(mem[at + n..])
  {
    hide Hdr, Enc32;
    ghost var m := mem[..];
    Store32(mem, at + i, v);
    PutInside(m, at, n, i, Enc32(v));
    PutHeader(Window(m, at, n), i, v);
    hide Put;
    assert m[..at] == mem[..][..at];
    assert m[at + n..] == mem[..][at + n..];
  }

  lemma CopiedHead(m: bytes, d: bytes, fdt: int, total: int, buf: int, bufsize: int, headsize: int, tailsize: int)
    requires 0 <= fdt && 0 <= total && fdt + total <= |m| && 0 <= buf && 0 <= bufsize && buf + bufsize <= |m| == |d|
    requires HEADER <= headsize && 0 <= tailsize && headsize + tailsize <= total && headsize + tailsize <= bufsize
    requires d[buf..buf + headsize] == m[fdt..fdt + headsize]
    requires d[buf + bufsize - tailsize..buf + bufsize] == m[fdt + total - tailsize..fdt + total]
    ensures var b, e := Window(m, fdt, total), Window(d, buf, bufsize);
      && Hdr(e) == Hdr(b) && e[HEADER..headsize] == b[HEADER..headsize]
      && e[bufsize - tailsize..bufsize] == b[total - tailsize..total]
  {
    hide Hdr;
    var b, e := Window(m, fdt, total), Window(d, buf, bufsize);
    SliceOfSlice(m, fdt, total, 0, headsize);
    SliceOfSlice(d, buf, bufsize, 0, headsize);
    SliceOfSlice(b, 0, headsize, 0, HEADER);
    SliceOfSlice(e, 0, headsize, 0, HEADER);
    SliceOfSlice(b, 0, headsize, HEADER, headsize - HEADER);
    SliceOfSlice(e, 0, headsize, HEADER, headsize - HEADER);
    HeaderPrefix(b, e);
    SliceOfSlice(m, fdt, total, total - tailsize, tailsize);
    SliceOfSlice(d, buf, bufsize, bufsize - tailsize, tailsize);
  }

  // ---------- fdt_pack ----------

  /** The reserve map, terminator included, ends before the structure block. */
  predicate ReserveFits(b: bytes) {
    && Ready(b)
    && var n := NumRsv(b, Hdr(b), 0);
       n >= 0 && Hdr(b).offRsv + (n + 1) * RSV_ENTRY <= Hdr(b).offStruct
  }

  /** The bytes of the reserve map. */
  function RsvBytes(b: bytes): bytes
    requires ReserveFits(b)
  {
    b[Hdr(b).offRsv..Hdr(b).offRsv + (NumRsv(b, Hdr(b), 0) + 1) * RSV_ENTRY]
  }

  /** Three blocks moved down to `HEADER`, one behind the other, none clobbering a later one. */
  lemma PackedBlocks(b: bytes, r: bytes, s: bytes, t: bytes, o1: int, o2: int, o3: int)
    requires HEADER <= o1 && o1 + |r| <= o2 && o2 + |s| <= o3 && o3 + |t| <= |b|
    requires b[o1..o1 + |r|] == r && b[o2..o2 + |s|] == s && b[o3..o3 + |t|] == t
    ensures var d1 := Put(b, HEADER, r);
            && d1[o2..o2 + |s|] == s && d1[o3..o3 + |t|] == t
            && var d2 := Put(d1, HEADER + |r|, s);
               && d2[o3..o3 + |t|] == t
               && Laid(Put(d2, HEADER + |r| + |s|, t), r, HEADER + |r|, s, t)
  {
    hide Put;
    var d1 := Put(b, HEADER, r);
    var d2 := Put(d1, HEADER + |r|, s);
    var d3 := Put(d2, HEADER + |r| + |s|, t);
    PutReads(b, HEADER, r);
    PutApart(b, HEADER, r, o2, o2 + |s|);
    PutApart(b, HEADER, r, o3, o3 + |t|);
    PutReads(d1, HEADER + |r|, s);
    PutApart(d1, HEADER + |r|, s, o3, o3 + |t|);
    PutApart(d1, HEADER + |r|, s, HEADER, HEADER + |r|);
    PutReads(d2, HEADER + |r| + |s|, t);
    PutApart(d2, HEADER + |r| + |s|, t, HEADER, HEADER + |r|);
    PutApart(d2, HEADER + |r| + |s|, t, HEADER + |r|, HEADER + |r| + |s|);
  }

  /** The three copies of `fdt_packblocks_`. */
  method MovePacked(fdt: array<byte>, h: Header, rsvSize: int, ghost r: bytes, ghost s: bytes, ghost t: bytes)
    requires fdt.Length >= HEADER && h == Hdr(fdt[..])
    requires rsvSize == |r| && h.sizeStruct == |s| && h.sizeStrings == |t|
    requires HEADER <= h.offRsv && h.offRsv + rsvSize <= h.offStruct && h.offStruct + |s| <= h.offStrings && h.offStrings + |t| <= fdt.Length
    requires fdt[..][h.offRsv..h.offRsv + rsvSize] == r && fdt[..][h.offStruct..h.offStruct + |s|] == s
    requires fdt[..][h.offStrings..h.offStrings + |t|] == t
    modifies fdt
    ensures Hdr(fdt[..]) == h && Laid(fdt[..], r, HEADER + rsvSize, s, t)
  {
    hide Hdr, Put, Laid;
    ghost var b := fdt[..];
    PackedBlocks(b, r, s, t, h.offRsv, h.offStruct, h.offStrings);
    MemMove(fdt, HEADER, h.offRsv, rsvSize);
    SpliceHeader(b, fdt[..], HEADER, r);
    ghost var d1 := fdt[..];
    MemMove(fdt, HEADER + rsvSize, h.offStruct, h.sizeStruct);
    SpliceHeader(d1, fdt[..], HEADER + rsvSize, s);
    ghost var d2 := fdt[..];
    MemMove(fdt, HEADER + rsvSize + h.sizeStruct, h.offStrings, h.sizeStrings);
    SpliceHeader(d2, fdt[..], HEADER + rsvSize + h.sizeStruct, t);
  }

  /** The header updates of `fdt_packblocks_` and `fdt_pack`. */
  method SetPacked(fdt: array<byte>, h: Header, rsvSize: int)
    requires fdt.Length >= HEADER && Hdr(fdt[..]) == h && 0 <= rsvSize
    requires HEADER + rsvSize + h.sizeStruct + h.sizeStrings <= INT_MAX
    modifies fdt
    ensures fdt[..][HEADER..] == old(fdt[..])[HEADER..]
    ensures Hdr(fdt[..]) == h.(offRsv := HEADER, offStruct := HEADER + rsvSize, offStrings := HEADER + rsvSize + h.sizeStruct,
                               totalsize := HEADER + rsvSize + h.sizeStruct + h.sizeStrings)
  {
    hide Hdr, Put, Enc32;
    ghost var d := fdt[..];
    SetHeaderWord(fdt, 16, HEADER);
    SetHeaderWord(fdt, 8, HEADER + rsvSize);
    SetHeaderWord(fdt, 36, h.sizeStruct);
    SetHeaderWord(fdt, 12, HEADER + rsvSize + h.sizeStruct);
    SetHeaderWord(fdt, 32, h.sizeStrings);
    SetHeaderWord(fdt, 4, HEADER + rsvSize + h.sizeStruct + h.sizeStrings);
    assert fdt[..][HEADER..] == d[HEADER..];
  }

  /**
   `fdt_pack`: the three blocks keep their bytes and close up behind the header, and the
   total size becomes exactly what they take.
   */
  method Pack(fdt: array<byte>) returns (err: int)
    requires Wellformed(fdt[..]) && (Ready(fdt[..]) ==> ReserveFits(fdt[..]))
    modifies fdt
    ensures !Ready(old(fdt[..])) ==> err == RwProbe(Hdr(old(fdt[..]))) != 0 && fdt[..] == old(fdt[..])
    ensures Ready(old(fdt[..])) ==>
      var b, d := old(fdt[..]), fdt[..];
      && err == 0 && Ready(d)
      && StructOf(d) == StructOf(b) && StringsOf(d) == StringsOf(b) && FrontOf(d) == RsvBytes(b)
      && Hdr(d).offRsv == HEADER && Hdr(d).bootCpu == Hdr(b).bootCpu
      && Hdr(d).totalsize == HEADER + |RsvBytes(b)| + |StructOf(b)| + |StringsOf(b)|
  {
    hide Hdr, Put, Enc32, NumRsv, Laid, CheckHeader, RwProbe;
    ghost var b := fdt[..];
    ProbeAccepts(b);
    err := ProbeRw(fdt);
    if err != 0 {
      return;
    }
    ghost var b1 := fdt[..];
    ghost var r, s, t := RsvBytes(b), StructOf(b), StringsOf(b);
    var h := LoadHeader(fdt);
    ProbedBlocks(b, b1);
    var n := ReadNumRsv(fdt, h);
    var rsvSize := (n + 1) * RSV_ENTRY;
    MovePacked(fdt, h, rsvSize, r, s, t);
    ghost var d := fdt[..];
    SetPacked(fdt, h, rsvSize);
    PackedHeader(b, b1, d, fdt[..], h);
  }

  /** Blocks laid out and header adjusted: the packed blob. */
  lemma PackedHeader(b: bytes, b1: bytes, d: bytes, e: bytes, h: Header)
    requires ReserveFits(b) && Edited(b, b1, StructOf(b), StringsOf(b)) && h == Hdr(b1) && |e| == |d| >= HEADER
    requires var n := HEADER + |RsvBytes(b)|;
      && Laid(d, RsvBytes(b), n, StructOf(b), StringsOf(b)) && e[HEADER..] == d[HEADER..]
      && n + h.sizeStruct + h.sizeStrings <= INT_MAX
      && Hdr(e) == h.(offRsv := HEADER, offStruct := n, offStrings := n + h.sizeStruct,
                      totalsize := n + h.sizeStruct + h.sizeStrings)
    ensures Ready(e) && StructOf(e) == StructOf(b) && StringsOf(e) == StringsOf(b) && FrontOf(e) == RsvBytes(b)
    ensures Hdr(e).bootCpu == Hdr(b).bootCpu
    ensures Hdr(e).totalsize == HEADER + |RsvBytes(b)| + |StructOf(b)| + |StringsOf(b)|
  {
    hide Hdr, Laid, Put, NumRsv;
    var r, s, t := RsvBytes(b), StructOf(b), StringsOf(b);
    FrontKept(b, b1);
    ReserveSpan(b);
    hide RsvBytes, ReserveFits, Edited, FrontOf;
    LaidHeader(d, e, r, HEADER + |r|, s, t);
    PackedReady(e, r, s, t);
  }

  /** The probe moves nothing. */
  lemma ProbedBlocks(b: bytes, d: bytes)
    requires ReserveFits(b) && Edited(b, d, StructOf(b), StringsOf(b))
    ensures var h, g := Hdr(b), Hdr(d);
      && g.(version := 17) == h.(version := 17) && Ready(d) && |d| == |b| && g.totalsize >= RSV_ENTRY
      && NumRsv(d, g, 0) == NumRsv(b, h, 0)
      && |RsvBytes(b)| == (NumRsv(b, h, 0) + 1) * RSV_ENTRY && h.offRsv + |RsvBytes(b)| <= h.offStruct
      && d[h.offRsv..h.offRsv + |RsvBytes(b)|] == RsvBytes(b)
      && StructOf(d) == StructOf(b) && StringsOf(d) == StringsOf(b)
  {
    hide Hdr, NumRsv;
    FrontKept(b, d);
    hide Edited, StructOf, StringsOf, FrontOf;
    var h := Hdr(b);
    ReserveSpan(b);
    hide Ready, ReserveFits, RsvBytes;
    AgreeWithin(b, d, HEADER, h.offStruct, h.offRsv, h.offRsv + |RsvBytes(b)|);
    NumRsvSame(b, d, h, Hdr(d), 0);
  }

  /** The probe keeps everything in front of the structure block. */
  lemma FrontKept(b: bytes, d: bytes)
    requires Ready(b) && Edited(b, d, StructOf(b), StringsOf(b))
    ensures var h, g := Hdr(b), Hdr(d);
      && g.(version := 17) == h.(version := 17) && Ready(d) && |d| == |b|
      && StructOf(d) == StructOf(b) && StringsOf(d) == StringsOf(b)
      && d[HEADER..h.offStruct] == b[HEADER..h.offStruct]
  {
    hide Hdr;
    assert b[HEADER..Hdr(b).offStruct] == FrontOf(b) && d[HEADER..Hdr(d).offStruct] == FrontOf(d);
  }

  lemma ReserveSpan(b: bytes)
    requires ReserveFits(b)
    ensures var h := Hdr(b);
            var n := NumRsv(b, h, 0);
      && n >= 0 && HEADER <= h.offRsv && h.offRsv + (n + 1) * RSV_ENTRY <= h.offStruct <= h.totalsize <= |b|
      && RsvBytes(b) == b[h.offRsv..h.offRsv + (n + 1) * RSV_ENTRY]
      && |RsvBytes(b)| == (n + 1) * RSV_ENTRY
  {
    hide Hdr, NumRsv;
  }

  /** The reserve map is counted in its own bytes. */
  lemma {:induction false} NumRsvSame(b: bytes, d: bytes, h: Header, g: Header, i: nat)
    requires |b| >= HEADER && RSV_ENTRY <= h.totalsize <= |b| && |d| == |b|
    requires g.totalsize == h.totalsize && g.offRsv == h.offRsv && HEADER <= h.offRsv
    requires var n := NumRsv(b, h, i);
             n >= 0 && h.offRsv + (n + 1) * RSV_ENTRY <= h.offStruct <= |b|
    requires d[HEADER..h.offStruct] == b[HEADER..h.offStruct]
    ensures NumRsv(d, g, i) == NumRsv(b, h, i)
    decreases h.totalsize - i
  {
    NumRsvBeyond(b, h, i);
    var at := h.offRsv + i * RSV_ENTRY;
    AgreeWithin(b, d, HEADER, h.offStruct, at + 8, at + 16);
    if b[at + 8..at + 16] != [0, 0, 0, 0, 0, 0, 0, 0] {
      NumRsvSame(b, d, h, g, i + 1);
    }
  }

  lemma {:induction false} NumRsvBeyond(b: bytes, h: Header, i: nat)
    requires |b| >= HEADER && RSV_ENTRY <= h.totalsize <= |b|
    requires NumRsv(b, h, i) >= 0
    ensures NumRsv(b, h, i) >= i
    decreases h.totalsize - i
  {
    var at := h.offRsv + i * RSV_ENTRY;
    if b[at + 8..at + 16] != [0, 0, 0, 0, 0, 0, 0, 0] {
      NumRsvBeyond(b, h, i + 1);
    }
  }

  lemma PackedReady(d: bytes, r: bytes, s: bytes, t: bytes)
    requires |d| >= HEADER && |r| >= RSV_ENTRY && Laid(d, r, HEADER + |r|, s, t)
    requires var h := Hdr(d);
             && h.magic == MAGIC && h.version >= 17 && h.lastComp <= LAST_VERSION && h.offRsv == HEADER
             && h.offStruct == HEADER + |r| && h.sizeStruct == |s| && h.sizeStrings == |t| && h.offStrings == h.offStruct + |s|
             && h.totalsize == h.offStrings + |t| < INT_MAX
    ensures Ready(d) && StructOf(d) == s && StringsOf(d) == t && FrontOf(d) == r
  {
    hide Hdr;
  }

  // ---------- The reserve map read back ----------

  /** `fdt64_ld`. */
  function U64(s: bytes, i: int): (v: u64)
    requires 0 <= i && i + 8 <= |s|
  {
    U32(s, i) * 0x1_0000_0000 + U32(s, i + 4)
  }

  /** `fdt_get_mem_rsv`. */
  function GetRsv(b: bytes, n: nat): Option<Reserve>
    requires Sized(b) && Hdr(b).totalsize >= RSV_ENTRY
  {
    var at := Hdr(b).offRsv + n * RSV_ENTRY;
    if at > Hdr(b).totalsize - RSV_ENTRY then None
    else Some(Reserve(U64(b, at), U64(b, at + 8)))
  }

  lemma Decode64(s: bytes, i: int, v: u64)
    requires 0 <= i && i + 8 <= |s| && s[i..i + 8] == Enc64(v)
    ensures U64(s, i) == v
  {
    hide Enc32, Be32;
    var hi, lo := v / 0x1_0000_0000, v % 0x1_0000_0000;
    SliceOfSlice(s, i, 8, 0, 4);
    SliceOfSlice(s, i, 8, 4, 4);
    DecodeEncode32(hi);
    DecodeEncode32(lo);
  }

  /** The bytes of entry `i` of an encoded list. */
  lemma {:induction false} ReserveBytes(rs: seq<Reserve>, i: nat)
    requires i < |rs|
    ensures EncReserves(rs)[i * RSV_ENTRY..(i + 1) * RSV_ENTRY] == EncReserve(rs[i])
    decreases |rs|
  {
    hide EncReserve;
    var k := |rs| - 1;
    if i < k {
      ReserveBytes(rs[..k], i);
      assert EncReserves(rs[..k])[i * RSV_ENTRY..(i + 1) * RSV_ENTRY] == EncReserves(rs)[i * RSV_ENTRY..(i + 1) * RSV_ENTRY];
    }
  }

  lemma ReserveAt(b: bytes, rs: seq<Reserve>, i: nat)
    requires Mapped(b, rs) && i < |rs|
    ensures var at := Hdr(b).offRsv + i * RSV_ENTRY;
      && at + RSV_ENTRY <= Hdr(b).offStruct
      && b[at..at + 8] == Enc64(rs[i].address) && b[at + 8..at + 16] == Enc64(rs[i].size)
  {
    hide Hdr, Enc64, EncReserves, EncReserve;
    var o, p := Hdr(b).offRsv, Hdr(b).offStruct;
    assert b[o..p] == EncReserves(rs) && o <= p <= |b|;
    hide Ready;
    ReserveBytes(rs, i);
    EntryWithin(|rs|, i);
    SliceOfSlice(b, o, p - o, i * RSV_ENTRY, RSV_ENTRY);
    ReserveHalves(b, o + i * RSV_ENTRY, rs[i]);
  }

  lemma ReserveHalves(b: bytes, at: int, r: Reserve)
    requires 0 <= at && at + RSV_ENTRY <= |b| && b[at..at + RSV_ENTRY] == EncReserve(r)
    ensures b[at..at + 8] == Enc64(r.address) && b[at + 8..at + 16] == Enc64(r.size)
  {
    hide Enc64;
    SliceOfSlice(b, at, RSV_ENTRY, 0, 8);
    SliceOfSlice(b, at, RSV_ENTRY, 8, 8);
  }

  lemma EntryWithin(n: nat, i: nat)
    requires i < n
    ensures (i + 1) * RSV_ENTRY <= n * RSV_ENTRY
  {
  }

  lemma ZeroSize(v: u64)
    ensures Enc64(v) == [0, 0, 0, 0, 0, 0, 0, 0] <==> v == 0
  {
    hide Enc32, Be32;
    var hi, lo := v / 0x1_0000_0000, v % 0x1_0000_0000;
    DecodeEncode32(hi);
    DecodeEncode32(lo);
    DecodeEncode32(0);
    ZeroWord();
    if Enc64(v) == [0, 0, 0, 0, 0, 0, 0, 0] {
      assert Enc32(hi) == Enc64(v)[..4] == [0, 0, 0, 0];
      assert Enc32(lo) == Enc64(v)[4..] == [0, 0, 0, 0];
    }
  }

  lemma ZeroWord()
    ensures Enc32(0) == [0, 0, 0, 0]
  {
  }

  /**
   The reserve entries that were added, all of nonzero size, are counted and read back
   from a blob whose map is those entries and the terminator.
   */
  lemma {:induction false} ReservesReadBack(b: bytes, rs: seq<Reserve>, i: nat)
    requires Mapped(b, rs + [Reserve(0, 0)])
    requires forall k :: 0 <= k < |rs| ==> rs[k].size != 0
    requires i <= |rs|
    ensures NumRsv(b, Hdr(b), i) == |rs|
    ensures i < |rs| ==> GetRsv(b, i) == Some(rs[i])
    decreases |rs| - i
  {
    hide Hdr, Enc64, EncReserves;
    var all := rs + [Reserve(0, 0)];
    ReserveAt(b, all, i);
    ZeroSize(all[i].size);
    var at := Hdr(b).offRsv + i * RSV_ENTRY;
    Decode64(b, at, all[i].address);
    Decode64(b, at + 8, all[i].size);
    if i < |rs| {
      ReservesReadBack(b, rs, i + 1);
    }
  }

  /** Packing a blob whose map is `rs` and the terminator keeps that map, in front of everything else. */
  lemma PackedMap(b: bytes, d: bytes, rs: seq<Reserve>)
    requires Mapped(b, rs + [Reserve(0, 0)]) && forall k :: 0 <= k < |rs| ==> rs[k].size != 0
    ensures ReserveFits(b)
    ensures Ready(d) && Hdr(d).offRsv == HEADER && FrontOf(d) == RsvBytes(b) ==> Mapped(d, rs + [Reserve(0, 0)])
  {
    hide Hdr, EncReserves, NumRsv;
    ReservesReadBack(b, rs, 0);
  }
}
