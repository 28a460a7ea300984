/** Start and end of the sequential writer (fdt_sw.c), and the round trip through the reader. */
module Finish {
  import opened Options
  import opened Bytes
  import opened Structure
  import opened Blob
  import opened Buffer
  import opened Walk
  import opened Read
  import opened Meaning
  import opened Core
  import opened Edit
  import opened Writer

  // ---------- The reserve map ----------

  type u64 = x: int | 0 <= x < 0x1_0000_0000_0000_0000

  datatype Reserve = Reserve(address: u64, size: u64)

  /** `cpu_to_fdt64`. */
  function Enc64(v: u64): (w: bytes)
    ensures |w| == 8
  {
    Enc32(v / 0x1_0000_0000) + Enc32(v % 0x1_0000_0000)
  }

  function EncReserve(e: Reserve): (w: bytes)
    ensures |w| == RSV_ENTRY
  {
    Enc64(e.address) + Enc64(e.size)
  }

  function EncReserves(rs: seq<Reserve>): (w: bytes)
    ensures |w| == |rs| * RSV_ENTRY
  {
    if rs == [] then [] else EncReserves(rs[..|rs| - 1]) + EncReserve(rs[|rs| - 1])
  }

  lemma EncReservesMore(rs: seq<Reserve>, e: Reserve)
    ensures EncReserves(rs + [e]) == EncReserves(rs) + EncReserve(e)
  {
    assert (rs + [e])[..|rs|] == rs;
  }

  /** The reserve map written so far. */
  ghost predicate Reserved(b: bytes, rs: seq<Reserve>) {
    Unfinished(b) && b[FRONT..Hdr(b).offStruct] == EncReserves(rs)
  }

  /** The reserve map of a finished blob, up to the structure block. */
  ghost predicate Mapped(d: bytes, rs: seq<Reserve>) {
    Ready(d) && HEADER <= Hdr(d).offRsv <= Hdr(d).offStruct && d[Hdr(d).offRsv..Hdr(d).offStruct] == EncReserves(rs)
  }

  /** What lies in front of the structure block includes the reserve map. */
  lemma FrontMapped(b: bytes, d: bytes, rs: seq<Reserve>)
    requires Reserved(b, rs) && Ready(d) && Hdr(d).offRsv == FRONT
    requires FrontOf(d) == b[HEADER..Hdr(b).offStruct]
    ensures Mapped(d, rs)
  {
    hide Hdr, EncReserves;
    var p, q := Hdr(b).offStruct, Hdr(d).offStruct;
    assert |FrontOf(d)| == q - HEADER == p - HEADER;
    SamePart(b, HEADER, d, HEADER, p - HEADER, FRONT - HEADER, p - FRONT);
  }

  method SetHeaderWord(fdt: array<byte>, i: int, v: u32)
    requires fdt.Length >= HEADER && 0 <= i <= 36 && i % 4 == 0
    modifies fdt
    ensures fdt[..] == Put(old(fdt[..]), i, Enc32(v))
    ensures fdt[HEADER..] == old(fdt[HEADER..])
    ensures var h, g := Hdr(old(fdt[..])), Hdr(fdt[..]);
            g == if i == 0 then h.(magic := v)
                 else if i == 4 then h.(totalsize := v)
                 else if i == 8 then h.(offStruct := v)
                 else if i == 12 then h.(offStrings := v)
                 else if i == 16 then h.(offRsv := v)
                 else if i == 20 then h.(version := v)
                 else if i == 24 then h.(lastComp := v)
                 else if i == 28 then h.(bootCpu := v)
                 else if i == 32 then h.(sizeStrings := v)
                 else h.(sizeStruct := v)
  {
    hide Hdr, Put, Enc32;
    PutHeader(fdt[..], i, v);
    Store32(fdt, i, v);
    assert fdt[HEADER..] == fdt[..][HEADER..];
  }

  /** `fdt_create_with_flags`; flag 1 turns the sharing of names off. */
  method Create(fdt: array<byte>, flags: u32) returns (err: int)
    requires fdt.Length <= INT_MAX
    modifies fdt
    ensures err == if fdt.Length < FRONT then -ERR_NOSPACE else if flags > 1 then -ERR_BADFLAGS else 0
    ensures err != 0 ==> fdt[..] == old(fdt[..])
    ensures err == 0 ==> InReserve(fdt[..]) && Reserved(fdt[..], []) && Hdr(fdt[..]).lastComp == flags
                         && Hdr(fdt[..]).totalsize == fdt.Length && Hdr(fdt[..]).offStruct == FRONT && Blank(fdt[..])
  {
    hide Put, Enc32;
    if fdt.Length < FRONT {
      return -ERR_NOSPACE;
    }
    if flags > 1 {
      return -ERR_BADFLAGS;
    }
    forall k | 0 <= k < fdt.Length {
      fdt[k] := 0;
    }
    ZeroHeader(fdt[..]);
    hide Hdr;
    ghost var z := fdt[..];
    SetCreated(fdt, flags);
    assert fdt[..][HEADER..] == z[HEADER..];
    SameBehind(z, fdt[..]);
    err := 0;
  }

  /** The header of a blob without content. */
  method SetCreated(fdt: array<byte>, flags: u32)
    requires HEADER <= fdt.Length <= INT_MAX && Hdr(fdt[..]) == Header(0, 0, 0, 0, 0, 0, 0, 0, 0, 0)
    modifies fdt
    ensures Hdr(fdt[..]) == Header(SW_MAGIC, fdt.Length, FRONT, 0, FRONT, LAST_VERSION, flags, 0, 0, 0)
    ensures fdt[HEADER..] == old(fdt[HEADER..])
  {
    hide Hdr, Put, Enc32;
    SetHeaderWord(fdt, 0, SW_MAGIC);
    SetHeaderWord(fdt, 20, LAST_VERSION);
    SetHeaderWord(fdt, 24, flags);
    SetHeaderWord(fdt, 4, fdt.Length);
    SetHeaderWord(fdt, 16, FRONT);
    SetHeaderWord(fdt, 8, FRONT);
    SetHeaderWord(fdt, 12, 0);
  }

  lemma ZeroHeader(b: bytes)
    requires |b| >= HEADER && forall k :: 0 <= k < |b| ==> b[k] == 0
    ensures Hdr(b) == Header(0, 0, 0, 0, 0, 0, 0, 0, 0, 0)
  {
    forall i | 0 <= i <= 36
      ensures U32(b, i) == 0
    {
      assert b[i..i + 4] == [0, 0, 0, 0];
    }
  }

  /** `fdt_add_reservemap_entry`. */
  method AddReserve(fdt: array<byte>, e: Reserve, ghost rs: seq<Reserve>) returns (err: int)
    requires Sized(fdt[..])
    requires SwProbe(Hdr(fdt[..]), 0) == 0 ==> InReserve(fdt[..]) && Reserved(fdt[..], rs)
    modifies fdt
    ensures var b := old(fdt[..]);
      && err == (if SwProbe(Hdr(b), 0) != 0 then SwProbe(Hdr(b), 0)
                 else if Hdr(b).offStruct + RSV_ENTRY > Hdr(b).totalsize then -ERR_NOSPACE else 0)
      && (err != 0 ==> fdt[..] == b)
      && (err == 0 ==> InReserve(fdt[..]) && Reserved(fdt[..], rs + [e])
                       && Hdr(fdt[..]) == Hdr(b).(offStruct := Hdr(b).offStruct + RSV_ENTRY)
                       && (Blank(b) ==> Blank(fdt[..])))
  {
    hide Hdr, Put, Enc64, EncReserves;
    ghost var b := fdt[..];
    var h := LoadHeader(fdt);
    err := SwProbe(h, 0);
    if err != 0 {
      return;
    }
    if h.offStruct + RSV_ENTRY > h.totalsize {
      return -ERR_NOSPACE;
    }
    MemCpy(fdt, h.offStruct, EncReserve(e));
    ghost var m := fdt[..];
    SetHeaderWord(fdt, 8, h.offStruct + RSV_ENTRY);
    assert fdt[..][HEADER..] == m[HEADER..];
    ReserveAdded(b, m, fdt[..], e, rs);
    GapPut(b, fdt[..], h.offStruct, EncReserve(e));
    if Blank(b) {
      LessBlank(b, fdt[..]);
    }
  }

  lemma LessBlank(b: bytes, d: bytes)
    requires Blank(b) && GapSame(b, d) && Hdr(d).offStruct + Hdr(d).sizeStruct >= Hdr(b).offStruct + Hdr(b).sizeStruct
    requires Hdr(d).totalsize == Hdr(b).totalsize && Hdr(d).sizeStrings >= Hdr(b).sizeStrings
    ensures Blank(d)
  {
    hide Hdr;
  }

  lemma ReserveAdded(b: bytes, m: bytes, d: bytes, e: Reserve, rs: seq<Reserve>)
    requires InReserve(b) && Reserved(b, rs) && Hdr(b).offStruct + RSV_ENTRY <= Hdr(b).totalsize
    requires m == Put(b, Hdr(b).offStruct, EncReserve(e))
    requires |d| == |m| && d[HEADER..] == m[HEADER..]
    requires Hdr(d) == Hdr(m).(offStruct := Hdr(b).offStruct + RSV_ENTRY)
    ensures InReserve(d) && Reserved(d, rs + [e])
    ensures Hdr(d) == Hdr(b).(offStruct := Hdr(b).offStruct + RSV_ENTRY)
  {
    hide Hdr, EncReserve, EncReserves;
    var h := Hdr(b);
    var w := EncReserve(e);
    SpliceHeader(b, m, h.offStruct, w);
    PutReads(b, h.offStruct, w);
    PutApart(b, h.offStruct, w, FRONT, h.offStruct);
    TailSlice(m, d, FRONT, h.offStruct + RSV_ENTRY);
    hide Put;
    assert m[FRONT..h.offStruct + |w|] == m[FRONT..h.offStruct] + m[h.offStruct..h.offStruct + |w|];
    EncReservesMore(rs, e);
  }

  /** `fdt_finish_reservemap`: terminates the reserve map and opens the structure block. */
  method FinishReserve(fdt: array<byte>, ghost rs: seq<Reserve>) returns (err: int)
    requires Sized(fdt[..])
    requires SwProbe(Hdr(fdt[..]), 0) == 0 ==> InReserve(fdt[..]) && Reserved(fdt[..], rs)
    modifies fdt
    ensures var b := old(fdt[..]);
      && err == (if SwProbe(Hdr(b), 0) != 0 then SwProbe(Hdr(b), 0)
                 else if Hdr(b).offStruct + RSV_ENTRY > Hdr(b).totalsize then -ERR_NOSPACE else 0)
      && (err != 0 ==> fdt[..] == b)
      && (err == 0 ==> InStruct(fdt[..]) && Written(fdt[..], []) && Reserved(fdt[..], rs + [Reserve(0, 0)])
                       && Hdr(fdt[..]) == Hdr(b).(offStruct := Hdr(b).offStruct + RSV_ENTRY, offStrings := Hdr(b).totalsize)
                       && (Blank(b) ==> Neat(fdt[..], [])))
  {
    hide Hdr, Put, EncReserves;
    err := AddReserve(fdt, Reserve(0, 0), rs);
    if err != 0 {
      return;
    }
    ghost var d := fdt[..];
    var h := LoadHeader(fdt);
    SetHeaderWord(fdt, 12, h.totalsize);
    assert fdt[..][HEADER..] == d[HEADER..];
    TailSlice(d, fdt[..], FRONT, h.offStruct);
    assert Spelled(fdt[..], [], []);
    SameBehind(d, fdt[..]);
    assert StructOf(fdt[..]) == [] == EncTokens([]);
  }

  // ---------- Relocating the names ----------

  /** A token whose name offset is counted from the start of strings of `n` bytes. */
  function Shifted(k: Token, n: int): Token {
    match k
    case Plain(Prop(off, val)) =>
      if 0x1_0000_0000 - n <= off && 0 <= n <= INT_MAX then Plain(Prop(off - (0x1_0000_0000 - n), val)) else k
    case _ => k
  }

  function ShiftAll(ks: seq<Token>, n: int): (r: seq<Token>)
    ensures |r| == |ks|
    ensures forall i :: 0 <= i < |ks| ==> r[i] == Shifted(ks[i], n)
  {
    if ks == [] then [] else [Shifted(ks[0], n)] + ShiftAll(ks[1..], n)
  }

  lemma {:induction false} SpellsMove(s: bytes, o: int, t: bytes, p: int, ks: seq<Token>)
    requires Spells(s, o, ks) && Same(s, o, t, p, Length(ks))
    ensures Spells(t, p, ks)
    decreases |ks|
  {
    hide TokenAt, TokenSize;
    if ks != [] {
      SpellsFits(s, o, ks);
      var n := TokenSize(ks[0]);
      SpellsFits(s, o + n, ks[1..]);
      SamePart(s, o, t, p, Length(ks), 0, n);
      TokenMove(s, o, t, p, ks[0]);
      SamePart(s, o, t, p, Length(ks), n, Length(ks[1..]));
      SpellsMove(s, o + n, t, p + n, ks[1..]);
    }
  }

  /** Spelled tokens read one after the other by `fdt_next_tag`. */
  lemma ReadToken(s: bytes, o: int, k: Token)
    requires TokenAt(s, o, k) && o % 4 == 0
    ensures NextTag(s, o) == (match k
                              case Begin(_) => BEGIN_NODE
                              case EndNode => END_NODE
                              case Plain(e) => if e.Nop? then NOP else PROP, o + TokenSize(k))
  {
    match k
    case Begin(name) => ReadHead(s, o, name);
    case EndNode => ReadTag(s, o, END_NODE);
    case Plain(e) => ReadEntry(s, o, e);
  }

  /** The name offset of a property rewritten in place. */
  lemma Renamed(s: bytes, p: int, off: u32, val: bytes, new_: u32)
    requires EntryAt(s, p, Prop(off, val))
    ensures EntryAt(Put(s, p + 8, Enc32(new_)), p, Prop(new_, val))
  {
    hide Be32, Enc32, Put;
    PutWord(s, p + 8, new_, p);
    PutWord(s, p + 8, new_, p + 4);
    PutWord(s, p + 8, new_, p + 8);
    PutApart(s, p + 8, Enc32(new_), p + 12, p + 12 + |val|);
  }

  /** Loop state of the relocation: the first `i` tokens are shifted, the rest are as written. */
  ghost predicate Halfway(s: bytes, ks: seq<Token>, i: int, n: int) {
    && 0 <= i <= |ks|
    && Spells(s, 0, ShiftAll(ks[..i], n))
    && Spells(s, Length(ShiftAll(ks[..i], n)), ks[i..])
  }

  lemma HalfwayStart(s: bytes, ks: seq<Token>, n: int)
    requires Spells(s, 0, ks)
    ensures Halfway(s, ks, 0, n) && Length(ShiftAll(ks[..0], n)) == 0
  {
    assert ks[0..] == ks;
  }

  lemma ShiftAllMore(ks: seq<Token>, i: int, n: int)
    requires 0 <= i < |ks|
    ensures ShiftAll(ks[..i + 1], n) == ShiftAll(ks[..i], n) + [Shifted(ks[i], n)]
  {
  }

  lemma ShiftedSize(k: Token, n: int)
    ensures TokenSize(Shifted(k, n)) == TokenSize(k)
  {
  }

  /** One round: token `i` is shifted, `s` becoming `t`, which differs from it in that token only. */
  lemma HalfwayStep(s: bytes, t: bytes, ks: seq<Token>, i: int, n: int)
    requires Halfway(s, ks, i, n) && i < |ks| && |t| == |s|
    requires var o := Length(ShiftAll(ks[..i], n));
             && TokenAt(t, o, Shifted(ks[i], n))
             && Spliced(s, t, o, o + TokenSize(ks[i]), o + TokenSize(ks[i]))
    ensures Halfway(t, ks, i + 1, n)
    ensures Length(ShiftAll(ks[..i + 1], n)) == Length(ShiftAll(ks[..i], n)) + TokenSize(ks[i])
  {
    hide TokenAt, TokenSize, ShiftAll, Shifted;
    var done, k := ShiftAll(ks[..i], n), ks[i];
    var o, m := Length(done), TokenSize(ks[i]);
    ShiftedSize(k, n);
    ShiftAllMore(ks, i, n);
    SpellsMove(s, 0, t, 0, done);
    SpellsMore(t, t, 0, done, Shifted(k, n));
    assert ks[i..][1..] == ks[i + 1..];
    SpellsFits(s, o + m, ks[i + 1..]);
    SamePart(s, o + m, t, o + m, |s| - o - m, 0, Length(ks[i + 1..]));
    SpellsMove(s, o + m, t, o + m, ks[i + 1..]);
  }

  // ---------- fdt_finish ----------

  /** Where the parts of the blob stand: front `f`, structure block `s` at `off`, strings `u` right behind it. */
  ghost predicate Laid(d: bytes, f: bytes, off: int, s: bytes, u: bytes) {
    && HEADER <= off && off + |s| + |u| <= |d|
    && d[HEADER..off] == f
    && d[off..off + |s|] == s
    && d[off + |s|..off + |s| + |u|] == u
  }

  lemma LaidHeader(d: bytes, e: bytes, f: bytes, off: int, s: bytes, u: bytes)
    requires Laid(d, f, off, s, u) && |e| == |d| && e[HEADER..] == d[HEADER..]
    ensures Laid(e, f, off, s, u)
  {
    TailSlice(d, e, HEADER, off);
    TailSlice(d, e, off, off + |s|);
    TailSlice(d, e, off + |s|, off + |s| + |u|);
  }

  lemma LaidPut(d: bytes, f: bytes, off: int, s: bytes, u: bytes, o: int, w: bytes)
    requires Laid(d, f, off, s, u) && 0 <= o && o + |w| <= |s|
    ensures Laid(Put(d, off + o, w), f, off, Put(s, o, w), u)
    ensures Hdr(Put(d, off + o, w)) == Hdr(d)
  {
    hide Put, Hdr;
    SpliceHeader(d, Put(d, off + o, w), off + o, w);
    PutApart(d, off + o, w, HEADER, off);
    PutApart(d, off + o, w, off + |s|, off + |s| + |u|);
    PutInside(d, off, |s|, o, w);
  }

  /** Every property's name offset is counted back from the end of strings of `n` bytes. */
  predicate Counted(k: Token, n: int) {
    k.Plain? ==> k.e.Prop? && 0 <= n <= INT_MAX && 0x1_0000_0000 - n <= k.e.nameoff
  }

  predicate AllCounted(ks: seq<Token>, n: int) {
    forall i :: 0 <= i < |ks| ==> Counted(ks[i], n)
  }

  /** The token at `o` with its name offset rewritten. */
  lemma ShiftedToken(s: bytes, o: int, k: Token, n: int)
    requires TokenAt(s, o, k) && Counted(k, n) && k.Plain?
    ensures 0 <= o && o + 12 <= |s| && U32(s, o + 8) == k.e.nameoff
    ensures var t := Put(s, o + 8, Enc32(Wrap(k.e.nameoff + n)));
            TokenAt(t, o, Shifted(k, n)) && Spliced(s, t, o, o + TokenSize(k), o + TokenSize(k))
  {
    hide Enc32, Put, Be32;
    var Prop(off, val) := k.e;
    var new_ := Wrap(off + n);
    assert new_ == off - (0x1_0000_0000 - n);
    Renamed(s, o, off, val, new_);
    PutApart(s, o + 8, Enc32(new_), 0, o);
    PutApart(s, o + 8, Enc32(new_), o + TokenSize(k), |s|);
  }

  /** Adds the size of the strings to one name offset. */
  method ShiftOne(fdt: array<byte>, h: Header, o: int, ghost f: bytes, ghost s: bytes, ghost u: bytes, ghost k: Token)
    requires Framed(fdt[..]) && h == Hdr(fdt[..]) && StructOf(fdt[..]) == s && h.sizeStrings == |u|
    requires Laid(fdt[..], f, h.offStruct, s, u)
    requires TokenAt(s, o, k) && Counted(k, |u|) && k.Plain?
    modifies fdt
    ensures fdt.Length >= HEADER && Hdr(fdt[..]) == h && Framed(fdt[..])
    ensures var t := StructOf(fdt[..]);
            && |t| == |s| && Laid(fdt[..], f, h.offStruct, t, u)
            && TokenAt(t, o, Shifted(k, |u|)) && Spliced(s, t, o, o + TokenSize(k), o + TokenSize(k))
            && 0 <= o && o + 12 <= |s| && t == Put(s, o + 8, Enc32(Wrap(k.e.nameoff + |u|)))
  {
    hide Hdr, Put, Enc32, TokenAt, Shifted, TokenSize, Be32, Spliced;
    ShiftedToken(s, o, k, |u|);
    var nameoff := LoadStruct32(fdt, h, o + 8);
    nameoff := Wrap(nameoff + h.sizeStrings);
    ghost var d := fdt[..];
    LaidPut(d, f, h.offStruct, s, u, o + 8, Enc32(nameoff));
    Store32(fdt, h.offStruct + o + 8, nameoff);
  }

  lemma HalfwayFits(s: bytes, ks: seq<Token>, i: int, n: int)
    requires Halfway(s, ks, i, n)
    ensures var o := Length(ShiftAll(ks[..i], n));
            && 0 <= o <= |s|
            && (i < |ks| ==> TokenAt(s, o, ks[i]) && o + TokenSize(ks[i]) <= |s|
                             && Length(ks[i..]) == TokenSize(ks[i]) + Length(ks[i + 1..]))
  {
    hide TokenAt, TokenSize, ShiftAll;
    SpellsFits(s, Length(ShiftAll(ks[..i], n)), ks[i..]);
    if i < |ks| {
      assert ks[i..][1..] == ks[i + 1..];
      TokenFits(s, Length(ShiftAll(ks[..i], n)), ks[i]);
    }
  }

  /** The loop of `fdt_finish` that makes every name offset count from the start of the strings. */
  method ShiftNames(fdt: array<byte>, ghost f: bytes, ghost u: bytes, ghost ks: seq<Token>)
    returns (err: int)
    requires Framed(fdt[..]) && Hdr(fdt[..]).sizeStrings == |u|
    requires Laid(fdt[..], f, Hdr(fdt[..]).offStruct, StructOf(fdt[..]), u)
    requires Spells(StructOf(fdt[..]), 0, ks) && TagAt(StructOf(fdt[..]), Length(ks), END) && AllCounted(ks, |u|)
    modifies fdt
    ensures err == 0
    ensures Framed(fdt[..]) && Hdr(fdt[..]) == Hdr(old(fdt[..]))
    ensures Laid(fdt[..], f, Hdr(fdt[..]).offStruct, StructOf(fdt[..]), u)
    ensures Spells(StructOf(fdt[..]), 0, ShiftAll(ks, |u|)) && TagAt(StructOf(fdt[..]), Length(ks), END)
    ensures Length(ShiftAll(ks, |u|)) == Length(ks)
    ensures StructOf(old(fdt[..])) == EncTokens(ks) + Enc32(END) ==> StructOf(fdt[..]) == EncTokens(ShiftAll(ks, |u|)) + Enc32(END)
  {
    hide EncTokens, EncToken, NeatlyShifted, Hdr, Put, Enc32, Spells, ShiftAll, TokenAt, TagAt, Shifted, NextTag, TokenSize, Length, Spliced, Laid, Halfway;
    var h := LoadHeader(fdt);
    ghost var i, n := 0, |u|;
    HalfwayStart(StructOf(fdt[..]), ks, n);
    assert ks[0..] == ks;
    ghost var neat := StructOf(fdt[..]) == EncTokens(ks) + Enc32(END);
    NeatStart(StructOf(fdt[..]), ks, n, neat);
    var o := 0;
    while true
      invariant Framed(fdt[..]) && Hdr(fdt[..]) == h && Laid(fdt[..], f, h.offStruct, StructOf(fdt[..]), u)
      invariant 0 <= i <= |ks| && Halfway(StructOf(fdt[..]), ks, i, n)
      invariant o == Length(ShiftAll(ks[..i], n)) && o % 4 == 0
      invariant o + Length(ks[i..]) == Length(ks) && TagAt(StructOf(fdt[..]), Length(ks), END)
      invariant NeatlyShifted(StructOf(fdt[..]), ks, i, n, neat)
      decreases |ks| - i
    {
      ghost var s := StructOf(fdt[..]);
      HalfwayFits(s, ks, i, n);
      if i == |ks| {
        HalfwayDone(s, ks, n);
        NeatDone(s, ks, n, neat);
        ReadTag(s, o, END);
      } else {
        ReadToken(s, o, ks[i]);
      }
      var tag, next := ReadNextTag(fdt, o);
      if tag == END {
        return if next < 0 then next else 0;
      }
      if tag == PROP {
        ShiftOne(fdt, h, o, f, s, u, ks[i]);
        SplicedFits(s, StructOf(fdt[..]), o, o + TokenSize(ks[i]), o + TokenSize(ks[i]));
        EndStays(s, StructOf(fdt[..]), o, TokenSize(ks[i]), Length(ks));
      } else {
        UnshiftedToken(s, o, ks[i], n);
      }
      NeatStep(s, StructOf(fdt[..]), ks, i, n, neat);
      HalfwayStep(s, StructOf(fdt[..]), ks, i, n);
      o := next;
      i := i + 1;
    }
  }

  /** The bytes when the names of the first `i` tokens are shifted, if nothing but zeros pads them. */
  ghost predicate NeatlyShifted(s: bytes, ks: seq<Token>, i: int, n: int, neat: bool) {
    0 <= i <= |ks| && (neat ==> s == EncTokens(ShiftAll(ks[..i], n) + ks[i..]) + Enc32(END))
  }

  lemma NeatStart(s: bytes, ks: seq<Token>, n: int, neat: bool)
    requires neat ==> s == EncTokens(ks) + Enc32(END)
    ensures NeatlyShifted(s, ks, 0, n, neat)
  {
    hide EncTokens, Enc32;
    assert ks[..0] == [] && ShiftAll([], n) + ks[0..] == ks;
  }

  lemma NeatDone(s: bytes, ks: seq<Token>, n: int, neat: bool)
    requires NeatlyShifted(s, ks, |ks|, n, neat)
    ensures neat ==> s == EncTokens(ShiftAll(ks, n)) + Enc32(END)
  {
    hide EncTokens, Enc32, ShiftAll;
    assert ks[..|ks|] == ks && ShiftAll(ks, n) + ks[|ks|..] == ShiftAll(ks, n);
  }

  lemma NeatStep(s: bytes, t: bytes, ks: seq<Token>, i: int, n: int, neat: bool)
    requires NeatlyShifted(s, ks, i, n, neat) && i < |ks|
    requires var o := Length(ShiftAll(ks[..i], n));
      if ks[i].Plain? then Counted(ks[i], n) && o + 12 <= |s| && t == Put(s, o + 8, Enc32(Wrap(ks[i].e.nameoff + n)))
      else t == s && Shifted(ks[i], n) == ks[i]
    ensures NeatlyShifted(t, ks, i + 1, n, neat)
  {
    hide EncTokens, Enc32, ShiftAll, Shifted, Put, Counted;
    if neat {
      if ks[i].Plain? {
        NeatShift(s, ks, i, n);
      } else {
        SameShifted(ks, i, n);
      }
    }
  }

  lemma SameShifted(ks: seq<Token>, i: int, n: int)
    requires 0 <= i < |ks| && Shifted(ks[i], n) == ks[i]
    ensures ShiftAll(ks[..i + 1], n) + ks[i + 1..] == ShiftAll(ks[..i], n) + ks[i..]
  {
    hide ShiftAll, Shifted;
    ShiftAllMore(ks, i, n);
    assert ks[i..] == [ks[i]] + ks[i + 1..];
  }

  lemma {:induction false} EncTokensApp(xs: seq<Token>, ys: seq<Token>)
    ensures EncTokens(xs + ys) == EncTokens(xs) + EncTokens(ys)
    decreases |ys|
  {
    hide EncToken;
    if ys == [] {
      assert xs + ys == xs;
    } else {
      var l := |ys| - 1;
      assert (xs + ys)[..|xs + ys| - 1] == xs + ys[..l];
      EncTokensApp(xs, ys[..l]);
    }
  }

  lemma {:induction false} EncTokensLength(ks: seq<Token>)
    ensures |EncTokens(ks)| == Length(ks)
    decreases |ks|
  {
    hide EncToken, TokenSize;
    if ks != [] {
      assert ks == [ks[0]] + ks[1..];
      EncTokensApp([ks[0]], ks[1..]);
      OneEncoded(ks[0]);
      EncTokensLength(ks[1..]);
    }
  }

  lemma OneEncoded(k: Token)
    ensures EncTokens([k]) == EncToken(k)
  {
    hide EncToken;
    EncTokensMore([], k);
    assert [] + [k] == [k];
  }

  /** The bytes around token `i` when the tokens in front of it are shifted. */
  lemma EncodedAround(ks: seq<Token>, i: int, n: int, k: Token)
    requires 0 <= i < |ks|
    ensures var x, y := ShiftAll(ks[..i], n), ks[i + 1..];
      EncTokens(x + ([k] + y)) == EncTokens(x) + EncToken(k) + EncTokens(y) && |EncTokens(x)| == Length(x)
  {
    hide EncToken, ShiftAll;
    var x, y := ShiftAll(ks[..i], n), ks[i + 1..];
    EncTokensApp(x, [k] + y);
    EncTokensApp([k], y);
    OneEncoded(k);
    EncTokensLength(x);
    assert EncTokens(x) + (EncToken(k) + EncTokens(y)) == EncTokens(x) + EncToken(k) + EncTokens(y);
  }

  /** Rewriting the name offset of a property's bytes. */
  lemma NeatShift(s: bytes, ks: seq<Token>, i: int, n: int)
    requires 0 <= i < |ks| && Counted(ks[i], n) && ks[i].Plain?
    requires s == EncTokens(ShiftAll(ks[..i], n) + ks[i..]) + Enc32(END)
    requires var o := Length(ShiftAll(ks[..i], n)); o + 12 <= |s|
    ensures var o := Length(ShiftAll(ks[..i], n));
      Put(s, o + 8, Enc32(Wrap(ks[i].e.nameoff + n))) == EncTokens(ShiftAll(ks[..i + 1], n) + ks[i + 1..]) + Enc32(END)
  {
    hide EncToken, EncTokens, ShiftAll, Put, Enc32, Shifted;
    var x, y, k := ShiftAll(ks[..i], n), ks[i + 1..], ks[i];
    assert ks[i..] == [k] + y;
    EncodedAround(ks, i, n, k);
    EncodedAround(ks, i, n, Shifted(k, n));
    ShiftAllMore(ks, i, n);
    assert x + [Shifted(k, n)] + y == x + ([Shifted(k, n)] + y);
    ShiftedBytes(k, n);
    PutMiddle(EncTokens(x), EncToken(k), EncTokens(y) + Enc32(END), 8, Enc32(Wrap(k.e.nameoff + n)));
    assert s == EncTokens(x) + EncToken(k) + (EncTokens(y) + Enc32(END));
    assert EncTokens(x) + EncToken(Shifted(k, n)) + (EncTokens(y) + Enc32(END))
           == EncTokens(x) + EncToken(Shifted(k, n)) + EncTokens(y) + Enc32(END);
  }

  lemma PutMiddle(x: bytes, m: bytes, y: bytes, i: nat, w: bytes)
    requires i + |w| <= |m|
    ensures Put(x + m + y, |x| + i, w) == x + Put(m, i, w) + y
  {
  }

  lemma ShiftedBytes(k: Token, n: int)
    requires Counted(k, n) && k.Plain?
    ensures 12 <= |EncToken(k)| && EncToken(Shifted(k, n)) == Put(EncToken(k), 8, Enc32(Wrap(k.e.nameoff + n)))
  {
    hide Enc32;
    var off := k.e.nameoff;
    assert Wrap(off + n) == off - (0x1_0000_0000 - n);
  }

  lemma HalfwayDone(s: bytes, ks: seq<Token>, n: int)
    requires Halfway(s, ks, |ks|, n)
    ensures Spells(s, 0, ShiftAll(ks, n))
    ensures Length(ks[|ks|..]) == 0 && ks[..|ks|] == ks
  {
    hide TokenAt, TokenSize, ShiftAll;
    assert ks[..|ks|] == ks;
  }

  lemma UnshiftedToken(s: bytes, o: int, k: Token, n: int)
    requires TokenAt(s, o, k) && !k.Plain?
    ensures Shifted(k, n) == k && 0 <= o && Spliced(s, s, o, o + TokenSize(k), o + TokenSize(k))
  {
    hide TokenAt;
    TokenFits(s, o, k);
  }

  lemma EndStays(s: bytes, t: bytes, o: int, m: int, e: int)
    requires Spliced(s, t, o, o + m, o + m) && o + m <= e && TagAt(s, e, END)
    ensures TagAt(t, e, END)
  {
    hide Same;
    TagMove(s, o + m, t, o + m, |s| - o - m, e - o - m, END);
  }

  /** The token stands for the event, its name offset counted from the start of the strings `t`. */
  predicate Means(k: Token, v: Event, t: bytes) {
    match k
    case Begin(name) => v == Open(name)
    case EndNode => v == Close
    case Plain(Nop) => false
    case Plain(Prop(off, val)) => v.Property? && v.val == val && Str(t, off) == Some(v.name)
  }

  predicate AllMean(ks: seq<Token>, vs: seq<Event>, t: bytes) {
    |ks| == |vs| && forall i :: 0 <= i < |ks| ==> Means(ks[i], vs[i], t)
  }

  lemma StandsCounted(k: Token, v: Event, u: bytes)
    requires Stands(k, v, u)
    ensures Counted(k, |u|) && Means(Shifted(k, |u|), v, u)
  {
    hide Str;
  }

  lemma AllStandCounted(ks: seq<Token>, vs: seq<Event>, u: bytes)
    requires AllStand(ks, vs, u)
    ensures AllCounted(ks, |u|) && AllMean(ShiftAll(ks, |u|), vs, u)
  {
    hide Stands, Means, Counted, Shifted;
    forall i | 0 <= i < |ks|
      ensures Counted(ks[i], |u|) && Means(Shifted(ks[i], |u|), vs[i], u)
    {
      StandsCounted(ks[i], vs[i], u);
    }
  }

  /** A finished blob whose structure block spells out the events, END behind them. */
  ghost predicate Finished(d: bytes, vs: seq<Event>) {
    && Ready(d)
    && exists ks :: && Spells(StructOf(d), 0, ks) && TagAt(StructOf(d), Length(ks), END)
                    && AllMean(ks, vs, StringsOf(d))
  }

  /** Such a blob without a byte left open: the tokens as the format has them, their padding zero. */
  ghost predicate FinishedNeatly(d: bytes, vs: seq<Event>) {
    && Ready(d)
    && exists ks :: StructOf(d) == EncTokens(ks) + Enc32(END) && AllMean(ks, vs, StringsOf(d))
  }

  /** The END tag behind the tokens, and the strings moved down to the structure block. */
  lemma EndWritten(s: bytes, at: int, ks: seq<Token>)
    requires 0 <= at && at + 4 == |s| && Spells(s[..at], 0, ks) && Length(ks) == at
    ensures var t := Put(s, at, Enc32(END));
            |t| == |s| && Spells(t, 0, ks) && TagAt(t, at, END)
  {
    hide Enc32, Put, Be32;
    var t := Put(s, at, Enc32(END));
    PutWord(s, at, END, at);
    PutReads(s, at, Enc32(END));
    assert t[0..at] == t[..at] == s[..at] == s[..at][0..at];
    SpellsMove(s[..at], 0, t, 0, ks);
  }

  lemma PutLast(s: bytes, at: int, w: bytes)
    requires 0 <= at && at + |w| == |s|
    ensures Put(s, at, w) == s[..at] + w
  {
  }

  lemma StringsMoved(d: bytes, f: bytes, u: bytes)
    requires Unfinished(d) && TailStrings(d) == u && d[HEADER..Hdr(d).offStruct] == f
    ensures var h := Hdr(d);
            var at := h.offStruct + h.sizeStruct;
            var e := Put(d, at, u);
            Hdr(e) == h && Laid(e, f, h.offStruct, StructOf(d), u)
  {
    hide Hdr;
    var h := Hdr(d);
    var at := h.offStruct + h.sizeStruct;
    SpliceHeader(d, Put(d, at, u), at, u);
    PutReads(d, at, u);
    PutApart(d, at, u, HEADER, h.offStruct);
    PutApart(d, at, u, h.offStruct, at);
  }

  /** The finished header describes the parts where they stand. */
  lemma LaidReady(d: bytes, f: bytes, s: bytes, u: bytes)
    requires |d| >= HEADER && Laid(d, f, Hdr(d).offStruct, s, u)
    requires var h := Hdr(d);
             && h.magic == MAGIC && h.version == 17 && h.lastComp == FIRST_VERSION && h.offRsv == FRONT
             && h.sizeStruct == |s| && h.sizeStrings == |u| && h.offStrings == h.offStruct + |s|
             && h.totalsize == h.offStrings + |u| < INT_MAX && h.offStruct >= FRONT + RSV_ENTRY
    ensures Ready(d) && Wellformed(d) && StructOf(d) == s && StringsOf(d) == u && FrontOf(d) == f
  {
    hide Hdr;
  }

  /** The calls that wrote a blob have made these tokens. */
  lemma WrittenTokens(b: bytes, vs: seq<Event>) returns (ks: seq<Token>)
    requires Written(b, vs)
    ensures InStruct(b) && Spells(StructOf(b), 0, ks) && Length(ks) == |StructOf(b)| && AllStand(ks, vs, TailStrings(b))
    ensures Neat(b, vs) ==> StructOf(b) == EncTokens(ks)
  {
    hide Hdr, Spells, AllStand, EncTokens;
    if Neat(b, vs) {
      ks :| Spelled(b, vs, ks) && StructOf(b) == EncTokens(ks);
    } else {
      ks :| Spelled(b, vs, ks);
    }
  }

  /** `fdt_finish` up to the relocation of the strings: END added, strings moved behind the structure block. */
  method CloseBlocks(fdt: array<byte>, ghost vs: seq<Event>) returns (err: int, ghost ks: seq<Token>)
    requires InStruct(fdt[..]) && Written(fdt[..], vs)
    modifies fdt
    ensures var b := old(fdt[..]);
      && err == (if Hdr(b).sizeStruct + TAGSIZE > Hdr(b).totalsize - Hdr(b).offStruct - Hdr(b).sizeStrings then -ERR_NOSPACE else 0)
      && (err != 0 ==> fdt[..] == b)
      && (err == 0 ==>
           var u, f := TailStrings(b), b[HEADER..Hdr(b).offStruct];
           && Framed(fdt[..]) && Laid(fdt[..], f, Hdr(b).offStruct, StructOf(fdt[..]), u)
           && Hdr(fdt[..]) == Hdr(b).(sizeStruct := Hdr(b).sizeStruct + TAGSIZE,
                                      offStrings := Hdr(b).offStruct + Hdr(b).sizeStruct + TAGSIZE)
           && Spells(StructOf(fdt[..]), 0, ks) && TagAt(StructOf(fdt[..]), Length(ks), END) && AllStand(ks, vs, u)
           && (Neat(b, vs) ==> StructOf(fdt[..]) == EncTokens(ks) + Enc32(END)))
  {
    hide Hdr, Put, Enc32, Spells, TagAt, Length, AllStand, Laid, Written, Neat, EncTokens, GapSame;
    ghost var b := fdt[..];
    ghost var u, f := TailStrings(b), b[HEADER..Hdr(b).offStruct];
    ks := WrittenTokens(b, vs);
    var at;
    ghost var s;
    at, s := GrabSpace(fdt, TAGSIZE);
    if at < 0 {
      return -ERR_NOSPACE, ks;
    }
    WriteSw(fdt, at, Enc32(END), b, s, u);
    assert s[..at] == StructOf(b);
    EndWritten(s, at, ks);
    PutLast(s, at, Enc32(END));
    ghost var d1 := fdt[..];
    WroteSize(b, d1, Put(s, at, Enc32(END)), u);
    StringsMoved(d1, f, u);
    var h := LoadHeader(fdt);
    var newoff := h.offStruct + h.sizeStruct;
    MemMove(fdt, newoff, h.totalsize - h.sizeStrings, h.sizeStrings);
    ghost var d2 := fdt[..];
    SetHeaderWord(fdt, 12, newoff);
    ClosedUp(d1, d2, fdt[..], f, u);
    err := 0;
  }

  /** The strings moved behind the structure block and the header was told. */
  lemma ClosedUp(d1: bytes, d2: bytes, e: bytes, f: bytes, u: bytes)
    requires Unfinished(d1) && |d2| == |e| >= HEADER && e[HEADER..] == d2[HEADER..]
    requires Laid(d2, f, Hdr(d1).offStruct, StructOf(d1), u) && |u| == Hdr(d1).sizeStrings
    requires Hdr(e) == Hdr(d1).(offStrings := Hdr(d1).offStruct + Hdr(d1).sizeStruct) && |e| == |d1|
    ensures Framed(e) && StructOf(e) == StructOf(d1) && Laid(e, f, Hdr(d1).offStruct, StructOf(e), u)
  {
    hide Hdr, Laid;
    LaidHeader(d2, e, f, Hdr(d1).offStruct, StructOf(d1), u);
    LaidStruct(e, f, StructOf(d1), u);
  }

  lemma LaidStruct(d: bytes, f: bytes, s: bytes, u: bytes)
    requires |d| >= HEADER && Framed(d) && Laid(d, f, Hdr(d).offStruct, s, u) && Hdr(d).sizeStruct == |s|
    ensures StructOf(d) == s
  {
    hide Hdr;
  }

  /**
   `fdt_finish`: the finished blob spells out exactly the calls that were made, its names
   counted from the start of the strings, its reserve map untouched and no byte unused.
   */
  method FinishBlob(fdt: array<byte>, ghost vs: seq<Event>) returns (err: int)
    requires Sized(fdt[..]) && Hdr(fdt[..]).totalsize < INT_MAX
    requires StructProbe(fdt[..]) == 0 ==> Written(fdt[..], vs) && InStruct(fdt[..])
    modifies fdt
    ensures var b := old(fdt[..]);
      && err == (if StructProbe(b) != 0 then StructProbe(b)
                 else if Hdr(b).sizeStruct + TAGSIZE > Hdr(b).totalsize - Hdr(b).offStruct - Hdr(b).sizeStrings then -ERR_NOSPACE
                 else 0)
      && (err != 0 ==> fdt[..] == b)
      && (err == 0 ==>
           && Finished(fdt[..], vs) && Wellformed(fdt[..])
           && FrontOf(fdt[..]) == b[HEADER..Hdr(b).offStruct]
           && Hdr(fdt[..]).offRsv == FRONT
           && (forall rs :: Reserved(b, rs) ==> Mapped(fdt[..], rs))
           && (Neat(b, vs) ==> FinishedNeatly(fdt[..], vs))
           && Hdr(fdt[..]).totalsize == HEADER + |FrontOf(fdt[..])| + |StructOf(fdt[..])| + |StringsOf(fdt[..])|)
  {
    hide Hdr, Put, Enc32, Spells, TagAt, Length, AllStand, Laid, Written, ShiftAll, CheckHeader, Neat, EncTokens;
    ghost var b := fdt[..];
    var h := LoadHeader(fdt);
    err := SwProbe(h, h.totalsize);
    if err != 0 {
      return;
    }
    ghost var u, f := TailStrings(b), b[HEADER..Hdr(b).offStruct];
    ghost var ks;
    err, ks := CloseBlocks(fdt, vs);
    if err != 0 {
      return;
    }
    AllStandCounted(ks, vs, u);
    err := ShiftNames(fdt, f, u, ks);
    if err != 0 {
      return;
    }
    ghost var d := fdt[..];
    ghost var s := StructOf(d);
    h := LoadHeader(fdt);
    SetHeaderWord(fdt, 4, h.offStrings + h.sizeStrings);
    SetHeaderWord(fdt, 24, FIRST_VERSION);
    SetHeaderWord(fdt, 0, MAGIC);
    assert fdt[..][HEADER..] == d[HEADER..];
    LaidHeader(d, fdt[..], f, h.offStruct, s, u);
    LaidReady(fdt[..], f, s, u);
    forall rs | Reserved(b, rs)
      ensures Mapped(fdt[..], rs)
    {
      FrontMapped(b, fdt[..], rs);
    }
    ghost var shifted := ShiftAll(ks, |u|);
    assert Neat(b, vs) ==> StructOf(fdt[..]) == EncTokens(shifted) + Enc32(END);
    assert Spells(StructOf(fdt[..]), 0, shifted) && TagAt(StructOf(fdt[..]), Length(shifted), END)
           && AllMean(shifted, vs, StringsOf(fdt[..]));
  }

  // ---------- Reading the events back ----------

  /** What the token reader reports from offset `o` on, up to END. */
  function ReadEvents(s: bytes, t: bytes, o: int): seq<Event>
    decreases |s| - o
  {
    var (tag, next) := NextTag(s, o);
    if tag == BEGIN_NODE then [Open(NameAt(s, o))] + ReadEvents(s, t, next)
    else if tag == END_NODE then [Close] + ReadEvents(s, t, next)
    else if tag == PROP && next > o && NameInBlock(s, o) then [Property(NameOf(t, PropNameOff(s, o)), PropVal(s, o))] + ReadEvents(s, t, next)
    else if tag == NOP then ReadEvents(s, t, next)
    else []
  }

  lemma ReadOne(s: bytes, t: bytes, o: int, k: Token, v: Event)
    requires TokenAt(s, o, k) && Means(k, v, t) && o % 4 == 0
    ensures ReadEvents(s, t, o) == [v] + ReadEvents(s, t, o + TokenSize(k))
  {
    hide Str, NextTag, NameAt, PropNameOff, PropVal, HeadAt, EntryAt, TagAt, HeadSize, EntrySize;
    ReadToken(s, o, k);
    match k
    case Begin(name) => ScanHead(s, o, name, 0);
    case EndNode =>
    case Plain(e) => ReadProp(s, o, e.nameoff, e.val);
  }

  lemma {:induction false} ReadAll(s: bytes, t: bytes, o: int, ks: seq<Token>, vs: seq<Event>)
    requires Spells(s, o, ks) && AllMean(ks, vs, t) && o % 4 == 0
    requires TagAt(s, o + Length(ks), END)
    ensures ReadEvents(s, t, o) == vs
    decreases |ks|
  {
    hide TokenAt, TagAt, Means, TokenSize, NextTag;
    if ks == [] {
      ReadTag(s, o, END);
    } else {
      ReadOne(s, t, o, ks[0], vs[0]);
      AlignedSum(o, TokenSize(ks[0]));
      ReadAll(s, t, o + TokenSize(ks[0]), ks[1..], vs[1..]);
    }
  }

  /** Round trip: the reader reports exactly the calls that wrote the blob, names and values included. */
  lemma ReadsBackCalls(d: bytes, vs: seq<Event>)
    requires Finished(d, vs)
    ensures ReadEvents(StructOf(d), StringsOf(d), 0) == vs
  {
    hide Hdr, Spells, TagAt, AllMean, Length, ReadEvents;
    var ks :| Spells(StructOf(d), 0, ks) && TagAt(StructOf(d), Length(ks), END) && AllMean(ks, vs, StringsOf(d));
    ReadAll(StructOf(d), StringsOf(d), 0, ks, vs);
  }

  // ---------- Writing a tree ----------

  /** The calls that write the content of a node. */
  function Calls(f: Tree): seq<Event> {
    match f
    case Nil => []
    case Attr(name, val, r) => [Property(name, val)] + Calls(r)
    case Sub(name, body, r) => [Open(name)] + Calls(body) + [Close] + Calls(r)
  }

  /** Tokens for the calls of a tree encode items that mean the tree. */
  lemma {:induction false} TokensBuild(s: bytes, t: bytes, o: int, ks: seq<Token>, f: Tree) returns (it: Items)
    requires Spells(s, o, ks) && AllMean(ks, Calls(f), t)
    ensures Holds(s, o, it) && Size(it) == Length(ks)
    ensures Mean(it, t) == f && Named(it, t)
    decreases f
  {
    hide TokenAt, Str, Means, HeadAt, TagAt, EntryAt, Holds;
    SpellsFits(s, o, ks);
    match f
    case Nil =>
      it := Done;
      HoldsNothing(s, o);
    case Attr(name, val, r) =>
      assert ks == [ks[0]] + ks[1..];
      PropToken(s, o, ks[0], name, val, t);
      var rest := TokensBuild(s, t, o + TokenSize(ks[0]), ks[1..], r);
      it := Flat(ks[0].e, rest);
      HoldsFlat(s, o, ks[0].e, rest);
      MeanFlat(ks[0].e, rest, t);
    case Sub(name, body, r) =>
      it := NodeBuild(s, t, o, ks, name, body, r);
  }

  lemma PropToken(s: bytes, o: int, k: Token, name: bytes, val: bytes, t: bytes)
    requires TokenAt(s, o, k) && Means(k, Property(name, val), t)
    ensures k.Plain? && k.e.Prop? && k.e.val == val && Str(t, k.e.nameoff) == Some(name)
    ensures EntryAt(s, o, k.e) && TokenSize(k) == EntrySize(k.e)
  {
  }

  lemma SpellsCons(s: bytes, o: int, k: Token, ks: seq<Token>)
    ensures Spells(s, o, [k] + ks) <==> TokenAt(s, o, k) && Spells(s, o + TokenSize(k), ks)
    ensures Length([k] + ks) == TokenSize(k) + Length(ks)
  {
    hide TokenAt, TokenSize;
    assert ([k] + ks)[1..] == ks;
  }

  /** The tokens of a node: its head, its content, its end, its siblings. */
  lemma NodeTokens(s: bytes, t: bytes, o: int, ks: seq<Token>, name: bytes, body: Tree, r: Tree) returns (inner: seq<Token>, last: seq<Token>)
    requires Spells(s, o, ks) && AllMean(ks, Calls(Sub(name, body, r)), t)
    ensures var q := o + HeadSize(name);
            var p := q + Length(inner);
      && HeadAt(s, o, name) && Spells(s, q, inner) && AllMean(inner, Calls(body), t)
      && TagAt(s, p, END_NODE) && Spells(s, p + TAGSIZE, last) && AllMean(last, Calls(r), t)
      && Length(ks) == HeadSize(name) + Length(inner) + TAGSIZE + Length(last)
  {
    hide TokenAt, Str, Means, HeadAt, TagAt, EntryAt, HeadSize, AllMean, TokenSize, Spells, Length;
    var n := |Calls(body)|;
    CallsSplit(ks, Calls(body), Calls(r), name, t);
    inner, last := ks[1..n + 1], ks[n + 2..];
    assert ks == [Begin(name)] + (inner + ([EndNode] + last));
    NodeSpelled(s, o, name, inner, last);
  }

  lemma NodeSpelled(s: bytes, o: int, name: bytes, inner: seq<Token>, last: seq<Token>)
    requires Spells(s, o, [Begin(name)] + (inner + ([EndNode] + last)))
    ensures var q := o + HeadSize(name);
            var p := q + Length(inner);
      && HeadAt(s, o, name) && Spells(s, q, inner) && TagAt(s, p, END_NODE) && Spells(s, p + TAGSIZE, last)
      && Length([Begin(name)] + (inner + ([EndNode] + last))) == HeadSize(name) + Length(inner) + TAGSIZE + Length(last)
  {
    hide TokenAt, HeadAt, TagAt, HeadSize, TokenSize, Spells, Length;
    BeginIsHead(s, o, name);
    SpellsCons(s, o, Begin(name), inner + ([EndNode] + last));
    SpellsSplit(s, o + HeadSize(name), inner, [EndNode] + last);
    EndIsTag(s, o + HeadSize(name) + Length(inner));
    SpellsCons(s, o + HeadSize(name) + Length(inner), EndNode, last);
  }

  lemma {:induction false} NodeBuild(s: bytes, t: bytes, o: int, ks: seq<Token>, name: bytes, body: Tree, r: Tree) returns (it: Items)
    requires Spells(s, o, ks) && AllMean(ks, Calls(Sub(name, body, r)), t)
    ensures Holds(s, o, it) && Size(it) == Length(ks)
    ensures Mean(it, t) == Sub(name, body, r) && Named(it, t)
    decreases Sub(name, body, r), 0
  {
    hide HeadAt, TagAt, Holds, Mean, Named, HeadSize, Size, Spells, AllMean, Length;
    var inner, last := NodeTokens(s, t, o, ks, name, body, r);
    var q := o + HeadSize(name);
    var x := TokensBuild(s, t, q, inner, body);
    var y := TokensBuild(s, t, q + Length(inner) + TAGSIZE, last, r);
    it := Node(name, x, y);
    NodeSize(name, x, y);
    HoldsNode(s, o, name, x, y);
    MeanNode(name, x, y, t);
  }

  lemma BeginIsHead(s: bytes, o: int, name: bytes)
    ensures TokenAt(s, o, Begin(name)) <==> HeadAt(s, o, name)
    ensures TokenSize(Begin(name)) == HeadSize(name)
  {
    hide HeadAt;
  }

  lemma EndIsTag(s: bytes, o: int)
    ensures TokenAt(s, o, EndNode) <==> TagAt(s, o, END_NODE)
    ensures TokenSize(EndNode) == TAGSIZE
  {
    hide TagAt;
  }

  /** Which tokens belong to the head, the content, the end and the siblings of a node. */
  lemma CallsSplit(ks: seq<Token>, body: seq<Event>, r: seq<Event>, name: bytes, t: bytes)
    requires AllMean(ks, [Open(name)] + body + [Close] + r, t)
    ensures var n := |body|;
            && |ks| == n + 2 + |r|
            && ks[0] == Begin(name) && ks[n + 1] == EndNode
            && AllMean(ks[1..n + 1], body, t) && AllMean(ks[n + 2..], r, t)
  {
    hide Str;
    var n, vs := |body|, [Open(name)] + body + [Close] + r;
    assert Means(ks[0], vs[0], t) && Means(ks[n + 1], vs[n + 1], t);
    assert forall i :: 0 <= i < n ==> vs[1 + i] == body[i];
    assert forall i :: 0 <= i < |r| ==> vs[n + 2 + i] == r[i];
    hide Means;
    var inner, last := ks[1..n + 1], ks[n + 2..];
    forall i | 0 <= i < |inner|
      ensures Means(inner[i], body[i], t)
    {
      assert inner[i] == ks[1 + i] && vs[1 + i] == body[i];
    }
    forall i | 0 <= i < |last|
      ensures Means(last[i], r[i], t)
    {
      assert last[i] == ks[n + 2 + i] && vs[n + 2 + i] == r[i];
    }
  }

  lemma {:induction false} SpellsSplit(s: bytes, o: int, xs: seq<Token>, ys: seq<Token>)
    requires Spells(s, o, xs + ys)
    ensures Spells(s, o, xs) && Spells(s, o + Length(xs), ys)
    ensures Length(xs + ys) == Length(xs) + Length(ys)
    decreases |xs|
  {
    hide TokenAt, TokenSize;
    SpellsFits(s, o, xs + ys);
    if xs == [] {
      assert xs + ys == ys;
    } else {
      assert (xs + ys)[1..] == xs[1..] + ys;
      SpellsSplit(s, o + TokenSize(xs[0]), xs[1..], ys);
    }
  }

  /** Writing the calls of a tree and finishing gives a blob that denotes the tree. */
  lemma WritesTree(d: bytes, f: Tree) returns (it: Items)
    requires Finished(d, Calls(f))
    ensures Denotes(d, it) && Mean(it, StringsOf(d)) == f
  {
    hide Hdr, Spells, TagAt, AllMean, Length, Holds, Named, Mean, Size;
    var ks :| Spells(StructOf(d), 0, ks) && TagAt(StructOf(d), Length(ks), END) && AllMean(ks, Calls(f), StringsOf(d));
    it := TokensBuild(StructOf(d), StringsOf(d), 0, ks, f);
    EndFits(StructOf(d), Length(ks));
  }

  lemma EndFits(s: bytes, o: int)
    requires TagAt(s, o, END)
    ensures o + TAGSIZE <= |s|
  {
  }
}
