/** `fdt_check_full`: which blobs decode to a tree, and that they decode to one only. */
module Validate {
  import opened Options
  import opened Bytes
  import opened Structure
  import opened Blob
  import opened Buffer
  import opened Walk
  import opened Read
  import opened Meaning
  import opened Core
  import opened Edit

  // ---------- A block decodes in one way only ----------

  /** The tag that ends the items of a node, or of a block. */
  predicate Ender(tag: u32) {
    tag == END || tag == END_NODE
  }

  ghost predicate EndsAt(s: bytes, o: int) {
    0 <= o && o + TAGSIZE <= |s| && Ender(U32(s, o))
  }

  lemma EntryTag(s: bytes, o: int, e: Entry)
    requires EntryAt(s, o, e)
    ensures o + TAGSIZE <= |s| && 0 <= o
    ensures U32(s, o) == if e.Nop? then NOP else PROP
  {
  }

  /** Two entries read at the same place are the same. */
  lemma SameEntry(s: bytes, o: int, e: Entry, f: Entry)
    requires EntryAt(s, o, e) && EntryAt(s, o, f)
    ensures e == f
  {
  }

  lemma SameHead(s: bytes, o: int, m: bytes, n: bytes)
    requires HeadAt(s, o, m) && HeadAt(s, o, n)
    ensures m == n
  {
    hide Be32;
    CStrNul(s, o + TAGSIZE, m);
    CStrNul(s, o + TAGSIZE, n);
  }

  lemma HeadTag(s: bytes, o: int, n: bytes)
    requires HeadAt(s, o, n)
    ensures 0 <= o && o + TAGSIZE <= |s| && U32(s, o) == BEGIN_NODE
  {
  }

  lemma {:induction false} SameItems(s: bytes, o: int, x: Items, y: Items)
    requires Holds(s, o, x) && Holds(s, o, y)
    requires EndsAt(s, o + Size(x)) && EndsAt(s, o + Size(y))
    ensures x == y
    decreases x
  {
    hide Holds, EntryAt, HeadAt, TagAt, U32, EntrySize, HeadSize, Size;
    Tagged(s, o, x);
    Tagged(s, o, y);
    match x
    case Done =>
    case Flat(e, r) =>
      if y.Flat? {
        HoldsFlat(s, o, e, r);
        HoldsFlat(s, o, y.e, y.rest);
        SameEntry(s, o, e, y.e);
        FlatSize(e, r);
        FlatSize(e, y.rest);
        SameItems(s, o + EntrySize(e), r, y.rest);
      }
    case Node(n, b, r) =>
      if y.Node? {
        HoldsNode(s, o, n, b, r);
        HoldsNode(s, o, y.name, y.body, y.rest);
        SameHead(s, o, n, y.name);
        TagEnds(s, o + HeadSize(n) + Size(b));
        TagEnds(s, o + HeadSize(n) + Size(y.body));
        SameItems(s, o + HeadSize(n), b, y.body);
        NodeSize(n, b, r);
        NodeSize(n, b, y.rest);
        SameItems(s, o + HeadSize(n) + Size(b) + TAGSIZE, r, y.rest);
      }
  }

  lemma TagEnds(s: bytes, o: int)
    ensures TagAt(s, o, END_NODE) ==> EndsAt(s, o)
  {
    hide U32;
  }

  /** The tag at the start of items says which kind they are. */
  lemma Tagged(s: bytes, o: int, x: Items)
    requires Holds(s, o, x) && EndsAt(s, o + Size(x))
    ensures 0 <= o && o + TAGSIZE <= |s|
    ensures match x
            case Done => Ender(U32(s, o))
            case Flat(e, _) => U32(s, o) == if e.Nop? then NOP else PROP
            case Node(_, _, _) => U32(s, o) == BEGIN_NODE
  {
    hide EntryAt, HeadAt, U32;
    match x
    case Done =>
    case Flat(e, _) => EntryTag(s, o, e);
    case Node(n, _, _) => HeadTag(s, o, n);
  }

  /** A structure block decodes to at most one tree. */
  lemma DecodeUnique(s: bytes, x: Items, y: Items)
    requires Block(s, x) && Block(s, y)
    ensures x == y
  {
    hide Holds;
    SameItems(s, 0, x, y);
  }

  // ---------- The validating walk ----------

  /**
   The token loop of `fdt_check_full`, from tag offset `o` at `depth`. The name offset of a
   property whose length wraps may lie behind the structure block: it is read from `u`, the
   blob from the start of the block on.
   */
  function CheckWalk(s: bytes, u: bytes, t: bytes, o: int, depth: nat): int
    decreases |s| - o
  {
    var (tag, next) := NextTag(s, o);
    if next < 0 then next
    else if tag == END then (if depth != 0 then -ERR_BADSTRUCTURE else 0)
    else if tag == NOP then CheckWalk(s, u, t, next, depth)
    else if tag == BEGIN_NODE then CheckWalk(s, u, t, next, depth + 1)
    else if tag == END_NODE then (if depth == 0 then -ERR_BADSTRUCTURE else CheckWalk(s, u, t, next, depth - 1))
    else if CheckProp(s, o) < 0 then CheckProp(s, o)
    else if !NameInBlock(u, o) then -ASTRAY
    else if Str(t, PropNameOff(u, o)).None? then StrError(t, PropNameOff(u, o))
    else if next == o then -ASTRAY
    else CheckWalk(s, u, t, next, depth)
  }

  /** Reading tag after tag from `o` on meets a property whose length wraps. */
  predicate MeetsWrap(s: bytes, o: int)
    decreases |s| - o
  {
    var (tag, next) := NextTag(s, o);
    Wraps(s, o) || (tag != END && next > o && MeetsWrap(s, next))
  }

  /** The walk accepts encoded items and goes on behind them. */
  lemma {:induction false} CheckItems(s: bytes, u: bytes, t: bytes, o: int, depth: nat, it: Items)
    requires s <= u && Holds(s, o, it) && o % 4 == 0 && Named(it, t)
    ensures CheckWalk(s, u, t, o, depth) == CheckWalk(s, u, t, o + Size(it), depth)
    ensures MeetsWrap(s, o) == MeetsWrap(s, o + Size(it))
    decreases it
  {
    hide CheckWalk, MeetsWrap, Holds, EntryAt, HeadAt, TagAt, EntrySize, HeadSize, Str, Size;
    HoldsFits(s, o, it);
    match it
    case Done => NoItems();
    case Flat(e, r) =>
      OpenFlat(s, o, e, r);
      CheckEntry(s, u, t, o, depth, e);
      CheckItems(s, u, t, o + EntrySize(e), depth, r);
    case Node(n, body, r) =>
      OpenNode(s, o, n, body, r);
      CheckHead(s, u, t, o, depth, n);
      CheckItems(s, u, t, o + HeadSize(n), depth + 1, body);
      CheckLeaves(s, u, t, o + HeadSize(n) + Size(body), depth);
      CheckItems(s, u, t, After(o, n, body), depth, r);
  }

  lemma CheckEntry(s: bytes, u: bytes, t: bytes, o: int, depth: nat, e: Entry)
    requires s <= u && EntryAt(s, o, e) && o % 4 == 0 && (e.Prop? ==> Str(t, e.nameoff).Some?)
    ensures CheckWalk(s, u, t, o, depth) == CheckWalk(s, u, t, o + EntrySize(e), depth)
    ensures MeetsWrap(s, o) == MeetsWrap(s, o + EntrySize(e))
  {
    hide Wraps, EntryAt, EntrySize, NextTag, Str, PropNameOff;
    ReadEntry(s, o, e);
    NoWrap(s, o, e);
    if e.Prop? {
      ReadProp(s, o, e.nameoff, e.val);
      SameNameOff(s, u, o);
    }
  }

  lemma CheckHead(s: bytes, u: bytes, t: bytes, o: int, depth: nat, n: bytes)
    requires HeadAt(s, o, n) && o % 4 == 0
    ensures CheckWalk(s, u, t, o, depth) == CheckWalk(s, u, t, o + HeadSize(n), depth + 1)
    ensures MeetsWrap(s, o) == MeetsWrap(s, o + HeadSize(n))
  {
    hide Wraps, HeadAt, HeadSize, NextTag, Str, PropNameOff;
    ScanHead(s, o, n, 0);
    OnlyPropWraps(s, o);
  }

  lemma CheckLeaves(s: bytes, u: bytes, t: bytes, o: int, depth: nat)
    requires TagAt(s, o, END_NODE) && o % 4 == 0
    ensures CheckWalk(s, u, t, o, depth + 1) == CheckWalk(s, u, t, o + TAGSIZE, depth)
    ensures MeetsWrap(s, o) == MeetsWrap(s, o + TAGSIZE)
  {
    hide Wraps, TagAt, NextTag, Str, PropNameOff;
    ReadTag(s, o, END_NODE);
    OnlyPropWraps(s, o);
  }

  /** Inside the block the name offset is the block's. */
  lemma SameNameOff(s: bytes, u: bytes, o: int)
    requires s <= u && NameInBlock(s, o)
    ensures NameInBlock(u, o) && PropNameOff(u, o) == PropNameOff(s, o)
  {
    hide Be32;
    assert u[..|s|] == s;
    assert u[o + 8..o + 12] == s[o + 8..o + 12];
  }

  lemma NoWrap(s: bytes, o: int, e: Entry)
    requires EntryAt(s, o, e)
    ensures !Wraps(s, o)
  {
  }

  lemma OnlyPropWraps(s: bytes, o: int)
    requires NextTag(s, o).0 != PROP && NextTag(s, o).1 >= 0
    ensures !Wraps(s, o)
  {
  }

  lemma PropToken(s: bytes, o: int)
    requires o % 4 == 0 && NextTag(s, o).0 == PROP && NextTag(s, o).1 <= |s| <= INT_MAX && !Wraps(s, o)
    ensures NameInBlock(s, o)
    ensures EntryAt(s, o, Prop(PropNameOff(s, o), PropVal(s, o)))
    ensures NextTag(s, o).1 == o + EntrySize(Prop(PropNameOff(s, o), PropVal(s, o)))
  {
    assert NameInBlock(s, o);
    AlignShift(o + 12, |PropVal(s, o)|);
  }

  lemma NopToken(s: bytes, o: int)
    requires o % 4 == 0 && NextTag(s, o).0 == NOP
    ensures EntryAt(s, o, Nop) && NextTag(s, o).1 == o + TAGSIZE && EntrySize(Nop) == TAGSIZE
  {
  }

  lemma EndToken(s: bytes, o: int, tag: u32)
    requires o % 4 == 0 && NextTag(s, o) == (tag, NextTag(s, o).1) && tag in {END, END_NODE} && NextTag(s, o).1 >= 0
    ensures TagAt(s, o, tag) && NextTag(s, o).1 == o + TAGSIZE
  {
  }

  lemma BeginToken(s: bytes, o: int)
    requires o % 4 == 0 && NextTag(s, o).0 == BEGIN_NODE && NextTag(s, o).1 <= |s|
    ensures HeadAt(s, o, NameAt(s, o)) && NextTag(s, o).1 == o + HeadSize(NameAt(s, o))
  {
    NulCStr(s, o + TAGSIZE);
    AlignShift(o + TAGSIZE, |NameAt(s, o)| + 1);
  }

  /** What the walk has found at a token that it accepts. */
  lemma Accepts(s: bytes, u: bytes, t: bytes, o: int, depth: nat)
    requires s <= u && CheckWalk(s, u, t, o, depth) == 0 && !MeetsWrap(s, o)
    ensures var (tag, next) := NextTag(s, o);
      && 0 <= o <= next && o + TAGSIZE <= |s| && tag == U32(s, o) && !Wraps(s, o)
      && (tag == END ==> depth == 0)
      && (tag == END_NODE ==> depth > 0 && CheckWalk(s, u, t, next, depth - 1) == 0 && !MeetsWrap(s, next))
      && (tag == BEGIN_NODE ==> next > o && CheckWalk(s, u, t, next, depth + 1) == 0 && !MeetsWrap(s, next))
      && (tag !in {END, END_NODE, BEGIN_NODE} ==>
            && tag in {NOP, PROP} && next > o && CheckWalk(s, u, t, next, depth) == 0 && !MeetsWrap(s, next)
            && (tag == PROP ==> NameInBlock(u, o) && Str(t, PropNameOff(u, o)).Some?))
  {
    hide Wraps, Str, PropNameOff, U32;
  }

  /** The walk has read a tag behind every token it accepts. */
  lemma NextReadable(s: bytes, u: bytes, t: bytes, o: int, depth: nat)
    requires CheckWalk(s, u, t, o, depth) == 0
    ensures 0 <= o && o + TAGSIZE <= |s|
  {
  }

  /** An accepted walk spells out the items it passed, up to the tag that ends them. */
  lemma {:induction false} Decode(s: bytes, u: bytes, t: bytes, o: int, depth: nat) returns (it: Items)
    requires s <= u && CheckWalk(s, u, t, o, depth) == 0 && o % 4 == 0 && !MeetsWrap(s, o) && |s| <= INT_MAX
    ensures Holds(s, o, it) && Named(it, t)
    ensures TagAt(s, o + Size(it), if depth == 0 then END else END_NODE)
    ensures depth > 0 ==> CheckWalk(s, u, t, o + Size(it) + TAGSIZE, depth - 1) == 0 && !MeetsWrap(s, o + Size(it) + TAGSIZE)
    decreases |s| - o
  {
    hide Wraps, Holds, EntryAt, HeadAt, TagAt, EntrySize, HeadSize, NextTag, Str, PropNameOff, PropVal, NameAt, Named, Size,
         CheckWalk, MeetsWrap, U32;
    Accepts(s, u, t, o, depth);
    var (tag, next) := NextTag(s, o);
    it := Done;
    if Ender(tag) {
      HoldsNothing(s, o);
      EndToken(s, o, tag);
      DoneNamed(t);
    } else if tag == BEGIN_NODE {
      NextReadable(s, u, t, next, depth + 1);
      BeginToken(s, o);
      var body := Decode(s, u, t, next, depth + 1);
      SizeAligned(body);
      HoldsFits(s, next, body);
      AlignedSum(next, Size(body));
      AlignedSum(next + Size(body), TAGSIZE);
      var rest := Decode(s, u, t, next + Size(body) + TAGSIZE, depth);
      it := Node(NameAt(s, o), body, rest);
      NodeDecoded(s, t, o, NameAt(s, o), body, rest);
    } else {
      NextReadable(s, u, t, next, depth);
      var e := Nop;
      if tag == NOP {
        NopToken(s, o);
      } else {
        PropToken(s, o);
        SameNameOff(s, u, o);
        e := Prop(PropNameOff(s, o), PropVal(s, o));
      }
      var rest := Decode(s, u, t, next, depth);
      it := Flat(e, rest);
      FlatDecoded(s, t, o, e, rest);
    }
  }

  lemma FlatDecoded(s: bytes, t: bytes, o: int, e: Entry, rest: Items)
    requires EntryAt(s, o, e) && (e.Prop? ==> Str(t, e.nameoff).Some?)
    requires Holds(s, o + EntrySize(e), rest) && Named(rest, t)
    ensures Holds(s, o, Flat(e, rest)) && Named(Flat(e, rest), t)
    ensures Size(Flat(e, rest)) == EntrySize(e) + Size(rest)
  {
    hide Holds, EntryAt, Str, EntrySize;
    HoldsFlat(s, o, e, rest);
  }

  lemma NodeDecoded(s: bytes, t: bytes, o: int, name: bytes, body: Items, rest: Items)
    requires HeadAt(s, o, name) && Holds(s, o + HeadSize(name), body) && Named(body, t)
    requires TagAt(s, o + HeadSize(name) + Size(body), END_NODE)
    requires Holds(s, o + HeadSize(name) + Size(body) + TAGSIZE, rest) && Named(rest, t)
    ensures Holds(s, o, Node(name, body, rest)) && Named(Node(name, body, rest), t)
    ensures Size(Node(name, body, rest)) == HeadSize(name) + Size(body) + TAGSIZE + Size(rest)
  {
    hide Holds, HeadAt, TagAt, Str, HeadSize;
    HoldsNode(s, o, name, body, rest);
  }

  lemma DoneNamed(t: bytes)
    ensures Named(Done, t) && Size(Done) == 0
  {
  }

  /**
   A block decodes to a tree all of whose properties have names exactly when the walk accepts
   it and meets no property whose length wraps.
   */
  lemma CheckWalkDecides(s: bytes, u: bytes, t: bytes)
    requires s <= u && |s| <= INT_MAX
    ensures CheckWalk(s, u, t, 0, 0) == 0 && !MeetsWrap(s, 0) <==> exists it :: Block(s, it) && Named(it, t)
  {
    hide Holds, TagAt, NextTag, Named, Size, Wraps;
    if CheckWalk(s, u, t, 0, 0) == 0 && !MeetsWrap(s, 0) {
      var it := Decode(s, u, t, 0, 0);
      TagFits(s, Size(it), END);
      assert Block(s, it);
    }
    if exists it :: Block(s, it) && Named(it, t) {
      var it :| Block(s, it) && Named(it, t);
      CheckItems(s, u, t, 0, 0, it);
      SizeAligned(it);
      ReadTag(s, Size(it), END);
      OnlyPropWraps(s, Size(it));
    }
  }

  /** A block of one property whose length wraps: the walk accepts it, and it decodes to nothing. */
  lemma WrapAccepted(u: bytes, t: bytes)
    requires [0, 0, 0, 3, 0xff, 0xff, 0xff, 0xfc, 0, 0, 0, 9] <= u && Str(t, 9).Some?
    ensures var s: bytes := [0, 0, 0, 3, 0xff, 0xff, 0xff, 0xfc, 0, 0, 0, 9];
            CheckWalk(s, u, t, 0, 0) == 0 && !exists it :: Block(s, it) && Named(it, t)
  {
    var s: bytes := [0, 0, 0, 3, 0xff, 0xff, 0xff, 0xfc, 0, 0, 0, 9];
    hide Str, Named, Block;
    assert s[0..4] == [0, 0, 0, 3] && s[4..8] == [0xff, 0xff, 0xff, 0xfc] && s[8..12] == [0, 0, 0, 9];
    assert U32(s, 0) == PROP && U32(s, 4) == 0xffff_fffc && U32(s, 8) == END;
    hide U32;
    assert NextTag(s, 0) == (PROP, 8) && NextTag(s, 8) == (END, 12);
    SameNameOff(s, u, 0);
    assert Wraps(s, 0) && CheckWalk(s, u, t, 8, 0) == 0;
    CheckWalkDecides(s, u, t);
  }

  /** A property whose length adds up to nothing: the walk never ends. */
  lemma WrapStays(u: bytes, t: bytes)
    requires [0, 0, 0, 3, 0xff, 0xff, 0xff, 0xf4, 0, 0, 0, 9] <= u && Str(t, 9).Some?
    ensures CheckWalk([0, 0, 0, 3, 0xff, 0xff, 0xff, 0xf4, 0, 0, 0, 9], u, t, 0, 0) == -ASTRAY
  {
    var s: bytes := [0, 0, 0, 3, 0xff, 0xff, 0xff, 0xf4, 0, 0, 0, 9];
    hide Str;
    assert s[0..4] == [0, 0, 0, 3] && s[4..8] == [0xff, 0xff, 0xff, 0xf4] && s[8..12] == [0, 0, 0, 9];
    SameNameOff(s, u, 0);
    assert NextTag(s, 0) == (PROP, 0);
  }

  lemma TagFits(s: bytes, o: int, tag: u32)
    requires TagAt(s, o, tag)
    ensures o + TAGSIZE <= |s|
  {
  }

  // ---------- The reserve map (Devicetree Specification v0.3, section 5.3) ----------

  /** `fdt_num_mem_rsv` from entry `i` on: entries before the one of size zero, or TRUNCATED. */
  function NumRsv(b: bytes, h: Header, i: nat): int
    requires |b| >= HEADER && RSV_ENTRY <= h.totalsize <= |b|
    decreases h.totalsize - i
  {
    var at := h.offRsv + i * RSV_ENTRY;
    if at > h.totalsize - RSV_ENTRY then -ERR_TRUNCATED
    else if b[at + 8..at + 16] == [0, 0, 0, 0, 0, 0, 0, 0] then i
    else NumRsv(b, h, i + 1)
  }

  /** The loop of `fdt_num_mem_rsv`. */
  method ReadNumRsv(fdt: array<byte>, h: Header) returns (r: int)
    requires fdt.Length >= HEADER && RSV_ENTRY <= h.totalsize <= fdt.Length
    ensures r == NumRsv(fdt[..], h, 0)
  {
    r := 0;
    while true
      invariant 0 <= r && NumRsv(fdt[..], h, 0) == NumRsv(fdt[..], h, r)
      invariant r * RSV_ENTRY <= h.totalsize
      decreases h.totalsize - r
    {
      var at := h.offRsv + r * RSV_ENTRY;
      if at > h.totalsize - RSV_ENTRY {
        return -ERR_TRUNCATED;
      }
      assert fdt[..][at + 8..at + 16] == fdt[at + 8..at + 16];
      if fdt[at + 8..at + 16] == [0, 0, 0, 0, 0, 0, 0, 0] {
        return;
      }
      r := r + 1;
    }
  }

  /**
   `fdt_check_full`: the first of its checks that fails decides. What it accepts decodes to a
   tree, and what decodes is accepted, unless the walk meets a property whose length wraps.
   */
  method CheckFull(fdt: array<byte>) returns (err: int)
    requires fdt.Length >= HEADER
    requires Hdr(fdt[..]).version >= 17 && Hdr(fdt[..]).totalsize < INT_MAX
    ensures var h := Hdr(fdt[..]);
            if CheckHeader(h) != 0 then err == CheckHeader(h)
            else if fdt.Length < h.totalsize then err == -ERR_TRUNCATED
            else if NumRsv(fdt[..], h, 0) < 0 then err == NumRsv(fdt[..], h, 0)
            else
              && Stringed(fdt[..])
              && err == CheckWalk(StructOf(fdt[..]), FromStruct(fdt[..]), StringsOf(fdt[..]), 0, 0)
              && (err == 0 && !MeetsWrap(StructOf(fdt[..]), 0) <==>
                  exists it :: Block(StructOf(fdt[..]), it) && Named(it, StringsOf(fdt[..])))
  {
    hide Hdr, Block, Named, NumRsv, CheckWalk, MeetsWrap;
    var h := LoadHeader(fdt);
    err := CheckHeader(h);
    if err != 0 {
      return;
    }
    if fdt.Length < h.totalsize {
      return -ERR_TRUNCATED;
    }
    HeaderFrames(fdt[..]);
    err := ReadNumRsv(fdt, h);
    if err < 0 {
      return;
    }
    err := ReadCheckWalk(fdt);
    CheckWalkDecides(StructOf(fdt[..]), FromStruct(fdt[..]), StringsOf(fdt[..]));
  }

  lemma HeaderFrames(b: bytes)
    requires |b| >= HEADER && CheckHeader(Hdr(b)) == 0
    requires Hdr(b).version >= 17 && Hdr(b).totalsize < INT_MAX && Hdr(b).totalsize <= |b|
    ensures Stringed(b) && RSV_ENTRY <= Hdr(b).totalsize
  {
    hide Hdr;
  }

  /** The blob from its structure block on. */
  function FromStruct(b: bytes): (u: bytes)
    requires Framed(b)
    ensures StructOf(b) <= u
  {
    var h := Hdr(b);
    assert b[h.offStruct..h.totalsize][..h.sizeStruct] == StructOf(b);
    b[h.offStruct..h.totalsize]
  }

  lemma NameOffRead(b: bytes, o: int)
    requires Framed(b) && 0 <= o && Hdr(b).offStruct + o + 12 <= Hdr(b).totalsize
    ensures NameInBlock(FromStruct(b), o) && U32(b, Hdr(b).offStruct + o + 8) == PropNameOff(FromStruct(b), o)
  {
    hide Hdr, Be32;
    var h := Hdr(b);
    assert FromStruct(b)[o + 8..o + 12] == b[h.offStruct + o + 8..h.offStruct + o + 12];
  }

  /** The token loop of `fdt_check_full`. */
  method ReadCheckWalk(fdt: array<byte>) returns (r: int)
    requires Stringed(fdt[..])
    ensures r == CheckWalk(StructOf(fdt[..]), FromStruct(fdt[..]), StringsOf(fdt[..]), 0, 0)
  {
    hide Hdr, NextTag, Str, PropNameOff, U32;
    ghost var s, u, t := StructOf(fdt[..]), FromStruct(fdt[..]), StringsOf(fdt[..]);
    var next, depth := 0, 0;
    while true
      invariant 0 <= next <= |s| + 3 && 0 <= depth
      invariant CheckWalk(s, u, t, 0, 0) == CheckWalk(s, u, t, next, depth)
      decreases |s| - next
    {
      var o := next;
      var tag;
      tag, next := ReadNextTag(fdt, o);
      if next < 0 {
        return next;
      }
      if tag == END {
        return if depth != 0 then -ERR_BADSTRUCTURE else 0;
      }
      TagInBlock(s, o);
      if tag == BEGIN_NODE {
        depth := depth + 1;
      } else if tag == END_NODE {
        if depth == 0 {
          return -ERR_BADSTRUCTURE;
        }
        depth := depth - 1;
      } else if tag == PROP {
        if o % TAGSIZE != 0 {
          return -ERR_BADOFFSET;
        }
        var h := LoadHeader(fdt);
        if h.offStruct + o + 12 > h.totalsize {
          return -ASTRAY;
        }
        NameOffRead(fdt[..], o);
        var nameoff := Load32(fdt, h.offStruct + o + 8);
        var name := ReadString(fdt, nameoff);
        if name == None {
          return if nameoff >= h.sizeStrings then -ERR_BADOFFSET else -ERR_TRUNCATED;
        }
        if next == o {
          return -ASTRAY;
        }
      }
    }
  }
}
