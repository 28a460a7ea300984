/** Edits that keep every offset (fdt_wip.c): NOP tags written over a property or a node, values patched. */
module InPlace {
  import opened Options
  import opened Bytes
  import opened Structure
  import opened Blob
  import opened Buffer
  import opened Walk
  import opened Read
  import opened Meaning
  import opened Core
  import opened Edit
  import opened Nodes

  // ---------- NOP tags ----------

  /** `k` NOP tags. */
  function Nops(k: nat): (it: Items) {
    if k == 0 then Done else Flat(Nop, Nops(k - 1))
  }

  lemma {:induction false} NopsSize(k: nat)
    ensures Size(Nops(k)) == 4 * k && AllNops(Nops(k))
  {
    if k > 0 {
      NopsSize(k - 1);
    }
  }

  lemma {:induction false} NopsSplit(s: bytes, o: int, k: nat)
    requires 0 <= o && Holds(s, o, Nops(k)) && TagAt(s, o + 4 * k, NOP)
    ensures Holds(s, o, Nops(k + 1))
    decreases k
  {
    hide TagAt, Holds;
    NopsSize(k);
    if k == 0 {
      NopEntry(s, o);
      HoldsNothing(s, o + 4);
      HoldsFlat(s, o, Nop, Done);
    } else {
      HoldsFlat(s, o, Nop, Nops(k - 1));
      NopsSplit(s, o + 4, k - 1);
      HoldsFlat(s, o, Nop, Nops(k));
    }
  }

  lemma NopEntry(s: bytes, o: int)
    requires TagAt(s, o, NOP)
    ensures EntryAt(s, o, Nop) && o + 4 <= |s|
  {
  }

  /** One more NOP tag written behind the others. */
  lemma NopWritten(s: bytes, o: int, k: nat, n: int)
    requires 0 <= o && 4 * k + 4 <= n && o + n <= |s| && Holds(s, o, Nops(k))
    ensures Holds(Put(s, o + 4 * k, Enc32(NOP)), o, Nops(k + 1))
  {
    hide Put, Enc32, Holds;
    var t := Put(s, o + 4 * k, Enc32(NOP));
    NopsSize(k);
    PutApart(s, o + 4 * k, Enc32(NOP), o, o + 4 * k);
    HoldsMove(s, o, t, o, 4 * k, 0, Nops(k));
    PutWord(s, o + 4 * k, NOP, o + 4 * k);
    NopsSplit(t, o, k);
  }

  // ---------- Blobs whose structure block is rewritten in place ----------

  /** A blob that can be read, its structure block apart from the strings; the blocks may come in any order. */
  predicate Readable(b: bytes) {
    && Stringed(b)
    && var h := Hdr(b);
       h.offStruct + h.sizeStruct <= h.offStrings || h.offStrings + h.sizeStrings <= h.offStruct
  }

  ghost predicate Decodes(b: bytes, it: Items) {
    Readable(b) && Block(StructOf(b), it) && Named(it, StringsOf(b))
  }

  /** Only the structure block changed: it is now `s`. */
  ghost predicate Rewritten(b: bytes, d: bytes, s: bytes) {
    && Readable(b) && Readable(d) && |d| == |b| && Hdr(d) == Hdr(b)
    && StructOf(d) == s && StringsOf(d) == StringsOf(b)
    && d[HEADER..Hdr(b).offStruct] == b[HEADER..Hdr(b).offStruct]
    && d[Hdr(b).offStruct + Hdr(b).sizeStruct..] == b[Hdr(b).offStruct + Hdr(b).sizeStruct..]
  }

  lemma RewrittenSelf(b: bytes)
    requires Readable(b)
    ensures Rewritten(b, b, StructOf(b))
  {
    hide Hdr;
  }

  lemma RewrittenTwice(b: bytes, d: bytes, e: bytes, s: bytes, s2: bytes)
    requires Rewritten(b, d, s) && Rewritten(d, e, s2)
    ensures Rewritten(b, e, s2)
  {
    hide Hdr;
  }

  /** Writes into the structure block of a blob that came from `b`. */
  method WriteBlock(fdt: array<byte>, o: int, w: bytes, ghost b: bytes)
    requires Readable(fdt[..]) && Rewritten(b, fdt[..], StructOf(fdt[..]))
    requires 0 <= o && o + |w| <= |StructOf(fdt[..])|
    modifies fdt
    ensures Readable(fdt[..]) && Rewritten(b, fdt[..], Put(StructOf(old(fdt[..])), o, w))
    ensures StructOf(fdt[..]) == Put(StructOf(old(fdt[..])), o, w) && StringsOf(fdt[..]) == StringsOf(old(fdt[..]))
  {
    hide Hdr, Put, Rewritten;
    ghost var d := fdt[..];
    var h := LoadHeader(fdt);
    MemCpy(fdt, h.offStruct + o, w);
    BlockWritten(d, fdt[..], o, w);
    RewrittenTwice(b, d, fdt[..], StructOf(d), Put(StructOf(d), o, w));
  }

  lemma BlockWritten(b: bytes, d: bytes, o: int, w: bytes)
    requires Readable(b) && 0 <= o && o + |w| <= Hdr(b).sizeStruct
    requires d == Put(b, Hdr(b).offStruct + o, w)
    ensures Rewritten(b, d, Put(StructOf(b), o, w))
    ensures Readable(d) && StructOf(d) == Put(StructOf(b), o, w) && StringsOf(d) == StringsOf(b)
  {
    hide Hdr, Put;
    var h := Hdr(b);
    var i, e := h.offStruct + o, h.offStruct + h.sizeStruct;
    SpliceHeader(b, d, i, w);
    PutApart(b, i, w, HEADER, h.offStruct);
    PutApart(b, i, w, e, |b|);
    PutApart(b, i, w, h.offStrings, h.offStrings + h.sizeStrings);
    PutInside(b, h.offStruct, h.sizeStruct, o, w);
    assert b[e..|b|] == b[e..] && d[e..|d|] == d[e..];
  }

  // ---------- NOP tags over a part ----------

  /** `fdt_nop_region_`: NOP tags over `[o, o+len)`, rounded up to whole tags. */
  method NopRegion(fdt: array<byte>, o: int, len: int, ghost b: bytes)
    requires Readable(fdt[..]) && b == fdt[..]
    requires 0 <= o && 0 <= len && o + Align(len) <= |StructOf(fdt[..])|
    modifies fdt
    ensures Readable(fdt[..]) && Rewritten(b, fdt[..], StructOf(fdt[..]))
    ensures Spliced(StructOf(b), StructOf(fdt[..]), o, o + Align(len), o + Align(len))
    ensures Holds(StructOf(fdt[..]), o, Nops(Align(len) / 4))
  {
    hide Hdr, Put, Enc32, Rewritten, Holds, Spliced;
    RewrittenSelf(b);
    ghost var k := 0;
    HoldsNothing(StructOf(b), o);
    SplicedSelf(StructOf(b), o, o + Align(len));
    var p := o;
    while p < o + len
      invariant p == o + 4 * k && p <= o + Align(len)
      invariant Readable(fdt[..]) && Rewritten(b, fdt[..], StructOf(fdt[..]))
      invariant |StructOf(fdt[..])| == |StructOf(b)|
      invariant Spliced(StructOf(b), StructOf(fdt[..]), o, o + Align(len), o + Align(len))
      invariant Holds(StructOf(fdt[..]), o, Nops(k))
      decreases o + len - p
    {
      WordsLeft(k, len);
      NopWritten(StructOf(fdt[..]), o, k, Align(len));
      PutKeepsSpliced(StructOf(b), StructOf(fdt[..]), o, o + Align(len), o + Align(len), p, Enc32(NOP));
      WriteBlock(fdt, p, Enc32(NOP), b);
      p := p + TAGSIZE;
      k := k + 1;
    }
    WordsDone(k, len);
  }

  lemma WordsLeft(k: nat, len: int)
    requires 4 * k < len
    ensures 4 * k + 4 <= Align(len)
  {
  }

  lemma WordsDone(k: nat, len: int)
    requires 0 <= len <= 4 * k <= Align(len)
    ensures k == Align(len) / 4
  {
  }

  lemma SplicedSelf(s: bytes, b: int, e: int)
    requires 0 <= b <= e <= |s|
    ensures Spliced(s, s, b, e, e)
  {
  }

  /** Blobs `b` and `d` differ only in `[o, o+n)` of the structure block; nothing moved. */
  ghost predicate OnlyChanged(b: bytes, d: bytes, o: int, n: int) {
    && Readable(b) && Readable(d)
    && |StructOf(d)| == |StructOf(b)| && Spliced(StructOf(b), StructOf(d), o, o + n, o + n)
    && Rewritten(b, d, StructOf(d))
  }

  /** Where `x` stands now, in context `c`, the blob `d` means `f`, and around it what it meant as `b`. */
  ghost predicate Became(b: bytes, d: bytes, c: Ctx, x: Items, f: Tree) {
    Readable(b) && Decodes(d, Plug(c, x)) && Rewritten(b, d, StructOf(d)) && Says(StructOf(d), StringsOf(b), c, x, f)
  }

  /** A node's place in a blob. */
  ghost predicate NodeAt(b: bytes, o: int, c: Ctx, n: bytes, body: Items, r: Items) {
    Decodes(b, Plug(c, Node(n, body, r))) && o == Off(c)
  }

  lemma Placed(b: bytes, o: int, c: Ctx, n: bytes, body: Items, r: Items)
    requires NodeAt(b, o, c, n, body, r)
    ensures Readable(b) && Holds(StructOf(b), o, Node(n, body, r)) && o % 4 == 0 && 0 <= o <= |StructOf(b)| <= INT_MAX
    ensures Named(body, StringsOf(b)) && Named(r, StringsOf(b))
    ensures Block(StructOf(b), Plug(c, Node(n, body, r))) && Named(Plug(c, Node(n, body, r)), StringsOf(b))
  {
    hide Hdr, Block, Plug, Size, Named, NamedCtx, Off, Holds;
    BlockParts(StructOf(b), StringsOf(b), c, n, body, r);
  }

  lemma BecameIntro(b: bytes, d: bytes, s3: bytes, c: Ctx, x: Items, f: Tree)
    requires Readable(b) && Rewritten(b, d, s3) && Says(s3, StringsOf(b), c, x, f)
    ensures Became(b, d, c, x, f)
  {
    hide Hdr, Block, Plug, Named, Mean, MeanCtx;
  }

  /**
   `fdt_nop_property`: the tree loses the property just as if it had been deleted, while
   every other byte of the blob stays as it was.
   */
  method NopProperty(fdt: array<byte>, o: int, name: bytes, ghost c: Ctx, ghost n: bytes, ghost body: Items, ghost r: Items)
    returns (err: int, ghost body': Items)
    requires NodeAt(fdt[..], o, c, n, body, r)
    modifies fdt
    ensures Readable(old(fdt[..]))
    ensures var t := StringsOf(old(fdt[..]));
      && err == (if GetAttr(Mean(body, t), name).Some? then 0 else -ERR_NOTFOUND)
      && (err != 0 ==> fdt[..] == old(fdt[..]))
      && (err == 0 ==>
           && Became(old(fdt[..]), fdt[..], c, Node(n, body', r), Sub(n, RemoveAttr(Mean(body, t), name), Mean(r, t)))
           && Size(body') == Size(body)
           && var f := PropByName(body, t, name);
              f.PropThere? && OnlyChanged(old(fdt[..]), fdt[..], o + HeadSize(n) + Off(f.c), EntrySize(Prop(f.nameoff, f.val))))
  {
    hide Hdr, Put, Plug, Holds, Block, Mean, Named, Off, Became, Str, Size, PropByName, EntryAt, EntrySize, HeadSize, NextTag,
         GetProperty, Spliced, Rewritten, AllNops, Append, RemoveAttr, GetAttr, Nops, Says;
    ghost var b := fdt[..];
    ghost var s, t := StructOf(b), StringsOf(b);
    ghost var f := PropByName(body, t, name);
    body' := body;
    Placed(b, o, c, n, body, r);
    GetPropertyOk(s, t, o, n, body, r, name);
    PropByNameMean(body, t, name);
    var at := ReadGetProperty(fdt, o, name);
    if at < 0 {
      return at, body';
    }
    FoundVal(s, t, o, n, body, r, name);
    EntryFields(s, at, f.nameoff, f.val);
    AlignShift(12, |f.val|);
    var h := LoadHeader(fdt);
    var len := LoadStruct32(fdt, h, at + 4);
    NopRegion(fdt, at, len + 12, b);
    ghost var k := Align(len + 12) / 4;
    NopsSize(k);
    ghost var s3 := StructOf(fdt[..]);
    SplicedFits(s, s3, at, at + Align(len + 12), at + Align(len + 12));
    RemovedBlock(s, t, s3, c, n, body, r, name, Nops(k));
    body' := Plug(f.c, Append(Nops(k), f.rest));
    BecameIntro(b, fdt[..], s3, c, Node(n, body', r), Sub(n, RemoveAttr(Mean(body, t), name), Mean(r, t)));
    NopKeepsSize(body, f, k);
    err := 0;
  }

  lemma NopKeepsSize(body: Items, f: FoundProp, k: nat)
    requires f.PropThere? && body == Plug(f.c, Flat(Prop(f.nameoff, f.val), f.rest))
    requires 4 * k == EntrySize(Prop(f.nameoff, f.val))
    ensures Size(Plug(f.c, Append(Nops(k), f.rest))) == Size(body)
  {
    hide Plug, EntrySize;
    PlugSize(f.c, Flat(Prop(f.nameoff, f.val), f.rest));
    PlugSize(f.c, Append(Nops(k), f.rest));
    AppendHolds([], 0, Nops(k), f.rest);
    NopsSize(k);
  }

  /**
   `fdt_nop_node`: the tree loses the node just as if it had been deleted, while every
   other byte of the blob stays as it was.
   */
  method NopNode(fdt: array<byte>, o: int, ghost c: Ctx, ghost n: bytes, ghost body: Items, ghost r: Items)
    returns (err: int, ghost x: Items)
    requires NodeAt(fdt[..], o, c, n, body, r)
    modifies fdt
    ensures Readable(old(fdt[..]))
    ensures err == 0 && Became(old(fdt[..]), fdt[..], c, x, Mean(r, StringsOf(old(fdt[..]))))
    ensures OnlyChanged(old(fdt[..]), fdt[..], o, Size(Node(n, body, Done)))
    ensures Size(x) == Size(Node(n, body, r))
  {
    hide Hdr, Put, Plug, Holds, Block, Mean, Named, Off, Became, Rewritten, Size, Spliced, NodeEnd, AllNops, Append, Nops, Says;
    ghost var b := fdt[..];
    ghost var s, t := StructOf(b), StringsOf(b);
    x := r;
    Placed(b, o, c, n, body, r);
    NodeEndOk(s, o, n, body, r);
    NodeExtent(s, o, n, body, r);
    SizeAligned(Node(n, body, Done));
    var end := ReadNodeEnd(fdt, o);
    if end < 0 {
      return end, x;
    }
    AlignedLen(end - o);
    NopRegion(fdt, o, end - o, b);
    ghost var k := Align(end - o) / 4;
    NopsSize(k);
    SplicedFits(s, StructOf(fdt[..]), o, end, end);
    RemovedNodeBlock(s, t, StructOf(fdt[..]), c, n, body, r, Nops(k));
    x := Append(Nops(k), r);
    BecameIntro(b, fdt[..], StructOf(fdt[..]), c, x, Mean(r, t));
    AppendHolds([], 0, Nops(k), r);
    AppendHolds([], 0, Node(n, body, Done), r);
    AppendNode(n, body, r);
    err := 0;
  }

  lemma AlignedLen(n: nat)
    requires n % 4 == 0
    ensures Align(n) == n
  {
  }

  // ---------- Patching a value ----------

  /** A value rewritten in part. */
  lemma PatchedEntry(s: bytes, p: int, nameoff: u32, val: bytes, i: int, w: bytes)
    requires EntryAt(s, p, Prop(nameoff, val)) && 0 <= i && i + |w| <= |val|
    ensures var u := Put(s, p + 12 + i, w);
            && EntryAt(u, p, Prop(nameoff, Put(val, i, w)))
            && EntrySize(Prop(nameoff, Put(val, i, w))) == EntrySize(Prop(nameoff, val))
            && Spliced(s, u, p, p + EntrySize(Prop(nameoff, val)), p + EntrySize(Prop(nameoff, val)))
  {
    hide Be32;
    var u := Put(s, p + 12 + i, w);
    PutApart(s, p + 12 + i, w, p, p + 4);
    PutApart(s, p + 12 + i, w, p + 4, p + 8);
    PutApart(s, p + 12 + i, w, p + 8, p + 12);
    PutInside(s, p + 12, |val|, i, w);
    SplicedSelf(s, p, p + EntrySize(Prop(nameoff, val)));
    PutKeepsSpliced(s, s, p, p + EntrySize(Prop(nameoff, val)), p + EntrySize(Prop(nameoff, val)), p + 12 + i, w);
  }

  /** The code takes `[idx, idx+len)` to lie in a value of `n` bytes: its sum is unsigned and may wrap. */
  predicate Accepted(n: int, idx: u32, len: int) {
    n >= Wrap(len + idx)
  }

  /** The part it accepts lies in the value exactly when the sum does not wrap to a length the value has. */
  lemma AcceptedExact(n: int, idx: u32, len: int)
    requires 0 <= n <= INT_MAX && 0 <= len <= INT_MAX
    ensures (Accepted(n, idx, len) <==> idx + len <= n) <==> !Beyond(n, idx, len)
  {
  }

  predicate Beyond(n: int, idx: u32, len: int) {
    len + idx >= 0x1_0000_0000 && len + idx - 0x1_0000_0000 <= n
  }

  /** Index 0xFFFFFFFE with four bytes is accepted for a value of four, although it lies far behind it. */
  lemma IndexWraps()
    ensures Accepted(4, 0xFFFF_FFFE, 4) && Beyond(4, 0xFFFF_FFFE, 4)
  {
  }

  /**
   `fdt_setprop_inplace_namelen_partial`: overwrites a part of a property's value, moving
   nothing. Of a part that lies `Beyond` the value nothing is promised.
   */
  method SetPropPartial(fdt: array<byte>, o: int, name: bytes, idx: u32, val: bytes,
                        ghost c: Ctx, ghost n: bytes, ghost body: Items, ghost r: Items)
    returns (err: int, ghost body': Items)
    requires NodeAt(fdt[..], o, c, n, body, r) && |val| <= INT_MAX
    modifies fdt
    ensures Readable(old(fdt[..]))
    ensures err != 0 ==> fdt[..] == old(fdt[..])
    ensures var t := StringsOf(old(fdt[..]));
            var v := GetAttr(Mean(body, t), name);
      && err == (if v.None? then -ERR_NOTFOUND else if Beyond(|v.value|, idx, |val|) then -ASTRAY
                 else if |v.value| < |val| + idx then -ERR_NOSPACE else 0)
      && (err == 0 ==>
           && Became(old(fdt[..]), fdt[..], c, Node(n, body', r),
                     Sub(n, ReplaceAttr(Mean(body, t), name, Put(v.value, idx, val)), Mean(r, t)))
           && Size(body') == Size(body)
           && var f := PropByName(body, t, name);
              f.PropThere? && body' == Plug(f.c, Flat(Prop(f.nameoff, Put(v.value, idx, val)), f.rest)))
  {
    hide Hdr, Put, Plug, Holds, Block, Mean, Named, Off, Became, Str, Size, PropByName, EntryAt, EntrySize, HeadSize, NextTag,
         GetProperty, Spliced, Rewritten, ReplaceAttr, GetAttr, PropVal, Says;
    ghost var b := fdt[..];
    ghost var s, t := StructOf(b), StringsOf(b);
    ghost var f := PropByName(body, t, name);
    body' := body;
    Placed(b, o, c, n, body, r);
    GetPropertyOk(s, t, o, n, body, r, name);
    PropByNameMean(body, t, name);
    if f.PropThere? {
      FoundVal(s, t, o, n, body, r, name);
    }
    var at, was := ReadGetProp(fdt, o, name);
    if at < 0 {
      return at, body';
    }
    EntryFields(s, at, f.nameoff, f.val);
    AcceptedExact(|was|, idx, |val|);
    if !Accepted(|was|, idx, |val|) {
      return -ERR_NOSPACE, body';
    }
    if idx + |val| > |was| {
      return -ASTRAY, body';
    }
    PatchedEntry(s, at, f.nameoff, f.val, idx, val);
    RewrittenSelf(b);
    WriteBlock(fdt, at + 12 + idx, val, b);
    ghost var new_ := Put(f.val, idx, val);
    ReplacedBlock(s, t, StructOf(fdt[..]), c, n, body, r, name, new_);
    SetAttrThere(Mean(body, t), name, new_);
    body' := Plug(f.c, Flat(Prop(f.nameoff, new_), f.rest));
    BecameIntro(b, fdt[..], StructOf(fdt[..]), c, Node(n, body', r), Sub(n, ReplaceAttr(Mean(body, t), name, new_), Mean(r, t)));
    PatchKeepsSize(body, f, new_);
    err := 0;
  }

  lemma SetAttrThere(f: Tree, name: bytes, val: bytes)
    requires GetAttr(f, name).Some?
    ensures SetAttr(f, name, val) == ReplaceAttr(f, name, val)
  {
  }

  lemma PatchKeepsSize(body: Items, f: FoundProp, new_: bytes)
    requires f.PropThere? && body == Plug(f.c, Flat(Prop(f.nameoff, f.val), f.rest)) && |new_| == |f.val|
    ensures Size(Plug(f.c, Flat(Prop(f.nameoff, new_), f.rest))) == Size(body)
  {
    hide Plug;
    PlugSize(f.c, Flat(Prop(f.nameoff, f.val), f.rest));
    PlugSize(f.c, Flat(Prop(f.nameoff, new_), f.rest));
  }
}
