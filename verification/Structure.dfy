/**
 The structure block (Devicetree Specification v0.3, section 5.4): what its bytes mean.

 `Items` is the content of a node (or of the whole block) as it is laid out, NOP tags
 included; `Holds` relates it to the bytes. Padding bytes may hold anything, as the
 reader never looks at them.
 */
module Structure {
  import opened Bytes

  const BEGIN_NODE: u32 := 1
  const END_NODE: u32 := 2
  const PROP: u32 := 3
  const NOP: u32 := 4
  const END: u32 := 9

  const TAGSIZE: int := 4

  /** What may stand between the tags of nodes. A property names itself by an offset into the strings block. */
  datatype Entry =
    | Nop
    | Prop(nameoff: u32, val: bytes)

  datatype Items =
    | Done
    | Flat(e: Entry, rest: Items)
    | Node(name: bytes, body: Items, rest: Items)

  /** Tag and name of a node. */
  function HeadSize(name: bytes): (n: nat)
    ensures n > TAGSIZE + |name|
  {
    TAGSIZE + Align(|name| + 1)
  }

  function EntrySize(e: Entry): (n: nat)
    ensures n >= TAGSIZE
  {
    match e
    case Nop => TAGSIZE
    case Prop(_, val) => 12 + Align(|val|)
  }

  /** Bytes taken by the items. */
  function Size(it: Items): nat {
    match it
    case Done => 0
    case Flat(e, r) => EntrySize(e) + Size(r)
    case Node(name, body, r) => HeadSize(name) + Size(body) + TAGSIZE + Size(r)
  }

  lemma NoItems()
    ensures Size(Done) == 0
  {
  }

  lemma FlatSize(e: Entry, r: Items)
    ensures Size(Flat(e, r)) == EntrySize(e) + Size(r)
  {
    hide EntrySize;
  }

  lemma NodeSize(name: bytes, body: Items, r: Items)
    ensures Size(Node(name, body, r)) == HeadSize(name) + Size(body) + TAGSIZE + Size(r)
  {
    hide HeadSize;
  }

  ghost predicate TagAt(s: bytes, o: int, tag: u32) {
    0 <= o && o + TAGSIZE <= |s| && U32(s, o) == tag
  }

  ghost predicate EntryAt(s: bytes, o: int, e: Entry) {
    && 0 <= o && o + EntrySize(e) <= |s|
    && match e
       case Nop => U32(s, o) == NOP
       case Prop(nameoff, val) =>
         && U32(s, o) == PROP
         && U32(s, o + 4) == |val| <= INT_MAX
         && U32(s, o + 8) == nameoff
         && s[o + 12..o + 12 + |val|] == val
  }

  ghost predicate HeadAt(s: bytes, o: int, name: bytes) {
    && 0 <= o && o + HeadSize(name) <= |s|
    && U32(s, o) == BEGIN_NODE
    && CStr(s, o + TAGSIZE, name)
  }

  /** The bytes of `s` from offset `o` on are an encoding of `it`. */
  ghost predicate Holds(s: bytes, o: int, it: Items)
    decreases it
  {
    && 0 <= o && o + Size(it) <= |s|
    && match it
       case Done => true
       case Flat(e, r) => EntryAt(s, o, e) && Holds(s, o + EntrySize(e), r)
       case Node(name, body, r) =>
         && HeadAt(s, o, name)
         && Holds(s, o + HeadSize(name), body)
         && TagAt(s, o + HeadSize(name) + Size(body), END_NODE)
         && Holds(s, o + HeadSize(name) + Size(body) + TAGSIZE, r)
  }

  /** A complete structure block: the items, then the END tag. */
  ghost predicate Block(s: bytes, it: Items) {
    Holds(s, 0, it) && Size(it) + TAGSIZE <= |s| && TagAt(s, Size(it), END)
  }

  lemma HoldsFlat(s: bytes, o: int, e: Entry, r: Items)
    ensures Holds(s, o, Flat(e, r)) <==> EntryAt(s, o, e) && Holds(s, o + EntrySize(e), r)
  {
    hide EntryAt, EntrySize, Size;
    FlatSize(e, r);
    if EntryAt(s, o, e) && Holds(s, o + EntrySize(e), r) {
      EntryFits(s, o, e);
      HoldsFits(s, o + EntrySize(e), r);
    }
  }

  lemma EntryFits(s: bytes, o: int, e: Entry)
    requires EntryAt(s, o, e)
    ensures 0 <= o && o + EntrySize(e) <= |s|
  {
  }

  lemma HeadFits(s: bytes, o: int, name: bytes)
    requires HeadAt(s, o, name)
    ensures 0 <= o && o + HeadSize(name) <= |s|
  {
  }

  lemma HoldsNode(s: bytes, o: int, name: bytes, body: Items, r: Items)
    ensures Holds(s, o, Node(name, body, r)) <==>
            && HeadAt(s, o, name)
            && Holds(s, o + HeadSize(name), body)
            && TagAt(s, o + HeadSize(name) + Size(body), END_NODE)
            && Holds(s, o + HeadSize(name) + Size(body) + TAGSIZE, r)
  {
    hide HeadAt, TagAt, HeadSize, Size;
    NodeSize(name, body, r);
    if HeadAt(s, o, name) && Holds(s, o + HeadSize(name) + Size(body) + TAGSIZE, r) {
      HeadFits(s, o, name);
      HoldsFits(s, o + HeadSize(name) + Size(body) + TAGSIZE, r);
    }
  }

  lemma HoldsFits(s: bytes, o: int, it: Items)
    requires Holds(s, o, it)
    ensures 0 <= o && o + Size(it) <= |s|
  {
  }

  // ---------- Moving encodings ----------

  lemma TagMove(s: bytes, o: int, t: bytes, p: int, n: int, d: int, tag: u32)
    requires Same(s, o, t, p, n) && 0 <= d && d + TAGSIZE <= n
    requires TagAt(s, o + d, tag)
    ensures TagAt(t, p + d, tag)
  {
    SamePart(s, o, t, p, n, d, TAGSIZE);
  }

  lemma EntryMove(s: bytes, o: int, t: bytes, p: int, n: int, d: int, e: Entry)
    requires Same(s, o, t, p, n) && 0 <= d && d + EntrySize(e) <= n
    requires EntryAt(s, o + d, e)
    ensures EntryAt(t, p + d, e)
  {
    SamePart(s, o, t, p, n, d, 4);
    if e.Prop? {
      SamePart(s, o, t, p, n, d + 4, 4);
      SamePart(s, o, t, p, n, d + 8, 4);
      SamePart(s, o, t, p, n, d + 12, |e.val|);
    }
  }

  lemma HeadMove(s: bytes, o: int, t: bytes, p: int, n: int, d: int, name: bytes)
    requires Same(s, o, t, p, n) && 0 <= d && d + HeadSize(name) <= n
    requires HeadAt(s, o + d, name)
    ensures HeadAt(t, p + d, name)
  {
    SamePart(s, o, t, p, n, d, 4);
    SamePart(s, o, t, p, n, d + 4, |name| + 1);
    CStrSame(s, o + d + 4, t, p + d + 4, name);
  }

  /** Equal bytes encode equal items, wherever they stand. */
  lemma {:induction false} HoldsMove(s: bytes, o: int, t: bytes, p: int, n: int, d: int, it: Items)
    requires Same(s, o, t, p, n) && 0 <= d && d + Size(it) <= n
    requires Holds(s, o + d, it)
    ensures Holds(t, p + d, it)
    decreases it
  {
    hide Holds, TagAt, EntryAt, HeadAt, EntrySize, HeadSize, Size, Same;
    HoldsFits(s, o + d, it);
    SameFits(s, o, t, p, n);
    match it
    case Done => HoldsDone(t, p + d);
    case Flat(e, r) =>
      FlatSize(e, r);
      HoldsFlat(s, o + d, e, r);
      EntryMove(s, o, t, p, n, d, e);
      HoldsMove(s, o, t, p, n, d + EntrySize(e), r);
      HoldsFlat(t, p + d, e, r);
    case Node(name, body, r) =>
      var h := HeadSize(name);
      NodeSize(name, body, r);
      HoldsNode(s, o + d, name, body, r);
      HeadMove(s, o, t, p, n, d, name);
      HoldsMove(s, o, t, p, n, d + h, body);
      TagMove(s, o, t, p, n, d + h + Size(body), END_NODE);
      HoldsMove(s, o, t, p, n, d + h + Size(body) + TAGSIZE, r);
      HoldsNode(t, p + d, name, body, r);
  }

  lemma SameFits(s: bytes, o: int, t: bytes, p: int, n: int)
    requires Same(s, o, t, p, n)
    ensures 0 <= o && o + n <= |s| && 0 <= p && p + n <= |t|
  {
  }

  lemma HoldsDone(s: bytes, o: int)
    ensures 0 <= o <= |s| ==> Holds(s, o, Done)
  {
  }

  lemma EntryAligned(e: Entry)
    ensures EntrySize(e) % 4 == 0
  {
  }

  lemma HeadAligned(name: bytes)
    ensures HeadSize(name) % 4 == 0
  {
  }

  lemma AlignedNode(a: int, b: int, c: int)
    requires a % 4 == 0 && b % 4 == 0 && c % 4 == 0
    ensures (a + b + TAGSIZE + c) % 4 == 0
  {
  }

  lemma {:induction false} SizeAligned(it: Items)
    ensures Size(it) % 4 == 0
  {
    hide EntrySize, HeadSize, Size;
    match it
    case Done => NoItems();
    case Flat(e, r) =>
      FlatSize(e, r);
      EntryAligned(e);
      SizeAligned(r);
      AlignedSum(EntrySize(e), Size(r));
    case Node(name, body, r) =>
      NodeSize(name, body, r);
      HeadAligned(name);
      SizeAligned(body);
      SizeAligned(r);
      AlignedNode(HeadSize(name), Size(body), Size(r));
  }

  // ---------- Contexts: a tree with one place left open ----------

  datatype Ctx =
    | Hole
    | AfterEntry(e: Entry, k: Ctx)
    | AfterNode(name: bytes, body: Items, k: Ctx)
    | Inside(name: bytes, k: Ctx, rest: Items)

  function Plug(c: Ctx, x: Items): Items {
    match c
    case Hole => x
    case AfterEntry(e, k) => Flat(e, Plug(k, x))
    case AfterNode(name, body, k) => Node(name, body, Plug(k, x))
    case Inside(name, k, r) => Node(name, Plug(k, x), r)
  }

  /** The offset of the open place. */
  function Off(c: Ctx): nat {
    match c
    case Hole => 0
    case AfterEntry(e, k) => EntrySize(e) + Off(k)
    case AfterNode(name, body, k) => HeadSize(name) + Size(body) + TAGSIZE + Off(k)
    case Inside(name, k, _) => HeadSize(name) + Off(k)
  }

  /** The bytes that follow the open place. */
  function Behind(c: Ctx): nat {
    match c
    case Hole => 0
    case AfterEntry(_, k) => Behind(k)
    case AfterNode(_, _, k) => Behind(k)
    case Inside(_, k, r) => Behind(k) + TAGSIZE + Size(r)
  }

  function Compose(c: Ctx, d: Ctx): Ctx {
    match c
    case Hole => d
    case AfterEntry(e, k) => AfterEntry(e, Compose(k, d))
    case AfterNode(name, body, k) => AfterNode(name, body, Compose(k, d))
    case Inside(name, k, r) => Inside(name, Compose(k, d), r)
  }

  lemma {:induction false} ComposePlug(c: Ctx, d: Ctx, x: Items)
    ensures Plug(Compose(c, d), x) == Plug(c, Plug(d, x))
    ensures Off(Compose(c, d)) == Off(c) + Off(d)
  {
    if c != Hole {
      ComposePlug(c.k, d, x);
    }
  }

  lemma {:induction false} PlugSize(c: Ctx, x: Items)
    ensures Size(Plug(c, x)) == Off(c) + Size(x) + Behind(c)
  {
    if c != Hole {
      PlugSize(c.k, x);
    }
  }

  lemma {:induction false} OffAligned(c: Ctx)
    ensures Off(c) % 4 == 0
  {
    hide EntrySize, HeadSize, Size;
    match c
    case Hole =>
    case AfterEntry(e, k) =>
      EntryAligned(e);
      OffAligned(k);
    case AfterNode(name, body, k) =>
      HeadAligned(name);
      SizeAligned(body);
      OffAligned(k);
    case Inside(name, k, _) =>
      HeadAligned(name);
      OffAligned(k);
  }

  /** What stands in the open place is encoded at the context's offset. */
  lemma {:induction false} HoldsInner(s: bytes, o: int, c: Ctx, x: Items)
    requires Holds(s, o, Plug(c, x))
    ensures Holds(s, o + Off(c), x)
    decreases c
  {
    hide Holds, TagAt, EntryAt, HeadAt, EntrySize, HeadSize, Size;
    match c
    case Hole =>
    case AfterEntry(e, k) =>
      HoldsFlat(s, o, e, Plug(k, x));
      HoldsInner(s, o + EntrySize(e), k, x);
    case AfterNode(name, body, k) =>
      HoldsNode(s, o, name, body, Plug(k, x));
      HoldsInner(s, o + HeadSize(name) + Size(body) + TAGSIZE, k, x);
    case Inside(name, k, r) =>
      HoldsNode(s, o, name, Plug(k, x), r);
      HoldsInner(s, o + HeadSize(name), k, x);
  }

  /**
   The old region `[b, e)` of `s` is the region `[b, f)` of `t`, and the bytes around it
   are the same in both.
   */
  ghost predicate Spliced(s: bytes, t: bytes, b: int, e: int, f: int) {
    && 0 <= b <= e <= |s| && b <= f <= |t|
    && Same(s, 0, t, 0, b)
    && |s| - e == |t| - f && Same(s, e, t, f, |s| - e)
  }

  /**
   Replacing the bytes of the open place, and shifting everything behind it, replaces
   the items of the open place and nothing else.
   */
  lemma {:induction false} Replace(s: bytes, t: bytes, o: int, c: Ctx, x: Items, y: Items)
    requires Holds(s, o, Plug(c, x))
    requires Spliced(s, t, o + Off(c), o + Off(c) + Size(x), o + Off(c) + Size(y))
    requires Holds(t, o + Off(c), y)
    ensures Holds(t, o, Plug(c, y))
    decreases c
  {
    hide Holds, TagAt, EntryAt, HeadAt, EntrySize, HeadSize, Same, Size;
    var b := o + Off(c);
    HoldsFits(s, o, Plug(c, x));
    assert Same(s, 0, t, 0, b);
    hide Spliced;
    match c
    case Hole =>
    case AfterEntry(entry, k) =>
      HoldsFlat(s, o, entry, Plug(k, x));
      EntryMove(s, 0, t, 0, b, o, entry);
      Replace(s, t, o + EntrySize(entry), k, x, y);
      HoldsFlat(t, o, entry, Plug(k, y));
    case AfterNode(name, body, k) =>
      HoldsNode(s, o, name, body, Plug(k, x));
      HeadMove(s, 0, t, 0, b, o, name);
      HoldsMove(s, 0, t, 0, b, o + HeadSize(name), body);
      TagMove(s, 0, t, 0, b, o + HeadSize(name) + Size(body), END_NODE);
      Replace(s, t, o + HeadSize(name) + Size(body) + TAGSIZE, k, x, y);
      HoldsNode(t, o, name, body, Plug(k, y));
    case Inside(name, k, r) =>
      HoldsNode(s, o, name, Plug(k, x), r);
      HeadMove(s, 0, t, 0, b, o, name);
      Replace(s, t, o + HeadSize(name), k, x, y);
      ReplaceBehind(s, t, o + HeadSize(name), k, x, y, r);
      HoldsNode(t, o, name, Plug(k, y), r);
  }

  /** What follows the node around the open place moves along unchanged. */
  lemma ReplaceBehind(s: bytes, t: bytes, o: int, k: Ctx, x: Items, y: Items, r: Items)
    requires 0 <= o
    requires Spliced(s, t, o + Off(k), o + Off(k) + Size(x), o + Off(k) + Size(y))
    requires TagAt(s, o + Size(Plug(k, x)), END_NODE)
    requires Holds(s, o + Size(Plug(k, x)) + TAGSIZE, r)
    ensures TagAt(t, o + Size(Plug(k, y)), END_NODE)
    ensures Holds(t, o + Size(Plug(k, y)) + TAGSIZE, r)
  {
    hide Holds, TagAt, Same, Size, Plug, Off, Behind;
    PlugSize(k, x);
    PlugSize(k, y);
    var e, f := o + Off(k) + Size(x), o + Off(k) + Size(y);
    HoldsFits(s, o + Size(Plug(k, x)) + TAGSIZE, r);
    TagMove(s, e, t, f, |s| - e, Behind(k), END_NODE);
    HoldsMove(s, e, t, f, |s| - e, Behind(k) + TAGSIZE, r);
  }

  /** The same for a complete block. */
  lemma ReplaceBlock(s: bytes, t: bytes, c: Ctx, x: Items, y: Items)
    requires Block(s, Plug(c, x))
    requires Spliced(s, t, Off(c), Off(c) + Size(x), Off(c) + Size(y))
    requires Holds(t, Off(c), y)
    ensures Block(t, Plug(c, y))
  {
    hide Holds, Plug, Size, Off, Behind, TagAt, Same;
    Replace(s, t, 0, c, x, y);
    PlugSize(c, x);
    PlugSize(c, y);
    TagMove(s, Off(c) + Size(x), t, Off(c) + Size(y), |s| - Off(c) - Size(x), Behind(c), END);
  }

  // ---------- Replacing the front of what stands in the open place ----------

  function Append(x: Items, r: Items): Items {
    match x
    case Done => r
    case Flat(e, k) => Flat(e, Append(k, r))
    case Node(name, body, k) => Node(name, body, Append(k, r))
  }

  lemma {:induction false} AppendHolds(s: bytes, o: int, x: Items, r: Items)
    ensures Size(Append(x, r)) == Size(x) + Size(r)
    ensures 0 <= o ==> (Holds(s, o, Append(x, r)) <==> Holds(s, o, x) && Holds(s, o + Size(x), r))
    decreases x
  {
    hide Holds, EntryAt, HeadAt, TagAt, EntrySize, HeadSize;
    match x
    case Done => HoldsNone(s, o, r);
    case Flat(e, k) =>
      AppendHolds(s, o + EntrySize(e), k, r);
      HoldsFlat(s, o, e, k);
      HoldsFlat(s, o, e, Append(k, r));
    case Node(name, body, k) =>
      AppendHolds(s, o + HeadSize(name) + Size(body) + TAGSIZE, k, r);
      HoldsNode(s, o, name, body, k);
      HoldsNode(s, o, name, body, Append(k, r));
  }

  lemma HoldsNone(s: bytes, o: int, r: Items)
    ensures Holds(s, o, r) ==> Holds(s, o, Done)
  {
  }

  lemma SplicedWider(s: bytes, t: bytes, b: int, e: int, f: int, n: int)
    requires Spliced(s, t, b, e, f) && 0 <= n <= |s| - e
    ensures Spliced(s, t, b, e + n, f + n)
  {
    hide Same;
    SamePart(s, e, t, f, |s| - e, n, |s| - e - n);
  }

  /** Replacing the first part of what stands in the open place keeps everything else. */
  lemma ReplaceFront(s: bytes, t: bytes, c: Ctx, x: Items, y: Items, r: Items)
    requires Block(s, Plug(c, Append(x, r)))
    requires Spliced(s, t, Off(c), Off(c) + Size(x), Off(c) + Size(y))
    requires Holds(t, Off(c), y)
    ensures Block(t, Plug(c, Append(y, r)))
  {
    hide Holds, TagAt, Plug, Off, Size, Same, Append;
    HoldsInner(s, 0, c, Append(x, r));
    AppendHolds(s, Off(c), x, r);
    AppendHolds(t, Off(c), y, r);
    var e, f := Off(c) + Size(x), Off(c) + Size(y);
    HoldsFits(s, e, r);
    HoldsMove(s, e, t, f, |s| - e, 0, r);
    SplicedWider(s, t, Off(c), e, f, Size(r));
    ReplaceBlock(s, t, c, Append(x, r), Append(y, r));
  }
}
