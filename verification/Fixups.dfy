/**
 `overlay_update_local_references` (fdt_overlay.c): the overlay's references are updated in
 place, from lists that stand in the same blob.
 */
module Fixups {
  import opened Options
  import opened Bytes
  import opened Structure
  import opened Blob
  import opened Buffer
  import opened Walk
  import opened Read
  import opened Meaning
  import opened Merging
  import opened Core
  import opened Edit
  import opened Nodes
  import opened InPlace
  import opened Shapes
  import opened Phandles
  import opened References
  import opened Renumbering

  // ---------- What the code does, on trees ----------

  /** How an update ends. */
  datatype Outcome =
    | Finished(root: Tree)
    | Stopped
    | Outside(pos: seq<nat>, name: bytes, place: u32)

  /** The `j`-th list of the node at `fp`, as it is now. */
  function ListAt(root: Tree, fp: seq<nat>, j: nat): bytes {
    var f := Onward(TreeAt(root, fp), j);
    if f.Attr? then f.val else []
  }

  function Word(list: bytes, i: nat): u32 {
    if 4 * i + 4 <= |list| then Cell(list, i) else 0
  }

  /** The places that the list has from its `i`-th word to its `n`-th, in the property `name` of the node at `tp`. */
  function LiveCells(root: Tree, tp: seq<nat>, fp: seq<nat>, j: nat, name: bytes, i: nat, n: nat, delta: u32): Outcome
    decreases n - i
  {
    var node := TreeAt(root, tp);
    var val := GetAttr(node, name);
    var p := Word(ListAt(root, fp, j), i);
    if i >= n then Finished(root)
    else if val.None? then Stopped
    else if p + 4 > |val.value| then Outside(tp, name, p)
    else LiveCells(Plant(root, tp, ReplaceAttr(node, name, Bumped(val.value, p, delta))), tp, fp, j, name, i + 1, n, delta)
  }

  /** The property loop, from the `j`-th list on. The lists keep the names and lengths they have in `shape`. */
  function LiveAttrs(root: Tree, tp: seq<nat>, fp: seq<nat>, shape: Tree, j: nat, delta: u32): Outcome
    decreases shape
  {
    match shape
    case Attr(n, places, r) =>
      if |places| % 4 != 0 || GetAttr(TreeAt(root, tp), n).None? then Stopped
      else
        (match LiveCells(root, tp, fp, j, n, 0, |places| / 4, delta)
         case Finished(g) => LiveAttrs(g, tp, fp, r, j + 1, delta)
         case x => x)
    case _ => Finished(root)
  }

  /** The child loop, from the `k`-th child on. */
  function LiveKids(root: Tree, tp: seq<nat>, fp: seq<nat>, shape: Tree, k: nat, delta: u32): Outcome
    decreases shape, 0
  {
    match shape
    case Nil => Finished(root)
    case Attr(_, _, r) => LiveKids(root, tp, fp, r, k, delta)
    case Sub(n, b, r) =>
      match LiveChild(root, tp, fp, n, b, k, delta)
      case Finished(g) => LiveKids(g, tp, fp, r, k + 1, delta)
      case x => x
  }

  /** The `k`-th child of the lists, for the child of the node that answers to its name. */
  function LiveChild(root: Tree, tp: seq<nat>, fp: seq<nat>, n: bytes, b: Tree, k: nat, delta: u32): Outcome
    decreases b, 2
  {
    var q := KidIndex(TreeAt(root, tp), n);
    if q.None? then Stopped else Live(root, tp + [q.value], fp + [k], b, delta)
  }

  /** `overlay_update_local_node_references` for the node at `tp` and the lists at `fp`. */
  function Live(root: Tree, tp: seq<nat>, fp: seq<nat>, shape: Tree, delta: u32): Outcome
    decreases shape, 1
  {
    match LiveAttrs(root, tp, fp, shape, 0, delta)
    case Finished(g) => LiveKids(g, tp, fp, shape, 0, delta)
    case x => x
  }

  /** `overlay_update_local_references`. */
  function UpdateLocal(root: Tree, delta: u32): Outcome {
    var z := KidIndex(root, LOCAL_FIXUPS);
    if z.None? then Finished(root) else Live(root, [], [z.value], Pick(root, z.value), delta)
  }

  // ---------- Places in the blob ----------

  /** The node at `pos` stands at offset `o`. */
  ghost predicate Stands(b: bytes, top: Items, o: int, pos: seq<nat>) {
    Decodes(b, top) && Spot(top, pos).There? && o == Off(Spot(top, pos).c)
  }

  /** The overlay before and after: nothing but values changed. */
  ghost predicate Kept(b: bytes, d: bytes, top: Items, next: Items) {
    Decodes(b, top) && Decodes(d, next) && Rewritten(b, d, StructOf(d)) && Alike(top, next)
  }

  /** Where the property `name` of the node at `pos` stands. */
  function PropAt(top: Items, t: bytes, pos: seq<nat>, name: bytes): int {
    var f := Spot(top, pos);
    if f.Missing? then 0
    else
      var p := PropByName(f.body, t, name);
      if p.NoProp? then 0 else Off(f.c) + HeadSize(f.name) + Off(p.c)
  }

  /** Where the `j`-th property from `o` on stands. */
  function NthOff(it: Items, o: int, j: nat): int {
    var p := NthProp(it, j);
    if p.NoProp? then -ERR_NOTFOUND else o + Off(p.c)
  }

  function KidOff(it: Items, o: int, k: nat): int {
    var f := Kid(it, k);
    if f.Missing? then -ERR_NOTFOUND else o + Off(f.c)
  }

  /** The error code. A place outside its value is read before it is refused, and may lie behind the blob. */
  function ErrorOf(x: Outcome, b: bytes, top: Items): int
    requires Stringed(b)
  {
    match x
    case Finished(_) => 0
    case Stopped => -ERR_BADOVERLAY
    case Outside(pos, name, p) =>
      if Hdr(b).offStruct + PropAt(top, StringsOf(b), pos, name) + 12 + p + 4 <= Hdr(b).totalsize then -ERR_BADOVERLAY else -ASTRAY
  }

  lemma StandsAt(b: bytes, top: Items, o: int, pos: seq<nat>)
    requires Stands(b, top, o, pos)
    ensures var f := Spot(top, pos);
      NodeAt(b, o, f.c, f.name, f.body, f.rest) && top == Plug(f.c, Node(f.name, f.body, f.rest))
    ensures top.Node? && Readable(b) && 0 <= o <= |StructOf(b)| <= INT_MAX
    ensures Named(Spot(top, pos).body, StringsOf(b))
    ensures TreeAt(Mean(top.body, StringsOf(b)), pos) == Mean(Spot(top, pos).body, StringsOf(b))
    ensures HasPos(Mean(top.body, StringsOf(b)), pos)
  {
    hide Hdr, Block, Named, Spot, Plug, Mean, TreeAt, HasPos;
    SpotPlace(top, pos);
    var f := Spot(top, pos);
    SpotTop(top, pos);
    Placed(b, o, f.c, f.name, f.body, f.rest);
    MeanSpot(top, pos, StringsOf(b), f.body);
  }

  lemma {:induction false} SpotTop(top: Items, pos: seq<nat>)
    requires Spot(top, pos).There?
    ensures top.Node?
    decreases |pos|
  {
  }

  lemma KeptSelf(b: bytes, top: Items)
    requires Decodes(b, top)
    ensures Kept(b, b, top, top)
  {
    hide Hdr, Block, Named;
    RewrittenSelf(b);
    AlikeSelf(top);
  }

  lemma KeptTwice(b: bytes, d: bytes, e: bytes, x: Items, y: Items, z: Items)
    requires Kept(b, d, x, y) && Kept(d, e, y, z)
    ensures Kept(b, e, x, z)
  {
    hide Hdr, Decodes, Rewritten, Alike;
    assert Readable(b) && Readable(d) && Readable(e) by { KeptParts(b, d, x, y); KeptParts(d, e, y, z); }
    RewrittenTwice(b, d, e, StructOf(d), StructOf(e));
    AlikeTwice(x, y, z);
  }

  lemma KeptParts(b: bytes, d: bytes, top: Items, next: Items)
    requires Kept(b, d, top, next)
    ensures Readable(b) && Readable(d) && StringsOf(d) == StringsOf(b) && Hdr(d) == Hdr(b) && Decodes(d, next) && Alike(top, next)
    ensures |StructOf(d)| == |StructOf(b)|
  {
    hide Hdr, Block, Named, Alike;
  }

  /** Every node and every property stands where it stood. */
  lemma KeptStands(b: bytes, d: bytes, top: Items, next: Items, o: int, pos: seq<nat>)
    requires Kept(b, d, top, next) && Stands(b, top, o, pos)
    ensures Stands(d, next, o, pos) && Spot(next, pos).name == Spot(top, pos).name && Alike(Spot(top, pos).body, Spot(next, pos).body)
  {
    hide Hdr, Decodes, Rewritten, Spot, Alike;
    AlikeSpot(top, next, pos);
    KeptParts(b, d, top, next);
  }

  lemma KeptProp(top: Items, next: Items, t: bytes, pos: seq<nat>, name: bytes)
    requires Alike(top, next)
    ensures PropAt(next, t, pos, name) == PropAt(top, t, pos, name)
  {
    hide Spot, HeadSize, PropByName, Alike;
    AlikeSpot(top, next, pos);
    var f, g := Spot(top, pos), Spot(next, pos);
    if f.There? {
      AlikeProp(f.body, g.body, t, name);
    }
  }

  lemma KeptError(x: Outcome, b: bytes, d: bytes, top: Items, next: Items)
    requires Kept(b, d, top, next)
    ensures Readable(b) && Readable(d) && ErrorOf(x, d, next) == ErrorOf(x, b, top)
  {
    hide Hdr, Decodes, PropAt, Alike;
    KeptParts(b, d, top, next);
    if x.Outside? {
      KeptProp(top, next, StringsOf(b), x.pos, x.name);
    }
  }

  // ---------- The cursors ----------

  lemma {:induction false} NextPropItems(s: bytes, o: int, it: Items)
    requires Holds(s, o, it) && o % 4 == 0 && TagAt(s, o + Size(it), END_NODE)
    ensures NextProp(s, o) == NthOff(it, o, 0)
    decreases it
  {
    hide Holds, EntryAt, HeadAt, TagAt, EntrySize, HeadSize, NextTag, Size, Plug;
    HoldsFits(s, o, it);
    match it
    case Done =>
      NoItems();
      ReadTag(s, o, END_NODE);
    case Node(n, body, r) =>
      OpenNode(s, o, n, body, r);
      ScanHead(s, o, n, 0);
    case Flat(e, r) =>
      OpenFlat(s, o, e, r);
      ReadEntry(s, o, e);
      if e.Nop? {
        NextPropItems(s, o + EntrySize(e), r);
      }
  }

  lemma {:induction false} NthNext(it: Items, o: int, j: nat)
    requires NthProp(it, j).PropThere?
    ensures var p := NthProp(it, j);
            NthOff(it, o, j + 1) == NthOff(p.rest, o + Off(p.c) + EntrySize(Prop(p.nameoff, p.val)), 0)
    decreases it
  {
    hide EntrySize, Plug;
    if !(it.e.Prop? && j == 0) {
      NthNext(it.rest, o + EntrySize(it.e), if it.e.Prop? then j - 1 else j);
    }
  }

  lemma FirstPropertyIs(s: bytes, o: int, n: bytes, body: Items, r: Items)
    requires Holds(s, o, Node(n, body, r)) && o % 4 == 0
    ensures FirstProperty(s, o) == NthOff(body, o + HeadSize(n), 0)
  {
    hide Holds, HeadAt, TagAt, HeadSize, NextTag, NextProp, NthProp, Size;
    HoldsFits(s, o, Node(n, body, r));
    OpenNode(s, o, n, body, r);
    ScanHead(s, o, n, 0);
    NextPropItems(s, o + HeadSize(n), body);
  }

  /** The `j`-th property of a node, its fields, and where the next one is. */
  lemma PropertyIs(s: bytes, o: int, n: bytes, body: Items, r: Items, j: nat)
    requires Holds(s, o, Node(n, body, r)) && o % 4 == 0 && NthProp(body, j).PropThere?
    ensures var p := NthProp(body, j);
            var at := o + HeadSize(n) + Off(p.c);
      && at % 4 == 0 && EntryAt(s, at, Prop(p.nameoff, p.val))
      && CheckProp(s, at) >= 0 && NameInBlock(s, at) && PropNameOff(s, at) == p.nameoff && PropVal(s, at) == p.val
      && NextProperty(s, at) == NthOff(body, o + HeadSize(n), j + 1)
  {
    hide Holds, EntryAt, HeadAt, TagAt, HeadSize, NextTag, NextProp, Plug, PropVal, PropNameOff, NthProp, Size, EntrySize;
    var p := NthProp(body, j);
    var e := Prop(p.nameoff, p.val);
    HoldsFits(s, o, Node(n, body, r));
    OpenNode(s, o, n, body, r);
    OffAligned(p.c);
    AlignedSum(o + HeadSize(n), Off(p.c));
    HoldsInner(s, o + HeadSize(n), p.c, Flat(e, p.rest));
    var at := o + HeadSize(n) + Off(p.c);
    OpenFlat(s, at, e, p.rest);
    ReadProp(s, at, p.nameoff, p.val);
    EntryAligned(e);
    NthLast(body, j);
    PlugSize(p.c, Flat(e, p.rest));
    FlatSize(e, p.rest);
    NextPropItems(s, at + EntrySize(e), p.rest);
    NthNext(body, o + HeadSize(n), j);
  }

  lemma {:induction false} NthLast(it: Items, j: nat)
    requires NthProp(it, j).PropThere?
    ensures Behind(NthProp(it, j).c) == 0
    decreases it
  {
    hide Plug;
    if !(it.e.Prop? && j == 0) {
      NthLast(it.rest, if it.e.Prop? then j - 1 else j);
    }
  }

  lemma {:induction false} FirstKid(it: Items, o: int)
    ensures FirstNode(it, o) == KidOff(it, o, 0)
    decreases it
  {
    hide Plug;
    if it.Flat? {
      FirstKid(it.rest, o + EntrySize(it.e));
    }
  }

  lemma {:induction false} KidNext(it: Items, o: int, k: nat)
    requires Kid(it, k).There?
    ensures var f := Kid(it, k);
            KidOff(it, o, k + 1) == KidOff(f.rest, After(o + Off(f.c), f.name, f.body), 0) && Behind(f.c) == 0
    decreases it
  {
    hide HeadSize, Size, Plug, EntrySize;
    match it
    case Flat(e, r) => KidNext(r, o + EntrySize(e), k);
    case Node(n, b, r) =>
      if k > 0 {
        KidNext(r, After(o, n, b), k - 1);
      }
  }

  lemma FirstSubnodeIs(s: bytes, o: int, n: bytes, body: Items, r: Items)
    requires Holds(s, o, Node(n, body, r)) && o % 4 == 0
    ensures FirstSubnode(s, o) == KidOff(body, o + HeadSize(n), 0)
  {
    hide Holds, HeadSize, FirstSubnode, FirstNode, Kid;
    FirstChild(s, o, n, body, r);
    FirstKid(body, o + HeadSize(n));
  }

  lemma NextSubnodeIs(s: bytes, o: int, n: bytes, body: Items, r: Items, k: nat)
    requires Holds(s, o, Node(n, body, r)) && o % 4 == 0 && Kid(body, k).There?
    ensures NextSubnode(s, o + HeadSize(n) + Off(Kid(body, k).c)) == KidOff(body, o + HeadSize(n), k + 1)
  {
    hide Holds, HeadAt, TagAt, HeadSize, NextSubnode, FirstNode, Kid, Plug, Size;
    var f := Kid(body, k);
    var x := Node(f.name, f.body, f.rest);
    HoldsFits(s, o, Node(n, body, r));
    OpenNode(s, o, n, body, r);
    OffAligned(f.c);
    AlignedSum(o + HeadSize(n), Off(f.c));
    HoldsInner(s, o + HeadSize(n), f.c, x);
    KidNext(body, o + HeadSize(n), k);
    PlugSize(f.c, x);
    NextChild(s, o + HeadSize(n) + Off(f.c), x);
    FirstKid(f.rest, After(o + HeadSize(n) + Off(f.c), f.name, f.body));
  }

  /** A child of a node that stands somewhere stands one level below. */
  lemma KidStands(b: bytes, top: Items, o: int, pos: seq<nat>, k: nat)
    requires Stands(b, top, o, pos) && Kid(Spot(top, pos).body, k).There?
    ensures var f := Spot(top, pos);
            var g := Kid(f.body, k);
      && Stands(b, top, o + HeadSize(f.name) + Off(g.c), pos + [k])
      && Spot(top, pos + [k]).name == g.name && Spot(top, pos + [k]).body == g.body
  {
    hide Decodes, HeadSize, Kid;
    Extended(pos, k);
    var f := Spot(top, pos);
    var g := Kid(f.body, k);
    ComposePlug(f.c, Inside(f.name, g.c, f.rest), Done);
  }

  // ---------- One reference ----------

  /** Where the `j`-th list of the node at `fp` stands. */
  function ListOff(top: Items, fp: seq<nat>, j: nat): int {
    var f := Spot(top, fp);
    if f.Missing? then -ERR_NOTFOUND else NthOff(f.body, Off(f.c) + HeadSize(f.name), j)
  }

  lemma KeptList(top: Items, next: Items, fp: seq<nat>, j: nat)
    requires Alike(top, next)
    ensures ListOff(next, fp, j) == ListOff(top, fp, j)
  {
    hide Spot, HeadSize, NthProp, Alike;
    AlikeSpot(top, next, fp);
    var f, g := Spot(top, fp), Spot(next, fp);
    if f.There? {
      AlikeNth(f.body, g.body, j);
    }
  }

  /** A word of a list, read from the blob as it is now. */
  lemma ListWord(b: bytes, top: Items, fix: int, fp: seq<nat>, j: nat, i: nat)
    requires Stands(b, top, fix, fp) && ListOff(top, fp, j) >= 0 && top.Node?
    requires 4 * i + 4 <= |ListAt(Mean(top.body, StringsOf(b)), fp, j)|
    ensures var at := ListOff(top, fp, j) + 12 + 4 * i;
      && 0 <= at && at + 4 <= |StructOf(b)|
      && U32(StructOf(b), at) == Word(ListAt(Mean(top.body, StringsOf(b)), fp, j), i)
  {
    hide Hdr, Block, Named, Spot, Plug, Mean, TreeAt, Holds, NthProp, HeadSize, Be32, HasPos, EntryAt, Size;
    StandsAt(b, top, fix, fp);
    var f := Spot(top, fp);
    Placed(b, fix, f.c, f.name, f.body, f.rest);
    MeanNth(f.body, j, StringsOf(b));
    PropertyIs(StructOf(b), fix, f.name, f.body, f.rest, j);
    var p := NthProp(f.body, j);
    ValueWord(StructOf(b), ListOff(top, fp, j), p.nameoff, p.val, 4 * i);
  }

  /** A word inside the value of the property at `at`. */
  lemma ValueWord(s: bytes, at: int, nameoff: u32, val: bytes, p: int)
    requires EntryAt(s, at, Prop(nameoff, val)) && 0 <= p && p + 4 <= |val|
    ensures 0 <= at && at + 12 + p + 4 <= |s| && U32(s, at + 12 + p) == U32(val, p)
  {
    hide Be32;
    SliceOfSlice(s, at + 12, |val|, p, 4);
  }

  /** The property that the lookup at a node finds. */
  lemma PropFound(b: bytes, top: Items, tree: int, tp: seq<nat>, name: bytes)
    requires Stands(b, top, tree, tp) && top.Node?
    ensures var f := Spot(top, tp);
            var p := PropByName(f.body, StringsOf(b), name);
      && GetAttr(TreeAt(Mean(top.body, StringsOf(b)), tp), name) == (if p.PropThere? then Some(p.val) else None)
      && GetProperty(StructOf(b), StringsOf(b), tree, name) == (if p.PropThere? then PropAt(top, StringsOf(b), tp, name) else -ERR_NOTFOUND)
      && (p.PropThere? ==>
           var at := PropAt(top, StringsOf(b), tp, name);
           && EntryAt(StructOf(b), at, Prop(p.nameoff, p.val)) && at % 4 == 0
           && NameInBlock(StructOf(b), at) && PropVal(StructOf(b), at) == p.val)
  {
    hide Hdr, Block, Named, Spot, Plug, Mean, TreeAt, Holds, HeadSize, PropByName, GetProperty, HasPos, EntryAt, PropVal, NextTag, Size;
    StandsAt(b, top, tree, tp);
    var f := Spot(top, tp);
    Placed(b, tree, f.c, f.name, f.body, f.rest);
    GetPropertyOk(StructOf(b), StringsOf(b), tree, f.name, f.body, f.rest, name);
    PropByNameMean(f.body, StringsOf(b), name);
    if PropByName(f.body, StringsOf(b), name).PropThere? {
      FoundVal(StructOf(b), StringsOf(b), tree, f.name, f.body, f.rest, name);
    }
  }

  /** The tree with one reference increased. */
  function BumpedAt(root: Tree, tp: seq<nat>, name: bytes, val: bytes, p: int, delta: u32): Tree
    requires 0 <= p && p + 4 <= |val|
  {
    Plant(root, tp, ReplaceAttr(TreeAt(root, tp), name, Bumped(val, p, delta)))
  }

  /** One reference: it is read where it is said to be, then written through `fdt_setprop_inplace_namelen_partial`. */
  method BumpCell(fdto: array<byte>, tree: int, name: bytes, at: int, p: u32, delta: u32, ghost top: Items, ghost tp: seq<nat>, ghost val: bytes)
    returns (err: int, ghost next: Items)
    requires Stands(fdto[..], top, tree, tp) && top.Node?
    requires GetAttr(TreeAt(Mean(top.body, StringsOf(fdto[..])), tp), name) == Some(val) && at == PropAt(top, StringsOf(fdto[..]), tp, name)
    modifies fdto
    ensures Readable(old(fdto[..])) && next.Node? && Kept(old(fdto[..]), fdto[..], top, next)
    ensures err == if p + 4 <= |val| then 0 else ErrorOf(Outside(tp, name, p), old(fdto[..]), top)
    ensures var t := StringsOf(old(fdto[..]));
      Mean(next.body, t) == if p + 4 <= |val| then BumpedAt(Mean(top.body, t), tp, name, val, p, delta) else Mean(top.body, t)
  {
    hide Hdr, Block, Named, Mean, Size, Spot, GetAttr, ReplaceAttr, PropByName, Be32, Enc32, Put, U32, Plug, PropVal, Off, EntryAt, HeadSize,
         Holds, NextTag, TreeAt, HasPos, Plant, Became, Rewritten, Decodes, Alike, GetProperty, PropAt;
    ghost var b := fdto[..];
    StandsAt(b, top, tree, tp);
    PropFound(b, top, tree, tp, name);
    ghost var t, f := StringsOf(b), Spot(top, tp);
    ghost var found := PropByName(f.body, t, name);
    next := top;
    KeptSelf(b, top);
    EntryFields(StructOf(b), at, found.nameoff, found.val);
    var h := LoadHeader(fdto);
    if h.offStruct + at + 12 + p + 4 > h.totalsize {
      return -ASTRAY, next;
    }
    var adj := Load32(fdto, h.offStruct + at + 12 + p);
    ghost var c, n, body, r := f.c, f.name, f.body, f.rest;
    if p + 4 <= |val| {
      ValueWord(StructOf(b), at, found.nameoff, found.val, p);
      StructWord(b, at + 12 + p);
    }
    ghost var body';
    err, body' := SetPropPartial(fdto, tree, name, p, Enc32(Wrap(adj + delta)), c, n, body, r);
    NotBeyond(p, |val|, h.totalsize);
    if err == -ERR_NOSPACE {
      return -ERR_BADOVERLAY, next;
    }
    next := Plug(c, Node(n, body', r));
    AlikePatched(found, Put(val, p, Enc32(Wrap(adj + delta))));
    BumpKept(b, fdto[..], top, tp, body', name, val, Put(val, p, Enc32(Wrap(adj + delta))));
    BumpedIs(val, p, delta);
  }

  lemma StructWord(b: bytes, o: int)
    requires Framed(b) && 0 <= o && o + 4 <= |StructOf(b)|
    ensures U32(b, Hdr(b).offStruct + o) == U32(StructOf(b), o)
  {
    hide Hdr, Be32;
    StructBytes(b, o, 4);
  }

  lemma NotBeyond(p: u32, n: int, total: int)
    requires p + 4 <= total <= INT_MAX
    ensures !Beyond(n, p, 4)
  {
  }

  lemma BumpedIs(val: bytes, p: int, delta: u32)
    requires 0 <= p && p + 4 <= |val|
    ensures Bumped(val, p, delta) == Put(val, p, Enc32(Wrap(U32(val, p) + delta)))
  {
  }

  /** The node with the patched property, back in its place. */
  lemma BumpKept(b: bytes, d: bytes, top: Items, tp: seq<nat>, body': Items, name: bytes, val: bytes, new_: bytes)
    requires Decodes(b, top) && Spot(top, tp).There? && Alike(Spot(top, tp).body, body')
    requires var f, t := Spot(top, tp), StringsOf(b);
      && Became(b, d, f.c, Node(f.name, body', f.rest), Sub(f.name, ReplaceAttr(Mean(f.body, t), name, new_), Mean(f.rest, t)))
    ensures var f, t := Spot(top, tp), StringsOf(b);
            var next := Plug(f.c, Node(f.name, body', f.rest));
      && Kept(b, d, top, next) && next.Node? && top.Node?
      && Mean(next.body, t) == Plant(Mean(top.body, t), tp, ReplaceAttr(TreeAt(Mean(top.body, t), tp), name, new_))
  {
    hide Hdr, Block, Named, Spot, Plug, Mean, TreeAt, HasPos, Plant, Rewritten, Alike, ReplaceAttr, MeanCtx;
    var f, t := Spot(top, tp), StringsOf(b);
    SpotTop(top, tp);
    SpotPlace(top, tp);
    MeanSpot(top, tp, t, body');
    MeanNode(f.name, body', f.rest, t);
    AlikeNode(f.c, f.name, f.body, body', f.rest);
  }

  // ---------- The loops ----------

  /** The loop over the places in one list of `n` words. */
  method UpdateCells(fdto: array<byte>, tree: int, name: bytes, at: int, list: int, n: nat, delta: u32,
                     ghost top: Items, ghost tp: seq<nat>, ghost fix: int, ghost fp: seq<nat>, ghost j: nat)
    returns (err: int, ghost next: Items)
    requires Stands(fdto[..], top, tree, tp) && Stands(fdto[..], top, fix, fp) && top.Node?
    requires GetAttr(TreeAt(Mean(top.body, StringsOf(fdto[..])), tp), name).Some? && at == PropAt(top, StringsOf(fdto[..]), tp, name)
    requires list == ListOff(top, fp, j) && list >= 0 && |ListAt(Mean(top.body, StringsOf(fdto[..])), fp, j)| == 4 * n
    modifies fdto
    ensures Readable(old(fdto[..])) && next.Node? && Kept(old(fdto[..]), fdto[..], top, next)
    ensures var x := LiveCells(Mean(top.body, StringsOf(old(fdto[..]))), tp, fp, j, name, 0, n, delta);
      && err == ErrorOf(x, old(fdto[..]), top) && (x.Finished? ==> Mean(next.body, StringsOf(old(fdto[..]))) == x.root)
  {
    hide Hdr, Mean, Spot, GetAttr, ReplaceAttr, TreeAt, HasPos, Plant, Decodes, Rewritten, Alike, PropAt, ListOff, ListAt, Bumped, Be32;
    ghost var b := fdto[..];
    StandsAt(b, top, tree, tp);
    KeptSelf(b, top);
    ghost var t := StringsOf(b);
    next := top;
    var i := 0;
    while i < n
      invariant 0 <= i <= n && next.Node? && Kept(b, fdto[..], top, next)
      invariant LiveCells(Mean(top.body, t), tp, fp, j, name, 0, n, delta) == LiveCells(Mean(next.body, t), tp, fp, j, name, i, n, delta)
      invariant GetAttr(TreeAt(Mean(next.body, t), tp), name).Some? && |ListAt(Mean(next.body, t), fp, j)| == 4 * n
    {
      ghost var d, x := fdto[..], next;
      KeptParts(b, d, top, x);
      KeptStands(b, d, top, x, tree, tp);
      KeptStands(b, d, top, x, fix, fp);
      KeptProp(top, x, t, tp, name);
      KeptList(top, x, fp, j);
      ListWord(d, x, fix, fp, j, i);
      var h := LoadHeader(fdto);
      var p := LoadStruct32(fdto, h, list + 12 + 4 * i);
      ghost var val := GetAttr(TreeAt(Mean(x.body, t), tp), name).value;
      err, next := BumpCell(fdto, tree, name, at, p, delta, x, tp, val);
      KeptTwice(b, d, fdto[..], top, x, next);
      if err != 0 {
        KeptError(Outside(tp, name, p), b, d, top, x);
        return;
      }
      StandsAt(d, x, tree, tp);
      OkIsInside(p, |val|, tp, name, d, x);
      BumpedHere(Mean(x.body, t), tp, name, val, p, delta);
      SameListLength(x, next, t, fp, j) by { KeptParts(d, fdto[..], x, next); }
      i := i + 1;
    }
    err := 0;
  }

  lemma OkIsInside(p: u32, n: nat, tp: seq<nat>, name: bytes, b: bytes, top: Items)
    requires Readable(b) && (if p + 4 <= n then 0 else ErrorOf(Outside(tp, name, p), b, top)) == 0
    ensures p + 4 <= n
  {
    hide Hdr, PropAt;
  }

  lemma BumpedHere(root: Tree, tp: seq<nat>, name: bytes, val: bytes, p: int, delta: u32)
    requires HasPos(root, tp) && GetAttr(TreeAt(root, tp), name) == Some(val) && 0 <= p && p + 4 <= |val|
    ensures GetAttr(TreeAt(BumpedAt(root, tp, name, val, p, delta), tp), name) == Some(Bumped(val, p, delta))
  {
    hide TreeAt, HasPos, Plant, GetAttr, ReplaceAttr, Bumped;
    var v := Bumped(val, p, delta);
    PlantedHere(root, tp, ReplaceAttr(TreeAt(root, tp), name, v), Nil);
    GetReplaced(TreeAt(root, tp), name, v, name);
  }

  lemma SameListLength(top: Items, next: Items, t: bytes, fp: seq<nat>, j: nat)
    requires Alike(top, next) && top.Node? && next.Node? && Spot(top, fp).There?
    ensures |ListAt(Mean(next.body, t), fp, j)| == |ListAt(Mean(top.body, t), fp, j)|
  {
    hide Mean, Spot, TreeAt, HasPos, Plant, Alike, NthProp, Onward;
    AlikeSpot(top, next, fp);
    var f, g := Spot(top, fp), Spot(next, fp);
    MeanSpot(top, fp, t, f.body);
    MeanSpot(next, fp, t, g.body);
    AlikeNth(f.body, g.body, j);
    MeanNth(f.body, j, t);
    MeanNth(g.body, j, t);
  }

  /** What the property cursor meets at the `j`-th list. */
  lemma ListIs(b: bytes, top: Items, fix: int, fp: seq<nat>, j: nat, sh: Items)
    requires Stands(b, top, fix, fp) && top.Node? && Alike(sh, Spot(top, fp).body)
    ensures var s, t, at := StructOf(b), StringsOf(b), ListOff(top, fp, j);
            var rest, list := Onward(Mean(sh, t), j), ListAt(Mean(top.body, t), fp, j);
      if rest.Attr? then
        && 0 <= at <= |s| && CheckProp(s, at) >= 0 && NameInBlock(s, at) && PropVal(s, at) == list && |list| == |rest.val|
        && Str(t, PropNameOff(s, at)) == Some(rest.name) && NextProperty(s, at) == ListOff(top, fp, j + 1)
        && Onward(Mean(sh, t), j + 1) == rest.rest
      else at == -ERR_NOTFOUND
  {
    hide Hdr, Block, Spot, Plug, Mean, TreeAt, Holds, NthProp, HeadSize, HasPos, EntryAt, Size, Alike, NextProperty, CheckProp, PropVal,
         PropNameOff, Str, NameOf;
    StandsAt(b, top, fix, fp);
    var t, f := StringsOf(b), Spot(top, fp);
    Placed(b, fix, f.c, f.name, f.body, f.rest);
    AlikeNth(sh, f.body, j);
    MeanNth(sh, j, t);
    MeanNth(f.body, j, t);
    OnwardNext(Mean(sh, t), j);
    if NthProp(f.body, j).PropThere? {
      PropertyIs(StructOf(b), fix, f.name, f.body, f.rest, j);
      NthNamed(f.body, j, t);
      PropBounds(StructOf(b), ListOff(top, fp, j));
    }
  }

  lemma PropBounds(s: bytes, o: int)
    requires CheckProp(s, o) >= 0
    ensures 0 <= o <= |s|
  {
    hide NextTag;
    TagInBlock(s, o);
  }

  lemma {:induction false} OnwardNext(f: Tree, j: nat)
    ensures Onward(f, j).Attr? ==> Onward(f, j + 1) == Onward(f, j).rest
    decreases f
  {
    if f.Attr? && j > 0 {
      OnwardNext(f.rest, j - 1);
    }
  }

  /** The property loop. */
  method UpdateProps(fdto: array<byte>, tree: int, fix: int, delta: u32, ghost top: Items, ghost tp: seq<nat>, ghost fp: seq<nat>, ghost sh: Items)
    returns (err: int, ghost next: Items)
    requires Stands(fdto[..], top, tree, tp) && Stands(fdto[..], top, fix, fp) && top.Node? && Alike(sh, Spot(top, fp).body)
    modifies fdto
    ensures Readable(old(fdto[..])) && next.Node? && Kept(old(fdto[..]), fdto[..], top, next)
    ensures var t := StringsOf(old(fdto[..]));
            var x := LiveAttrs(Mean(top.body, t), tp, fp, Mean(sh, t), 0, delta);
      && err == ErrorOf(x, old(fdto[..]), top) && (x.Finished? ==> Mean(next.body, t) == x.root)
  {
    hide Hdr, Mean, Spot, GetAttr, TreeAt, Decodes, Rewritten, Alike, PropAt, ListOff, ListAt, FirstProperty, NextProperty, CheckProp,
         PropVal, PropNameOff, Str, LiveCells, GetProperty, Onward, HasPos;
    ghost var b := fdto[..];
    StandsAt(b, top, fix, fp);
    StandsAt(b, top, tree, tp);
    ghost var t := StringsOf(b);
    KeptSelf(b, top);
    next := top;
    ghost var j, rest := 0, Mean(sh, t);
    FirstListIs(b, top, fix, fp, sh);
    var at := ReadFirstProperty(fdto, fix);
    ListIs(b, top, fix, fp, 0, sh);
    while at >= 0
      invariant next.Node? && Kept(b, fdto[..], top, next) && Spot(next, fp).There? && Alike(sh, Spot(next, fp).body)
      invariant at == ListOff(next, fp, j) && rest == Onward(Mean(sh, t), j) && (at >= 0 <==> rest.Attr?)
      invariant LiveAttrs(Mean(top.body, t), tp, fp, Mean(sh, t), 0, delta) == LiveAttrs(Mean(next.body, t), tp, fp, rest, j, delta)
      decreases rest
    {
      ghost var d, x := fdto[..], next;
      KeptParts(b, d, top, x);
      KeptStands(b, d, top, x, tree, tp);
      KeptStands(b, d, top, x, fix, fp);
      ListIs(d, x, fix, fp, j, sh);
      var err1, nameoff, list := ReadProperty(fdto, at);
      var name := ReadString(fdto, nameoff);
      if |list| % 4 != 0 {
        return -ERR_BADOVERLAY, next;
      }
      StandsAt(d, x, tree, tp);
      PropFound(d, x, tree, tp, name.value);
      var p := ReadGetProperty(fdto, tree, name.value);
      if p < 0 {
        return if p == -ERR_NOTFOUND then -ERR_BADOVERLAY else p, next;
      }
      err, next := UpdateCells(fdto, tree, name.value, p, at, |list| / 4, delta, x, tp, fix, fp, j);
      KeptTwice(b, d, fdto[..], top, x, next);
      ghost var one := LiveCells(Mean(x.body, t), tp, fp, j, name.value, 0, |list| / 4, delta);
      if err != 0 {
        KeptError(one, b, d, top, x);
        return;
      }
      OnlyFinished(one, d, x);
      KeptParts(d, fdto[..], x, next);
      KeptStands(d, fdto[..], x, next, fix, fp);
      AlikeTwice(sh, Spot(x, fp).body, Spot(next, fp).body);
      KeptList(x, next, fp, j);
      StandsAt(fdto[..], next, fix, fp);
      ListIs(fdto[..], next, fix, fp, j, sh);
      ListIs(fdto[..], next, fix, fp, j + 1, sh);
      at := ReadNextProperty(fdto, at);
      j, rest := j + 1, rest.rest;
    }
    err := 0;
  }

  lemma OnlyFinished(x: Outcome, b: bytes, top: Items)
    requires Readable(b) && ErrorOf(x, b, top) == 0
    ensures x.Finished?
  {
    hide Hdr, PropAt;
  }

  lemma FirstListIs(b: bytes, top: Items, fix: int, fp: seq<nat>, sh: Items)
    requires Stands(b, top, fix, fp)
    ensures Readable(b) && FirstProperty(StructOf(b), fix) == ListOff(top, fp, 0) && Onward(Mean(sh, StringsOf(b)), 0) == Mean(sh, StringsOf(b))
  {
    hide Hdr, Block, Spot, Plug, Mean, TreeAt, Holds, NthProp, HeadSize, HasPos, FirstProperty, Size;
    StandsAt(b, top, fix, fp);
    var f := Spot(top, fp);
    Placed(b, fix, f.c, f.name, f.body, f.rest);
    FirstPropertyIs(StructOf(b), fix, f.name, f.body, f.rest);
  }

  // ---------- The recursion ----------

  /** Where the `k`-th child of the node at `fp` stands. */
  function SubOff(top: Items, fp: seq<nat>, k: nat): int {
    var f := Spot(top, fp);
    if f.Missing? then -ERR_NOTFOUND else KidOff(f.body, Off(f.c) + HeadSize(f.name), k)
  }

  lemma KeptSub(top: Items, next: Items, fp: seq<nat>, k: nat)
    requires Alike(top, next)
    ensures SubOff(next, fp, k) == SubOff(top, fp, k)
  {
    hide Spot, HeadSize, Kid, Alike;
    AlikeSpot(top, next, fp);
    var f, g := Spot(top, fp), Spot(next, fp);
    if f.There? {
      AlikeKid(f.body, g.body, k);
    }
  }

  lemma FirstSubIs(b: bytes, top: Items, fix: int, fp: seq<nat>)
    requires Stands(b, top, fix, fp)
    ensures Readable(b) && FirstSubnode(StructOf(b), fix) == SubOff(top, fp, 0)
  {
    hide Hdr, Block, Spot, Plug, Mean, TreeAt, Holds, Kid, HeadSize, HasPos, FirstSubnode, Size;
    StandsAt(b, top, fix, fp);
    var f := Spot(top, fp);
    Placed(b, fix, f.c, f.name, f.body, f.rest);
    FirstSubnodeIs(StructOf(b), fix, f.name, f.body, f.rest);
  }

  /** What the child cursor meets at the `k`-th child of the lists. */
  lemma SubIs(b: bytes, top: Items, fix: int, fp: seq<nat>, k: nat, sh: Items)
    requires Stands(b, top, fix, fp) && top.Node? && Alike(sh, Spot(top, fp).body)
    ensures var s, t, at, g := StructOf(b), StringsOf(b), SubOff(top, fp, k), Kid(sh, k);
            var rest := Later(Mean(sh, t), k);
      if g.There? then
        && 0 <= at <= |s| && Stands(b, top, at, fp + [k]) && Spot(top, fp + [k]).name == g.name && k < |Order(Mean(sh, t))|
        && NextSubnode(s, at) == SubOff(top, fp, k + 1)
        && rest.Sub? && rest.name == g.name && rest.body == Mean(g.body, t) && Later(rest.rest, 0) == Later(Mean(sh, t), k + 1)
        && Alike(g.body, Spot(top, fp + [k]).body) && Size(g.body) < Size(sh)
      else at == -ERR_NOTFOUND && rest == Nil
  {
    hide Hdr, Block, Spot, Plug, Mean, TreeAt, Holds, Kid, HeadSize, HasPos, Size, Alike, NextSubnode, CheckNode, NameAt, HeadAt, Decodes;
    StandsAt(b, top, fix, fp);
    var t, f := StringsOf(b), Spot(top, fp);
    Placed(b, fix, f.c, f.name, f.body, f.rest);
    AlikeKid(sh, f.body, k);
    MeanKid(sh, k, t);
    var g := Kid(sh, k);
    if g.There? {
      KidStands(b, top, fix, fp, k);
      StandsAt(b, top, SubOff(top, fp, k), fp + [k]);
      NextSubnodeIs(StructOf(b), fix, f.name, f.body, f.rest, k);
      LaterNext(Mean(sh, t), k);
      PlugSize(g.c, Node(g.name, g.body, g.rest));
      NodeSize(g.name, g.body, g.rest);
    }
  }

  lemma {:induction false} LaterNext(f: Tree, k: nat)
    ensures Later(f, k).Sub? ==> Later(Later(f, k).rest, 0) == Later(f, k + 1)
    decreases f
  {
    match f
    case Nil =>
    case Attr(_, _, r) => LaterNext(r, k);
    case Sub(_, _, r) => if k > 0 { LaterNext(r, k - 1); }
  }

  lemma {:induction false} LiveSkips(root: Tree, tp: seq<nat>, fp: seq<nat>, shape: Tree, k: nat, delta: u32)
    ensures LiveKids(root, tp, fp, shape, k, delta) == LiveKids(root, tp, fp, Later(shape, 0), k, delta)
    decreases shape
  {
    hide Live;
    if shape.Attr? {
      LiveSkips(root, tp, fp, shape.rest, k, delta);
    }
  }

  /** Where the child lookup in the tree leads. */
  lemma TargetIs(b: bytes, top: Items, tree: int, tp: seq<nat>, name: bytes)
    requires Stands(b, top, tree, tp) && top.Node?
    ensures var q, r := KidIndex(TreeAt(Mean(top.body, StringsOf(b)), tp), name), SubnodeOffset(StructOf(b), tree, name);
      if q.None? then r == -ERR_NOTFOUND else r >= 0 && Stands(b, top, r, tp + [q.value])
  {
    hide Hdr, Block, Spot, Plug, Mean, TreeAt, Holds, Kid, HeadSize, HasPos, Size, SubnodeOffset, ChildByName, Decodes, KidIndex;
    StandsAt(b, top, tree, tp);
    var f := Spot(top, tp);
    Placed(b, tree, f.c, f.name, f.body, f.rest);
    SubnodeOffsetOk(StructOf(b), tree, f.name, f.body, f.rest, name);
    KidByName(f.body, StringsOf(b), name);
    var q := KidIndex(TreeAt(Mean(top.body, StringsOf(b)), tp), name);
    if q.Some? {
      IndexIs(Mean(f.body, StringsOf(b)), name, Nil);
      MeanKid(f.body, q.value, StringsOf(b));
      KidStands(b, top, tree, tp, q.value);
    }
  }

  /** The first child of the lists, after the properties. */
  lemma SubsKept(b: bytes, d: bytes, top: Items, next: Items, fix: int, fp: seq<nat>, sh: Items)
    requires Kept(b, d, top, next) && Stands(b, top, fix, fp) && top.Node? && next.Node? && Alike(sh, Spot(top, fp).body)
    ensures Readable(d) && StringsOf(d) == StringsOf(b) && Stands(d, next, fix, fp) && Alike(sh, Spot(next, fp).body)
    ensures FirstSubnode(StructOf(d), fix) == SubOff(next, fp, 0)
    ensures var rest := Later(Mean(sh, StringsOf(d)), 0); if SubOff(next, fp, 0) >= 0 then rest.Sub? else rest == Nil
  {
    hide Hdr, Mean, Spot, Decodes, Rewritten, Alike, SubOff, Kid, Size, FirstSubnode, NextSubnode, Later, Order;
    KeptParts(b, d, top, next);
    KeptStands(b, d, top, next, fix, fp);
    AlikeTwice(sh, Spot(top, fp).body, Spot(next, fp).body);
    FirstSubIs(d, next, fix, fp);
    SubIs(d, next, fix, fp, 0, sh);
  }

  /** The next child of the lists, after the `k`-th. */
  lemma SubKept(b: bytes, d: bytes, top: Items, next: Items, fix: int, fp: seq<nat>, k: nat, sh: Items)
    requires Kept(b, d, top, next) && Stands(b, top, fix, fp) && top.Node? && next.Node? && Alike(sh, Spot(top, fp).body) && Kid(sh, k).There?
    ensures Readable(d) && StringsOf(d) == StringsOf(b) && Stands(d, next, fix, fp) && Alike(sh, Spot(next, fp).body)
    ensures SubOff(top, fp, k) <= INT_MAX && NextSubnode(StructOf(d), SubOff(top, fp, k)) == SubOff(next, fp, k + 1)
    ensures var rest := Later(Mean(sh, StringsOf(d)), k + 1); if SubOff(next, fp, k + 1) >= 0 then rest.Sub? else rest == Nil
  {
    hide Hdr, Mean, Spot, Decodes, Rewritten, Alike, SubOff, Kid, Size, FirstSubnode, NextSubnode, Later, Order;
    KeptParts(b, d, top, next);
    KeptStands(b, d, top, next, fix, fp);
    AlikeTwice(sh, Spot(top, fp).body, Spot(next, fp).body);
    KeptSub(top, next, fp, k);
    StandsAt(d, next, fix, fp);
    SubIs(d, next, fix, fp, k, sh);
    SubIs(d, next, fix, fp, k + 1, sh);
  }

  /** `overlay_update_local_node_references`. */
  method UpdateNode(fdto: array<byte>, tree: int, fix: int, delta: u32, ghost top: Items, ghost tp: seq<nat>, ghost fp: seq<nat>, ghost sh: Items)
    returns (err: int, ghost next: Items)
    requires Stands(fdto[..], top, tree, tp) && Stands(fdto[..], top, fix, fp) && top.Node? && Alike(sh, Spot(top, fp).body)
    modifies fdto
    ensures Readable(old(fdto[..])) && next.Node? && Kept(old(fdto[..]), fdto[..], top, next)
    ensures var t := StringsOf(old(fdto[..]));
            var x := Live(Mean(top.body, t), tp, fp, Mean(sh, t), delta);
      && err == ErrorOf(x, old(fdto[..]), top) && (x.Finished? ==> Mean(next.body, t) == x.root)
    decreases Size(sh), 0
  {
    hide Hdr, Mean, Spot, TreeAt, Decodes, Rewritten, Alike, PropAt, SubOff, LiveAttrs, LiveChild, HasPos, Kid, Size, FirstSubnode,
         NextSubnode, Later, Order;
    ghost var b := fdto[..];
    StandsAt(b, top, fix, fp);
    StandsAt(b, top, tree, tp);
    ghost var t := StringsOf(b);
    err, next := UpdateProps(fdto, tree, fix, delta, top, tp, fp, sh);
    ghost var own := LiveAttrs(Mean(top.body, t), tp, fp, Mean(sh, t), 0, delta);
    if err != 0 {
      return;
    }
    OnlyFinished(own, b, top);
    ghost var k, rest := 0, Later(Mean(sh, t), 0);
    LiveSkips(own.root, tp, fp, Mean(sh, t), 0, delta);
    SubsKept(b, fdto[..], top, next, fix, fp, sh);
    var sub := ReadFirstSubnode(fdto, fix);
    while sub >= 0
      invariant next.Node? && Kept(b, fdto[..], top, next) && Spot(next, fp).There? && Alike(sh, Spot(next, fp).body)
      invariant sub == SubOff(next, fp, k) && rest == Later(Mean(sh, t), k) && (sub >= 0 <==> rest.Sub?) && (sub < 0 ==> rest == Nil)
      invariant Live(Mean(top.body, t), tp, fp, Mean(sh, t), delta) == LiveKids(Mean(next.body, t), tp, fp, rest, k, delta)
      decreases |Order(Mean(sh, t))| - k
    {
      ghost var d, x := fdto[..], next;
      KeptParts(b, d, top, x);
      KeptStands(b, d, top, x, tree, tp);
      KeptStands(b, d, top, x, fix, fp);
      SubIs(d, x, fix, fp, k, sh);
      ghost var one := LiveChild(Mean(x.body, t), tp, fp, rest.name, rest.body, k, delta);
      err, next := UpdateChild(fdto, tree, sub, delta, x, tp, fp, k, Kid(sh, k).body);
      KeptTwice(b, d, fdto[..], top, x, next);
      if err != 0 {
        KeptError(one, b, d, top, x);
        return;
      }
      OnlyFinished(one, d, x);
      LiveSkips(one.root, tp, fp, rest.rest, k + 1, delta);
      SubKept(d, fdto[..], x, next, fix, fp, k, sh);
      sub := ReadNextSubnode(fdto, sub);
      k, rest := k + 1, Later(rest.rest, 0);
    }
    err := 0;
  }

  /** One child of the lists: it is looked up by its name. */
  method UpdateChild(fdto: array<byte>, tree: int, sub: int, delta: u32,
                     ghost top: Items, ghost tp: seq<nat>, ghost fp: seq<nat>, ghost k: nat, ghost sh: Items)
    returns (err: int, ghost next: Items)
    requires Stands(fdto[..], top, tree, tp) && Stands(fdto[..], top, sub, fp + [k]) && top.Node? && Alike(sh, Spot(top, fp + [k]).body)
    modifies fdto
    ensures Readable(old(fdto[..])) && next.Node? && Kept(old(fdto[..]), fdto[..], top, next)
    ensures var t := StringsOf(old(fdto[..]));
            var x := LiveChild(Mean(top.body, t), tp, fp, Spot(top, fp + [k]).name, Mean(sh, t), k, delta);
      && err == ErrorOf(x, old(fdto[..]), top) && (x.Finished? ==> Mean(next.body, t) == x.root)
    decreases Size(sh), 1
  {
    hide Hdr, Mean, Spot, TreeAt, Decodes, Rewritten, Alike, PropAt, Live, HasPos, CheckNode, NameAt, SubnodeOffset, KidIndex, Size;
    ghost var b := fdto[..];
    StandsAt(b, top, tree, tp);
    NameIs(b, top, sub, fp + [k]);
    KeptSelf(b, top);
    next := top;
    var name;
    err, name := ReadName(fdto, sub);
    TargetIs(b, top, tree, tp, name);
    var child := ReadSubnodeOffset(fdto, tree, name);
    if child < 0 {
      return if child == -ERR_NOTFOUND then -ERR_BADOVERLAY else child, next;
    }
    ghost var q := KidIndex(TreeAt(Mean(top.body, StringsOf(b)), tp), name).value;
    err, next := UpdateNode(fdto, child, sub, delta, top, tp + [q], fp + [k], sh);
  }

  lemma NameIs(b: bytes, top: Items, o: int, pos: seq<nat>)
    requires Stands(b, top, o, pos)
    ensures Readable(b) && o <= INT_MAX && CheckNode(StructOf(b), o) >= 0 && NameAt(StructOf(b), o) == Spot(top, pos).name
  {
    hide Hdr, Block, Spot, Plug, Mean, TreeAt, Holds, HeadSize, HasPos, Size, CheckNode, NameAt, HeadAt, Decodes;
    StandsAt(b, top, o, pos);
    var e := Spot(top, pos);
    Placed(b, o, e.c, e.name, e.body, e.rest);
    HoldsFits(StructOf(b), o, Node(e.name, e.body, e.rest));
    OpenNode(StructOf(b), o, e.name, e.body, e.rest);
    ScanHead(StructOf(b), o, e.name, 0);
  }
}
