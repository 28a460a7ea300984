/** Merging an overlay into a base tree (fdt_overlay.c), blob into blob. */
module Overlay {
  import opened Options
  import opened Bytes
  import opened Structure
  import opened Blob
  import opened Walk
  import opened Read
  import opened Meaning
  import opened Core
  import opened Edit
  import opened Nodes

  // ---------- Chains of edits ----------

  lemma NowTwice(b: bytes, d: bytes, e: bytes, c: Ctx, w: Items, x: Items, y: Items, f: Tree, g: Tree)
    requires Denotes(b, Plug(c, w))
    requires Now(b, d, c, x, f) && Now(d, e, c, y, g)
    ensures Now(b, e, c, y, g)
  {
    hide Hdr, Edited, Block, Named, Mean, MeanCtx, Plug, NamedCtx;
    EditedTwice(b, d, e, StructOf(d), StringsOf(d), StructOf(e), StringsOf(e));
    MeanPlug(c, w, StringsOf(b));
    MeanCtxExtend(c, StringsOf(b), StringsOf(d));
  }

  lemma NowSelf(b: bytes, c: Ctx, x: Items)
    requires Denotes(b, Plug(c, x))
    ensures Now(b, b, c, x, Mean(x, StringsOf(b)))
  {
    hide Hdr, Edited, Block, Named, Mean, MeanCtx, Plug;
    EditedSelf(b);
    MeanPlug(c, x, StringsOf(b));
  }

  /** An edit below a node is an edit of the node. */
  lemma NowOuter(b: bytes, d: bytes, c: Ctx, n: bytes, k: Ctx, r: Items, x: Items, y: Items, g: Tree)
    requires Denotes(b, Plug(c, Node(n, Plug(k, x), r)))
    requires Now(b, d, Compose(c, Inside(n, k, r)), y, g)
    ensures Now(b, d, c, Node(n, Plug(k, y), r), Sub(n, Mean(Plug(k, y), StringsOf(d)), Mean(r, StringsOf(b))))
  {
    hide Hdr, Edited, Block, Named, Mean, MeanCtx, Plug, NamedCtx;
    var t, u := StringsOf(b), StringsOf(d);
    PlugDeep(c, n, k, r, x);
    PlugDeep(c, n, k, r, y);
    NodeParts(b, c, n, Plug(k, x), r);
    MeanExtend(r, t, u);
    MeanNode(n, Plug(k, y), r, u);
    MeanCtxExtend(c, t, u);
    MeanPlug(c, Node(n, Plug(k, y), r), u);
  }

  lemma NowDenotes(b: bytes, d: bytes, c: Ctx, x: Items, f: Tree)
    requires Now(b, d, c, x, f)
    ensures Ready(b) && Ready(d) && Denotes(d, Plug(c, x))
    ensures Mean(x, StringsOf(d)) == f && StringsOf(b) <= StringsOf(d)
    ensures Wellformed(d)
  {
    hide Block, Named, Mean, MeanCtx, Plug, Hdr, CheckHeader;
    OrderedPasses(Hdr(d));
  }

  // ---------- Cursors over the overlay's items ----------

  lemma StrHasNoNul(t: bytes, off: int)
    requires Str(t, off).Some?
    ensures 0 !in Str(t, off).value
  {
    NulCStr(t, off);
  }

  /** Behind NOP tags the property cursor stands on a property or on nothing. */
  lemma {:induction false} SkipNops(s: bytes, q: int, it: Items, t: bytes) returns (p: int, rem: Items)
    requires Holds(s, q, it) && q % 4 == 0 && TagAt(s, q + Size(it), END_NODE) && Named(it, t)
    ensures 0 <= p && Holds(s, p, rem) && p % 4 == 0 && TagAt(s, p + Size(rem), END_NODE) && Named(rem, t)
    ensures NextProp(s, q) == NextProp(s, p) && Mean(rem, t) == Mean(it, t) && Size(rem) <= Size(it)
    ensures if rem.Flat? then rem.e.Prop? && NextProp(s, q) == p else NextProp(s, q) < 0
    decreases it
  {
    hide Holds, EntryAt, HeadAt, TagAt, EntrySize, HeadSize, NextTag, Str;
    HoldsFits(s, q, it);
    p, rem := q, it;
    match it
    case Done => ReadTag(s, q, END_NODE);
    case Node(n, body, r) =>
      OpenNode(s, q, n, body, r);
      ScanHead(s, q, n, 0);
    case Flat(e, r) =>
      OpenFlat(s, q, e, r);
      ReadEntry(s, q, e);
      if e.Nop? {
        p, rem := SkipNops(s, q + EntrySize(e), r, t);
      }
  }

  /** Behind properties and NOP tags the child cursor stands on a child or on nothing. */
  lemma {:induction false} SkipFlats(s: bytes, q: int, it: Items, t: bytes, f: Tree) returns (p: int, rem: Items)
    requires Holds(s, q, it) && q % 4 == 0 && TagAt(s, q + Size(it), END_NODE) && Named(it, t)
    ensures 0 <= p && Holds(s, p, rem) && p % 4 == 0 && TagAt(s, p + Size(rem), END_NODE) && Named(rem, t)
    ensures FirstNode(it, q) == FirstNode(rem, p) && Size(rem) <= Size(it)
    ensures MergeChildren(f, Mean(it, t)) == MergeChildren(f, Mean(rem, t))
    ensures KidsNeed(Mean(it, t)) == KidsNeed(Mean(rem, t))
    ensures !rem.Flat?
    decreases it
  {
    hide Holds, EntryAt, TagAt, EntrySize, Str, NameOf;
    HoldsFits(s, q, it);
    p, rem := q, it;
    if it.Flat? {
      OpenFlat(s, q, it.e, it.rest);
      p, rem := SkipFlats(s, q + EntrySize(it.e), it.rest, t, f);
    }
  }

  // ---------- overlay_apply_node ----------

  /** What applying the overlay content `ov` to the node has achieved: the outcome is the pure merge. */
  ghost predicate Applied(b: bytes, d: bytes, c: Ctx, n: bytes, body: Items, body': Items, r: Items, f: Tree) {
    Ready(b) && Now(b, d, c, Node(n, body', r), Sub(n, f, Mean(r, StringsOf(b))))
  }

  /** A cursor into the overlay: the items still to come stand at `q`, the end of their node behind them. */
  ghost predicate Cursor(s: bytes, q: int, rem: Items, t: bytes) {
    0 <= q && q % 4 == 0 && Holds(s, q, rem) && TagAt(s, q + Size(rem), END_NODE) && Named(rem, t)
  }

  /** From `b` on, edits of one node have led to `d`, where its content is `x`. */
  ghost predicate Reached(b: bytes, d: bytes, c: Ctx, n: bytes, x: Items, r: Items) {
    && Ready(b) && Ready(d) && Wellformed(d)
    && Now(b, d, c, Node(n, x, r), Sub(n, Mean(x, StringsOf(d)), Mean(r, StringsOf(b))))
  }

  lemma ReachedSelf(b: bytes, c: Ctx, n: bytes, x: Items, r: Items)
    requires Wellformed(b) && Denotes(b, Plug(c, Node(n, x, r)))
    ensures Reached(b, b, c, n, x, r)
  {
    hide Hdr, Plug, Mean, Named, Now, Block, CheckHeader;
    NowSelf(b, c, Node(n, x, r));
    MeanNode(n, x, r, StringsOf(b));
  }

  lemma ReachedDenotes(b: bytes, d: bytes, c: Ctx, n: bytes, x: Items, r: Items)
    requires Reached(b, d, c, n, x, r)
    ensures Ready(d) && Wellformed(d) && Denotes(d, Plug(c, Node(n, x, r)))
  {
    hide Hdr, Plug, Mean, Named, Now, Block, CheckHeader;
    NowDenotes(b, d, c, Node(n, x, r), Sub(n, Mean(x, StringsOf(d)), Mean(r, StringsOf(b))));
  }

  lemma ReachedStep(b: bytes, d: bytes, e: bytes, c: Ctx, n: bytes, w: Items, x: Items, y: Items, r: Items, g: Tree)
    requires Denotes(b, Plug(c, Node(n, w, r))) && Reached(b, d, c, n, x, r)
    requires Applied(d, e, c, n, x, y, r, g)
    ensures Ready(e) && Mean(y, StringsOf(e)) == g && Reached(b, e, c, n, y, r)
  {
    hide Hdr, Plug, Mean, Named, Now, Block, CheckHeader;
    StepDone(b, d, e, c, n, w, x, y, r, g);
  }

  // ---------- Space ----------

  /** More than enough for a property. */
  function PropNeed(name: bytes, val: bytes): nat {
    |name| + 13 + Align(|val|)
  }

  /** Enough for the properties in front of the first child. */
  function AttrsNeed(f: Tree): nat {
    match f
    case Attr(n, v, r) => PropNeed(n, v) + AttrsNeed(r)
    case _ => 0
  }

  /** Enough for the children and what is in them. */
  function KidsNeed(f: Tree): nat {
    match f
    case Nil => 0
    case Attr(_, _, r) => KidsNeed(r)
    case Sub(n, b, r) => NodeCost(n) + AttrsNeed(b) + KidsNeed(b) + KidsNeed(r)
  }

  /** Enough unused space for the content of an overlay node, wherever it goes. */
  function Need(f: Tree): nat {
    AttrsNeed(f) + KidsNeed(f)
  }

  /** With `need` bytes unused there is no failure, and no more than these are used. */
  ghost predicate Spends(b: bytes, d: bytes, err: int, need: nat) {
    && Ready(b) && (need <= Slack(b) ==> err == 0)
    && (err == 0 ==> Ready(d) && Slack(d) >= Slack(b) - need)
  }

  lemma CostWithin(t: bytes, was: Option<bytes>, name: bytes, val: bytes)
    ensures PropCost(t, was, name, val) <= PropNeed(name, val)
  {
  }

  lemma UntouchedSlack(b: bytes, d: bytes)
    requires Untouched(b, d)
    ensures Slack(d) == Slack(b)
  {
    SlackEdited(b, d, StructOf(b), StringsOf(b));
  }

  /** One property of the overlay set in the target node. */
  method ApplyProperty(fdt: array<byte>, target: int, fdto: array<byte>, p: int,
                       ghost c: Ctx, ghost n: bytes, ghost body: Items, ghost r: Items, ghost e: Entry)
    returns (err: int, ghost body': Items)
    requires fdt != fdto && Wellformed(fdt[..])
    requires Denotes(fdt[..], Plug(c, Node(n, body, r))) && target == Off(c)
    requires Stringed(fdto[..]) && 0 <= p <= INT_MAX && p % 4 == 0
    requires e.Prop? && EntryAt(StructOf(fdto[..]), p, e) && Str(StringsOf(fdto[..]), e.nameoff).Some?
    modifies fdt
    ensures err == 0 ==>
      Applied(old(fdt[..]), fdt[..], c, n, body, body', r,
              SetAttr(Mean(body, StringsOf(old(fdt[..]))), Str(StringsOf(fdto[..]), e.nameoff).value, e.val))
    ensures Spends(old(fdt[..]), fdt[..], err, PropNeed(Str(StringsOf(fdto[..]), e.nameoff).value, e.val))
  {
    hide Hdr, Plug, Holds, EntryAt, EntrySize, Block, Mean, Named, Off, Now, Edited, NextTag, Str, CheckHeader, PropVal, PropNameOff;
    body' := body;
    ReadProp(StructOf(fdto[..]), p, e.nameoff, e.val);
    var err1, nameoff, val := ReadProperty(fdto, p);
    var name := ReadString(fdto, nameoff);
    if name == None {
      return -ERR_BADOFFSET, body';
    }
    StrHasNoNul(StringsOf(fdto[..]), e.nameoff);
    ghost var b, t := fdt[..], StringsOf(fdt[..]);
    CostWithin(t, GetAttr(Mean(body, t), name.value), name.value, val);
    err, body' := SetProp(fdt, target, name.value, val, c, n, body, r);
  }

  /** The property loop of `overlay_apply_node`. */
  method ApplyProperties(fdt: array<byte>, target: int, fdto: array<byte>, node: int,
                         ghost c: Ctx, ghost n: bytes, ghost body: Items, ghost r: Items, ghost m: bytes, ghost ov: Items)
    returns (err: int, ghost body': Items)
    requires fdt != fdto && Wellformed(fdt[..])
    requires Denotes(fdt[..], Plug(c, Node(n, body, r))) && target == Off(c)
    requires Stringed(fdto[..]) && node % 4 == 0
    requires Holds(StructOf(fdto[..]), node, Node(m, ov, Done)) && Named(ov, StringsOf(fdto[..]))
    modifies fdt
    ensures err == 0 ==>
      Applied(old(fdt[..]), fdt[..], c, n, body, body', r,
              SetAttrs(Mean(body, StringsOf(old(fdt[..]))), Mean(ov, StringsOf(fdto[..]))))
    ensures Spends(old(fdt[..]), fdt[..], err, AttrsNeed(Mean(ov, StringsOf(fdto[..]))))
  {
    hide Hdr, Plug, Holds, TagAt, HeadAt, HeadSize, Block, Mean, Named, Off, Now, Size, NextTag, NextProp, CheckHeader,
         SetAttrs, Reached, Cursor, Applied, Wellformed, EntryAt, EntrySize, Str, SetAttr, NextProperty, CheckProp, AttrsNeed;
    ghost var b, so, to := fdt[..], StructOf(fdto[..]), StringsOf(fdto[..]);
    ghost var goal := SetAttrs(Mean(body, StringsOf(b)), Mean(ov, to));
    OpenNode(so, node, m, ov, Done);
    ScanHead(so, node, m, 0);
    HoldsFits(so, node, Node(m, ov, Done));
    CursorAt(so, node + HeadSize(m), ov, to);
    ghost var q, rem := FirstCursor(so, node + HeadSize(m), ov, to);
    body' := body;
    ReachedSelf(b, c, n, body, r);
    var p := ReadFirstProperty(fdto, node);
    while p >= 0
      invariant fdto[..] == old(fdto[..]) && Ready(fdt[..])
      invariant Cursor(so, q, rem, to)
      invariant p == NextProp(so, q) && (if rem.Flat? then rem.e.Prop? && p == q else p < 0)
      invariant Reached(b, fdt[..], c, n, body', r)
      invariant SetAttrs(Mean(body', StringsOf(fdt[..])), Mean(rem, to)) == goal
      invariant Slack(fdt[..]) - AttrsNeed(Mean(rem, to)) >= Slack(b) - AttrsNeed(Mean(ov, to))
      decreases Size(rem)
    {
      ghost var d, x := fdt[..], body';
      CursorStep(so, q, rem, to);
      SetOne(Mean(x, StringsOf(d)), rem.e, rem.rest, to);
      ReachedDenotes(b, d, c, n, x, r);
      err, body' := ApplyProperty(fdt, target, fdto, p, c, n, x, r, rem.e);
      if err != 0 {
        return;
      }
      ghost var g := SetAttr(Mean(x, StringsOf(d)), Str(to, rem.e.nameoff).value, rem.e.val);
      ReachedStep(b, d, fdt[..], c, n, body, x, body', r, g);
      p := ReadNextProperty(fdto, p);
      q, rem := NextCursor(so, q, rem, to);
    }
    CursorBounds(so, q, rem, to);
    AttrsDone(Mean(body', StringsOf(fdt[..])), rem, to);
    ReachedApplied(b, fdt[..], c, n, body, body', r, goal);
    err := 0;
  }

  /** The cursor on the first property among the items. */
  lemma FirstCursor(s: bytes, q: int, it: Items, t: bytes) returns (p: int, rem: Items)
    requires Cursor(s, q, it, t)
    ensures Cursor(s, p, rem, t) && Mean(rem, t) == Mean(it, t) && Size(rem) <= Size(it)
    ensures NextProp(s, q) == NextProp(s, p)
    ensures if rem.Flat? then rem.e.Prop? && NextProp(s, p) == p else NextProp(s, p) < 0
  {
    hide Holds, TagAt, Mean, Named, NextProp, Size;
    p, rem := SkipNops(s, q, it, t);
  }

  /** The cursor moved from a property to the next one. */
  lemma NextCursor(s: bytes, q: int, it: Items, t: bytes) returns (p: int, rem: Items)
    requires Cursor(s, q, it, t) && it.Flat? && it.e.Prop?
    ensures Cursor(s, p, rem, t) && Mean(rem, t) == Mean(it.rest, t) && Size(rem) < Size(it)
    ensures NextProperty(s, q) == NextProp(s, p)
    ensures if rem.Flat? then rem.e.Prop? && NextProp(s, p) == p else NextProp(s, p) < 0
  {
    hide Cursor, Holds, TagAt, Mean, Named, NextProp, NextProperty, Size, EntrySize, EntryAt, Str;
    CursorStep(s, q, it, t);
    CursorAt(s, q + EntrySize(it.e), it.rest, t);
    p, rem := FirstCursor(s, q + EntrySize(it.e), it.rest, t);
  }

  lemma CursorAt(s: bytes, q: int, rem: Items, t: bytes)
    requires 0 <= q && q % 4 == 0 && Holds(s, q, rem) && TagAt(s, q + Size(rem), END_NODE) && Named(rem, t)
    ensures Cursor(s, q, rem, t)
  {
    hide Holds, TagAt, Named, Size;
  }

  lemma CursorBounds(s: bytes, q: int, rem: Items, t: bytes)
    requires Cursor(s, q, rem, t)
    ensures 0 <= q <= |s| && q % 4 == 0 && Holds(s, q, rem)
  {
    hide Holds, Named, TagAt;
    HoldsFits(s, q, rem);
  }

  /** What the cursor shows on a property. */
  lemma CursorStep(s: bytes, q: int, rem: Items, t: bytes)
    requires Cursor(s, q, rem, t) && rem.Flat? && rem.e.Prop?
    ensures 0 <= q <= |s| && q % 4 == 0
    ensures EntryAt(s, q, rem.e) && Str(t, rem.e.nameoff).Some?
    ensures NextProperty(s, q) == NextProp(s, q + EntrySize(rem.e))
    ensures var p := q + EntrySize(rem.e);
            0 <= p && p % 4 == 0 && Holds(s, p, rem.rest) && TagAt(s, p + Size(rem.rest), END_NODE) && Named(rem.rest, t)
    ensures Size(rem.rest) < Size(rem)
  {
    hide Holds, EntryAt, TagAt, Named, EntrySize, Size, NextTag, Str;
    HoldsFits(s, q, rem);
    OpenFlat(s, q, rem.e, rem.rest);
    ReadEntry(s, q, rem.e);
    NamedFlat(rem.e, rem.rest, t);
  }

  lemma SetOne(f: Tree, e: Entry, r: Items, t: bytes)
    requires e.Prop? && Str(t, e.nameoff).Some?
    ensures AttrsNeed(Mean(Flat(e, r), t)) == PropNeed(Str(t, e.nameoff).value, e.val) + AttrsNeed(Mean(r, t))
    ensures SetAttrs(f, Mean(Flat(e, r), t)) == SetAttrs(SetAttr(f, Str(t, e.nameoff).value, e.val), Mean(r, t))
  {
    hide Mean, SetAttr, Str;
    MeanFlat(e, r, t);
  }

  lemma ReachedApplied(b: bytes, d: bytes, c: Ctx, n: bytes, w: Items, x: Items, r: Items, f: Tree)
    requires Reached(b, d, c, n, x, r) && Mean(x, StringsOf(d)) == f
    ensures Applied(b, d, c, n, w, x, r, f)
  {
    hide Hdr, Mean, Now, CheckHeader;
  }

  lemma NamedFlat(e: Entry, r: Items, t: bytes)
    requires Named(Flat(e, r), t)
    ensures e.Prop? ==> Str(t, e.nameoff).Some?
    ensures Named(r, t)
    ensures Size(r) < Size(Flat(e, r)) == EntrySize(e) + Size(r)
  {
    hide Str;
  }

  lemma AttrsDone(f: Tree, rem: Items, t: bytes)
    requires !rem.Flat?
    ensures SetAttrs(f, Mean(rem, t)) == f
  {
  }

  /** One more edit of the same node. */
  lemma StepDone(b: bytes, d: bytes, e: bytes, c: Ctx, n: bytes, w: Items, x: Items, y: Items, r: Items, g: Tree)
    requires Denotes(b, Plug(c, Node(n, w, r)))
    requires Ready(d) && Now(b, d, c, Node(n, x, r), Sub(n, Mean(x, StringsOf(d)), Mean(r, StringsOf(b))))
    requires Now(d, e, c, Node(n, y, r), Sub(n, g, Mean(r, StringsOf(d))))
    ensures Ready(e) && Mean(y, StringsOf(e)) == g
    ensures Now(b, e, c, Node(n, y, r), Sub(n, Mean(y, StringsOf(e)), Mean(r, StringsOf(b))))
    ensures Wellformed(d) ==> Wellformed(e)
  {
    hide Hdr, Plug, Mean, Named, Now, Edited, Block, CheckHeader, HeadSize, Holds;
    NodeParts(b, c, n, w, r);
    NowDenotes(b, d, c, Node(n, x, r), Sub(n, Mean(x, StringsOf(d)), Mean(r, StringsOf(b))));
    NowDenotes(d, e, c, Node(n, y, r), Sub(n, g, Mean(r, StringsOf(d))));
    MeanExtend(r, StringsOf(b), StringsOf(d));
    MeanNode(n, y, r, StringsOf(e));
    NowTwice(b, d, e, c, Node(n, w, r), Node(n, x, r), Node(n, y, r),
             Sub(n, Mean(x, StringsOf(d)), Mean(r, StringsOf(b))), Sub(n, g, Mean(r, StringsOf(d))));
  }

  /** Where a child of the addressed node stands, and the child itself. */
  datatype Child = Child(k: Ctx, name: bytes, body: Items, rest: Items)

  /** What the node's content is, seen around a child. */
  function Around(ch: Child): Items {
    Plug(ch.k, Node(ch.name, ch.body, ch.rest))
  }

  function ChildCtx(c: Ctx, n: bytes, ch: Child, r: Items): Ctx {
    Compose(c, Inside(n, ch.k, r))
  }

  /** `fdt_add_subnode`, or `fdt_subnode_offset` when the child exists: the child to merge into. */
  method GetOrAddChild(fdt: array<byte>, target: int, name: bytes, ghost c: Ctx, ghost n: bytes, ghost body: Items, ghost r: Items)
    returns (at: int, ghost ch: Child)
    requires Wellformed(fdt[..]) && 0 !in name
    requires Denotes(fdt[..], Plug(c, Node(n, body, r))) && target == Off(c)
    modifies fdt
    ensures at >= 0 ==>
      var b, d := old(fdt[..]), fdt[..];
      var f := GetChild(Mean(body, StringsOf(b)), name);
      && Ready(d) && Wellformed(d)
      && Denotes(d, Plug(ChildCtx(c, n, ch, r), Node(ch.name, ch.body, ch.rest)))
      && at == Off(ChildCtx(c, n, ch, r))
      && Applied(b, d, c, n, body, Around(ch), r, Mean(Around(ch), StringsOf(d)))
      && Mean(ch.body, StringsOf(d)) == (if f.Some? then f.value else Nil)
      && ChildPlace(ch, Mean(body, StringsOf(b)), name, StringsOf(d))
    ensures Spends(old(fdt[..]), fdt[..], if at < 0 then at else 0, NodeCost(name))
  {
    hide Hdr, Plug, Holds, TagAt, HeadAt, HeadSize, Block, Mean, Named, Off, Now, Edited, CheckHeader, Leading, ChildByName,
         SubnodeOffset, InsertChild, GetChild;
    ghost var b := fdt[..];
    ghost var s, t := StructOf(b), StringsOf(b);
    NodeParts(b, c, n, body, r);
    ChildByNameMean(body, t, name);
    ghost var f := ChildByName(body, name);
    ch := Child(Hole, [], Done, Done);
    at := AddSubnode(fdt, target, name, c, n, body, r);
    if at == -ERR_EXISTS {
      UntouchedNow(b, fdt[..], c, Node(n, body, r));
      UntouchedSlack(b, fdt[..]);
      SubnodeOffsetOk(s, target, n, body, r, name);
      at := ReadSubnodeOffset(fdt, target, name);
      if at == -ERR_NOTFOUND {
        at := -ERR_INTERNAL;
      }
      ch := Child(f.c, f.name, f.body, f.rest);
      ExistingChild(b, fdt[..], c, n, body, r, name);
    } else if at >= 0 {
      ghost var (k, x) := Leading(body);
      ch := Child(k, name, Done, x);
      NewChild(b, fdt[..], c, n, body, r, name);
    }
  }

  /** Putting new content into the child gives the tree with that child replaced, or inserted. */
  ghost predicate ChildPlace(ch: Child, f: Tree, name: bytes, t: bytes) {
    if GetChild(f, name).Some? then
      exists it {:trigger ChildByName(it, name)} ::
        && ChildByName(it, name) == There(ch.k, ch.name, ch.body, ch.rest)
        && Named(it, t) && Mean(it, t) == f
    else
      exists it {:trigger Leading(it)} ::
        && Leading(it) == (ch.k, ch.rest) && ch.name == name && ch.body == Done
        && Named(it, t) && Mean(it, t) == f
  }

  lemma ChildPlaceUse(ch: Child, f: Tree, name: bytes, t: bytes, u: bytes, nb: Items)
    requires ChildPlace(ch, f, name, t) && t <= u
    ensures Mean(Plug(ch.k, Node(ch.name, nb, ch.rest)), u) ==
            if GetChild(f, name).Some? then ReplaceChild(f, name, Mean(nb, u)) else InsertChild(f, name, Mean(nb, u))
  {
    hide Str, Plug, Mean, Named, ReplaceChild, InsertChild, GetChild;
    if GetChild(f, name).Some? {
      var it :| ChildByName(it, name) == There(ch.k, ch.name, ch.body, ch.rest) && Named(it, t) && Mean(it, t) == f;
      MeanExtend(it, t, u);
      ReplaceChildMean(it, u, name, nb);
    } else {
      var it :| Leading(it) == (ch.k, ch.rest) && ch.name == name && ch.body == Done && Named(it, t) && Mean(it, t) == f;
      MeanExtend(it, t, u);
      InsertChildMean(it, u, name, nb);
    }
  }

  lemma UntouchedNow(b: bytes, d: bytes, c: Ctx, x: Items)
    requires Denotes(b, Plug(c, x)) && Untouched(b, d)
    ensures Now(b, d, c, x, Mean(x, StringsOf(b)))
    ensures StructOf(d) == StructOf(b) && StringsOf(d) == StringsOf(b)
  {
    hide Hdr, Edited, Block, Named, Mean, MeanCtx, Plug;
    EditedSize(b, d, StructOf(b), StringsOf(b));
    MeanPlug(c, x, StringsOf(b));
  }

  lemma ExistingChild(b: bytes, d: bytes, c: Ctx, n: bytes, body: Items, r: Items, name: bytes)
    requires Wellformed(b) && Denotes(b, Plug(c, Node(n, body, r))) && ChildByName(body, name).There?
    requires Untouched(b, d)
    ensures var f := ChildByName(body, name);
            var ch := Child(f.c, f.name, f.body, f.rest);
            && Wellformed(d)
            && Around(ch) == body
            && Denotes(d, Plug(ChildCtx(c, n, ch, r), Node(ch.name, ch.body, ch.rest)))
            && Off(ChildCtx(c, n, ch, r)) == Off(c) + HeadSize(n) + Off(f.c)
            && Applied(b, d, c, n, body, body, r, Mean(body, StringsOf(d)))
            && StringsOf(d) == StringsOf(b)
            && ChildPlace(ch, Mean(body, StringsOf(b)), name, StringsOf(d))
  {
    hide Hdr, Edited, Block, Named, Mean, MeanCtx, Plug, CheckHeader, HeadSize, Holds, Off, GetChild, Now;
    var t := StringsOf(b);
    var f := ChildByName(body, name);
    var ch := Child(f.c, f.name, f.body, f.rest);
    UntouchedNow(b, d, c, Node(n, body, r));
    NowDenotes(b, d, c, Node(n, body, r), Mean(Node(n, body, r), t));
    MeanNode(n, body, r, t);
    NodeParts(b, c, n, body, r);
    ChildByNameMean(body, t, name);
    PlugDeep(c, n, f.c, r, Node(f.name, f.body, f.rest));
  }

  lemma NewChild(b: bytes, d: bytes, c: Ctx, n: bytes, body: Items, r: Items, name: bytes)
    requires Wellformed(b) && Denotes(b, Plug(c, Node(n, body, r)))
    requires GetChild(Mean(body, StringsOf(b)), name).None?
    requires var (k, x) := Leading(body);
             Now(b, d, c, Node(n, Plug(k, Node(name, Done, x)), r),
                 Sub(n, InsertChild(Mean(body, StringsOf(b)), name, Nil), Mean(r, StringsOf(b))))
    ensures var (k, x) := Leading(body);
            var ch := Child(k, name, Done, x);
            && Ready(d) && Wellformed(d)
            && Denotes(d, Plug(ChildCtx(c, n, ch, r), Node(name, Done, x)))
            && Off(ChildCtx(c, n, ch, r)) == Off(c) + HeadSize(n) + Off(k)
            && Applied(b, d, c, n, body, Around(ch), r, Mean(Around(ch), StringsOf(d)))
            && Mean(ch.body, StringsOf(d)) == Nil
            && ChildPlace(ch, Mean(body, StringsOf(b)), name, StringsOf(d))
  {
    hide Hdr, Edited, Block, Named, Mean, MeanCtx, Plug, CheckHeader, HeadSize, Holds, Off, GetChild, InsertChild, Now, Leading;
    var t := StringsOf(b);
    var (k, x) := Leading(body);
    var ch := Child(k, name, Done, x);
    var body' := Plug(k, Node(name, Done, x));
    NowDenotes(b, d, c, Node(n, body', r), Sub(n, InsertChild(Mean(body, t), name, Nil), Mean(r, t)));
    var u := StringsOf(d);
    NodeParts(b, c, n, body, r);
    MeanNode(n, body', r, u);
    MeanExtend(body, t, u);
    MeanDone(u);
    PlugDeep(c, n, k, r, Node(name, Done, x));
  }

  /** One child of the overlay merged into the target node. */
  method ApplyChild(fdt: array<byte>, target: int, fdto: array<byte>, sub: int,
                    ghost c: Ctx, ghost n: bytes, ghost body: Items, ghost r: Items,
                    ghost m: bytes, ghost ov: Items)
    returns (err: int, ghost body': Items)
    requires fdt != fdto && Wellformed(fdt[..])
    requires Denotes(fdt[..], Plug(c, Node(n, body, r))) && target == Off(c)
    requires Stringed(fdto[..]) && 0 <= sub && sub % 4 == 0
    requires Holds(StructOf(fdto[..]), sub, Node(m, ov, Done)) && Named(ov, StringsOf(fdto[..]))
    modifies fdt
    ensures err == 0 ==>
      Applied(old(fdt[..]), fdt[..], c, n, body, body', r,
              MergeChild(Mean(body, StringsOf(old(fdt[..]))), m, Mean(ov, StringsOf(fdto[..]))))
    ensures Spends(old(fdt[..]), fdt[..], err, NodeCost(m) + Need(Mean(ov, StringsOf(fdto[..]))))
    decreases Size(ov), 2
  {
    hide Hdr, Plug, Holds, TagAt, HeadAt, HeadSize, Block, Mean, Named, Off, Now, Edited, CheckHeader, Size, NextTag, NameAt,
         ChildPlace, Around, GetChild, ReplaceChild, InsertChild, Need, NodeCost;
    ghost var b, so, to := fdt[..], StructOf(fdto[..]), StringsOf(fdto[..]);
    ghost var f := Mean(body, StringsOf(b));
    body' := body;
    OpenNode(so, sub, m, ov, Done);
    ScanHead(so, sub, m, 0);
    HeadHasNoNul(so, sub, m);
    HoldsFits(so, sub, Node(m, ov, Done));
    var name;
    err, name := ReadName(fdto, sub);
    if err != 0 {
      return;
    }
    var at;
    ghost var ch;
    at, ch := GetOrAddChild(fdt, target, name, c, n, body, r);
    if at < 0 {
      return at, body';
    }
    ghost var d := fdt[..];
    ghost var nb;
    err, nb := ApplyNode(fdt, at, fdto, sub, ChildCtx(c, n, ch, r), ch.name, ch.body, ch.rest, m, ov);
    if err != 0 {
      return;
    }
    body' := Plug(ch.k, Node(ch.name, nb, ch.rest));
    ChildApplied(b, d, fdt[..], c, n, body, r, ch, nb, m, Mean(ov, to));
  }

  lemma HeadHasNoNul(s: bytes, o: int, name: bytes)
    requires HeadAt(s, o, name)
    ensures 0 !in name
  {
  }

  /** The child was found or added, then merged into: the node has the merged child. */
  lemma ChildApplied(b: bytes, d: bytes, e: bytes, c: Ctx, n: bytes, body: Items, r: Items, ch: Child, nb: Items, m: bytes, ov: Tree)
    requires Ready(b) && Ready(d) && Denotes(b, Plug(c, Node(n, body, r)))
    requires Denotes(d, Plug(ChildCtx(c, n, ch, r), Node(ch.name, ch.body, ch.rest)))
    requires Applied(b, d, c, n, body, Around(ch), r, Mean(Around(ch), StringsOf(d)))
    requires var f := GetChild(Mean(body, StringsOf(b)), m);
             Mean(ch.body, StringsOf(d)) == (if f.Some? then f.value else Nil)
    requires ChildPlace(ch, Mean(body, StringsOf(b)), m, StringsOf(d))
    requires Applied(d, e, ChildCtx(c, n, ch, r), ch.name, ch.body, nb, ch.rest, Merge(Mean(ch.body, StringsOf(d)), ov))
    ensures Applied(b, e, c, n, body, Plug(ch.k, Node(ch.name, nb, ch.rest)), r, MergeChild(Mean(body, StringsOf(b)), m, ov))
  {
    hide Hdr, Edited, Block, Named, Mean, MeanCtx, Plug, CheckHeader, HeadSize, Holds, Off, GetChild, InsertChild, ReplaceChild, Now, Merge, ChildPlace;
    var t, u := StringsOf(b), StringsOf(d);
    var x, y := Node(ch.name, ch.body, ch.rest), Node(ch.name, nb, ch.rest);
    var g := Merge(Mean(ch.body, u), ov);
    PlugDeep(c, n, ch.k, r, x);
    NowDenotes(d, e, ChildCtx(c, n, ch, r), y, Sub(ch.name, g, Mean(ch.rest, u)));
    var v := StringsOf(e);
    MeanNode(ch.name, nb, ch.rest, v);
    NowOuter(d, e, c, n, ch.k, r, x, y, Sub(ch.name, g, Mean(ch.rest, u)));
    ChildPlaceUse(ch, Mean(body, t), m, u, v, nb);
    StepDone(b, d, e, c, n, body, Around(ch), Plug(ch.k, y), r, Mean(Plug(ch.k, y), v));
  }

  /** The child loop of `overlay_apply_node`. */
  method ApplyChildren(fdt: array<byte>, target: int, fdto: array<byte>, node: int,
                       ghost c: Ctx, ghost n: bytes, ghost body: Items, ghost r: Items, ghost m: bytes, ghost ov: Items)
    returns (err: int, ghost body': Items)
    requires fdt != fdto && Wellformed(fdt[..])
    requires Denotes(fdt[..], Plug(c, Node(n, body, r))) && target == Off(c)
    requires Stringed(fdto[..]) && 0 <= node && node % 4 == 0
    requires Holds(StructOf(fdto[..]), node, Node(m, ov, Done)) && Named(ov, StringsOf(fdto[..]))
    modifies fdt
    ensures err == 0 ==>
      Applied(old(fdt[..]), fdt[..], c, n, body, body', r,
              MergeChildren(Mean(body, StringsOf(old(fdt[..]))), Mean(ov, StringsOf(fdto[..]))))
    ensures Spends(old(fdt[..]), fdt[..], err, KidsNeed(Mean(ov, StringsOf(fdto[..]))))
    decreases Size(ov), 0
  {
    hide Hdr, Plug, Holds, TagAt, HeadAt, HeadSize, Block, Mean, Named, Off, Now, Size, NextTag, CheckHeader,
         MergeChild, MergeChildren, FirstNode, FirstSubnode, NextSubnode, Reached, Cursor, Applied, Wellformed, KidsNeed, NodeCost, Need;
    ghost var b, so, to := fdt[..], StructOf(fdto[..]), StringsOf(fdto[..]);
    ghost var goal := MergeChildren(Mean(body, StringsOf(b)), Mean(ov, to));
    OpenNode(so, node, m, ov, Done);
    FirstSubnodeOk(so, node, m, ov);
    HoldsFits(so, node, Node(m, ov, Done));
    ghost var q, rem := SkipFlats(so, node + HeadSize(m), ov, to, Mean(body, StringsOf(b)));
    CursorAt(so, q, rem, to);
    body' := body;
    ReachedSelf(b, c, n, body, r);
    var sub := ReadFirstSubnode(fdto, node);
    while sub >= 0
      invariant fdto[..] == old(fdto[..]) && Ready(fdt[..])
      invariant Cursor(so, q, rem, to)
      invariant !rem.Flat? && sub == FirstNode(rem, q)
      invariant Reached(b, fdt[..], c, n, body', r)
      invariant MergeChildren(Mean(body', StringsOf(fdt[..])), Mean(rem, to)) == goal
      invariant Slack(fdt[..]) - KidsNeed(Mean(rem, to)) >= Slack(b) - KidsNeed(Mean(ov, to))
      invariant Size(rem) <= Size(ov)
      decreases Size(rem)
    {
      ghost var d, x := fdt[..], body';
      FirstOfRest(so, q, rem, to);
      MergeFirst(Mean(x, StringsOf(d)), rem, to);
      ReachedDenotes(b, d, c, n, x, r);
      err, body' := ApplyChild(fdt, target, fdto, sub, c, n, x, r, rem.name, rem.body);
      if err != 0 {
        return;
      }
      ghost var g := MergeChild(Mean(x, StringsOf(d)), rem.name, Mean(rem.body, to));
      ReachedStep(b, d, fdt[..], c, n, body, x, body', r, g);
      sub := ReadNextSubnode(fdto, sub);
      q, rem := SkipFlats(so, After(q, rem.name, rem.body), rem.rest, to, g);
      CursorAt(so, q, rem, to);
    }
    CursorBounds(so, q, rem, to);
    ChildrenDone(Mean(body', StringsOf(fdt[..])), rem, q, to);
    ReachedApplied(b, fdt[..], c, n, body, body', r, goal);
    err := 0;
  }

  lemma MergeFirst(f: Tree, rem: Items, t: bytes)
    requires rem.Node?
    ensures KidsNeed(Mean(rem, t)) == NodeCost(rem.name) + Need(Mean(rem.body, t)) + KidsNeed(Mean(rem.rest, t))
    ensures MergeChildren(f, Mean(rem, t)) == MergeChildren(MergeChild(f, rem.name, Mean(rem.body, t)), Mean(rem.rest, t))
  {
    hide Mean, MergeChild;
    MeanNode(rem.name, rem.body, rem.rest, t);
  }

  /** What the cursor shows on a child. */
  lemma FirstOfRest(s: bytes, q: int, rem: Items, t: bytes)
    requires Cursor(s, q, rem, t) && !rem.Flat? && FirstNode(rem, q) >= 0
    ensures rem.Node? && FirstNode(rem, q) == q && 0 <= q <= |s| && q % 4 == 0
    ensures Holds(s, q, Node(rem.name, rem.body, Done)) && Named(rem.body, t) && Named(rem.rest, t)
    ensures var p := After(q, rem.name, rem.body);
            && 0 <= p && p % 4 == 0 && Holds(s, p, rem.rest) && TagAt(s, p + Size(rem.rest), END_NODE)
            && NextSubnode(s, q) == FirstNode(rem.rest, p)
    ensures Size(rem.body) < Size(rem) && Size(rem.rest) < Size(rem)
  {
    hide Cursor, Holds, TagAt, Named, Size, FirstNode, NextSubnode, HeadSize;
    FirstIsNode(rem, q);
    NodeOfRest(s, q, rem.name, rem.body, rem.rest, t);
  }

  lemma NodeOfRest(s: bytes, q: int, name: bytes, body: Items, r: Items, t: bytes)
    requires Cursor(s, q, Node(name, body, r), t)
    ensures 0 <= q <= |s| && q % 4 == 0
    ensures Holds(s, q, Node(name, body, Done)) && Named(body, t) && Named(r, t)
    ensures var p := After(q, name, body);
            && 0 <= p && p % 4 == 0 && Holds(s, p, r) && TagAt(s, p + Size(r), END_NODE)
            && NextSubnode(s, q) == FirstNode(r, p)
    ensures Size(body) < Size(Node(name, body, r)) && Size(r) < Size(Node(name, body, r))
  {
    hide Holds, HeadAt, TagAt, HeadSize, Size, NextSubnode, Named, FirstNode;
    HoldsFits(s, q, Node(name, body, r));
    OpenNode(s, q, name, body, r);
    NextSubnodeOk(s, q, name, body, r);
    NodeAlone(s, q, name, body, r);
    NodeSize(name, body, r);
    HoldsFits(s, After(q, name, body), r);
    MeanNode(name, body, r, t);
  }

  lemma FirstIsNode(rem: Items, q: int)
    requires !rem.Flat? && FirstNode(rem, q) >= 0
    ensures rem.Node? && FirstNode(rem, q) == q
  {
  }

  lemma NodeAlone(s: bytes, p: int, n: bytes, body: Items, r: Items)
    requires Holds(s, p, Node(n, body, r))
    ensures Holds(s, p, Node(n, body, Done))
  {
    hide Holds, HeadAt, TagAt, HeadSize, Size;
    HoldsNode(s, p, n, body, r);
    HoldsFits(s, After(p, n, body), r);
    HoldsNothing(s, After(p, n, body));
    HoldsNode(s, p, n, body, Done);
  }

  lemma ChildrenDone(f: Tree, rem: Items, q: int, t: bytes)
    requires !rem.Flat? && FirstNode(rem, q) < 0 && 0 <= q
    ensures MergeChildren(f, Mean(rem, t)) == f
  {
  }

  /** `overlay_apply_node`: the target's content becomes its merge with the overlay node's content. */
  method ApplyNode(fdt: array<byte>, target: int, fdto: array<byte>, node: int,
                   ghost c: Ctx, ghost n: bytes, ghost body: Items, ghost r: Items, ghost m: bytes, ghost ov: Items)
    returns (err: int, ghost body': Items)
    requires fdt != fdto && Wellformed(fdt[..])
    requires Denotes(fdt[..], Plug(c, Node(n, body, r))) && target == Off(c)
    requires Stringed(fdto[..]) && 0 <= node && node % 4 == 0
    requires Holds(StructOf(fdto[..]), node, Node(m, ov, Done)) && Named(ov, StringsOf(fdto[..]))
    modifies fdt
    ensures err == 0 ==>
      Applied(old(fdt[..]), fdt[..], c, n, body, body', r,
              Merge(Mean(body, StringsOf(old(fdt[..]))), Mean(ov, StringsOf(fdto[..]))))
    ensures Spends(old(fdt[..]), fdt[..], err, Need(Mean(ov, StringsOf(fdto[..]))))
    decreases Size(ov), 1
  {
    hide Hdr, Plug, Holds, Block, Mean, Named, Off, Now, CheckHeader, Size, SetAttrs, MergeChildren, HeadSize, Reached, Applied, Wellformed;
    ghost var b := fdt[..];
    ghost var t, to := StringsOf(b), StringsOf(fdto[..]);
    err, body' := ApplyProperties(fdt, target, fdto, node, c, n, body, r, m, ov);
    if err != 0 {
      return;
    }
    ghost var d, x := fdt[..], body';
    ReachedSelf(b, c, n, body, r);
    ReachedStep(b, b, d, c, n, body, body, x, r, SetAttrs(Mean(body, t), Mean(ov, to)));
    ReachedDenotes(b, d, c, n, x, r);
    err, body' := ApplyChildren(fdt, target, fdto, node, c, n, x, r, m, ov);
    if err != 0 {
      return;
    }
    ghost var g := MergeChildren(Mean(x, StringsOf(d)), Mean(ov, to));
    ReachedStep(b, d, fdt[..], c, n, body, x, body', r, g);
    ReachedApplied(b, fdt[..], c, n, body, body', r, g);
  }
}
