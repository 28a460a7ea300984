/**
 The device tree a blob denotes: properties with their names and values, and children.
 NOP tags, padding and the placement of strings are gone.
 */
module Meaning {
  import opened Options
  import opened Bytes
  import opened Structure
  import opened Walk
  import opened Read

  /** The content of a node. */
  datatype Tree =
    | Nil
    | Attr(name: bytes, val: bytes, rest: Tree)
    | Sub(name: bytes, body: Tree, rest: Tree)

  function NameOf(t: bytes, off: int): bytes {
    var r := Str(t, off);
    if r.Some? then r.value else []
  }

  /** What the items mean under the strings block `t`. */
  function Mean(it: Items, t: bytes): Tree {
    match it
    case Done => Nil
    case Flat(Nop, r) => Mean(r, t)
    case Flat(Prop(off, val), r) => Attr(NameOf(t, off), val, Mean(r, t))
    case Node(name, body, r) => Sub(name, Mean(body, t), Mean(r, t))
  }

  /** Every property has a name in `t`. */
  predicate Named(it: Items, t: bytes) {
    match it
    case Done => true
    case Flat(e, r) => (e.Prop? ==> Str(t, e.nameoff).Some?) && Named(r, t)
    case Node(_, body, r) => Named(body, t) && Named(r, t)
  }

  // ---------- Contexts ----------

  datatype TreeCtx =
    | Top
    | PastAttr(name: bytes, val: bytes, k: TreeCtx)
    | PastSub(name: bytes, body: Tree, k: TreeCtx)
    | In(name: bytes, k: TreeCtx, rest: Tree)

  function Fill(c: TreeCtx, x: Tree): Tree {
    match c
    case Top => x
    case PastAttr(name, val, k) => Attr(name, val, Fill(k, x))
    case PastSub(name, body, k) => Sub(name, body, Fill(k, x))
    case In(name, k, r) => Sub(name, Fill(k, x), r)
  }

  function MeanCtx(c: Ctx, t: bytes): TreeCtx {
    match c
    case Hole => Top
    case AfterEntry(Nop, k) => MeanCtx(k, t)
    case AfterEntry(Prop(off, val), k) => PastAttr(NameOf(t, off), val, MeanCtx(k, t))
    case AfterNode(name, body, k) => PastSub(name, Mean(body, t), MeanCtx(k, t))
    case Inside(name, k, r) => In(name, MeanCtx(k, t), Mean(r, t))
  }

  predicate NamedCtx(c: Ctx, t: bytes) {
    match c
    case Hole => true
    case AfterEntry(e, k) => (e.Prop? ==> Str(t, e.nameoff).Some?) && NamedCtx(k, t)
    case AfterNode(_, body, k) => Named(body, t) && NamedCtx(k, t)
    case Inside(_, k, r) => NamedCtx(k, t) && Named(r, t)
  }

  /** The meaning of a tree with a part put in is the meaning of the rest around the part's meaning. */
  lemma {:induction false} MeanPlug(c: Ctx, x: Items, t: bytes)
    ensures Mean(Plug(c, x), t) == Fill(MeanCtx(c, t), Mean(x, t))
    ensures Named(Plug(c, x), t) <==> NamedCtx(c, t) && Named(x, t)
  {
    hide Str, NameOf;
    if c != Hole {
      MeanPlug(c.k, x, t);
    }
  }

  /** Growing the strings block at its end changes no meaning. */
  lemma {:induction false} MeanExtend(it: Items, t: bytes, u: bytes)
    requires Named(it, t) && t <= u
    ensures Named(it, u) && Mean(it, u) == Mean(it, t)
  {
    hide Str;
    match it
    case Done =>
    case Flat(e, r) =>
      if e.Prop? {
        StrExtend(t, u, e.nameoff);
      }
      MeanExtend(r, t, u);
    case Node(_, body, r) =>
      MeanExtend(body, t, u);
      MeanExtend(r, t, u);
  }

  lemma {:induction false} MeanCtxExtend(c: Ctx, t: bytes, u: bytes)
    requires NamedCtx(c, t) && t <= u
    ensures NamedCtx(c, u) && MeanCtx(c, u) == MeanCtx(c, t)
  {
    hide Str, Mean, Named;
    match c
    case Hole =>
    case AfterEntry(e, k) =>
      if e.Prop? {
        StrExtend(t, u, e.nameoff);
      }
      MeanCtxExtend(k, t, u);
    case AfterNode(_, body, k) =>
      MeanExtend(body, t, u);
      MeanCtxExtend(k, t, u);
    case Inside(_, k, r) =>
      MeanExtend(r, t, u);
      MeanCtxExtend(k, t, u);
  }

  // ---------- Operations on trees ----------

  /** Value of the property among those in front of the first child. */
  function GetAttr(f: Tree, name: bytes): Option<bytes> {
    match f
    case Attr(n, v, r) => if n == name then Some(v) else GetAttr(r, name)
    case _ => None
  }

  /** Overwrites the first property of that name. */
  function ReplaceAttr(f: Tree, name: bytes, val: bytes): Tree {
    match f
    case Attr(n, v, r) => if n == name then Attr(n, val, r) else Attr(n, v, ReplaceAttr(r, name, val))
    case _ => f
  }

  function RemoveAttr(f: Tree, name: bytes): Tree {
    match f
    case Attr(n, v, r) => if n == name then r else Attr(n, v, RemoveAttr(r, name))
    case _ => f
  }

  /** Sets a property: in place when it is there, else as the new first property. */
  function SetAttr(f: Tree, name: bytes, val: bytes): Tree {
    if GetAttr(f, name).Some? then ReplaceAttr(f, name, val) else Attr(name, val, f)
  }

  function AppendAttr(f: Tree, name: bytes, val: bytes): Tree {
    var old_ := GetAttr(f, name);
    SetAttr(f, name, if old_.Some? then old_.value + val else val)
  }

  /** Content of the first child that answers to the name. */
  function GetChild(f: Tree, name: bytes): Option<Tree> {
    match f
    case Nil => None
    case Attr(_, _, r) => GetChild(r, name)
    case Sub(n, b, r) => if Matches(n, name) then Some(b) else GetChild(r, name)
  }

  function ReplaceChild(f: Tree, name: bytes, body: Tree): Tree {
    match f
    case Nil => Nil
    case Attr(n, v, r) => Attr(n, v, ReplaceChild(r, name, body))
    case Sub(n, b, r) => if Matches(n, name) then Sub(n, body, r) else Sub(n, b, ReplaceChild(r, name, body))
  }

  /** Puts a new child in front of the others, behind the properties. */
  function InsertChild(f: Tree, name: bytes, body: Tree): Tree {
    match f
    case Attr(n, v, r) => Attr(n, v, InsertChild(r, name, body))
    case _ => Sub(name, body, f)
  }

  /** The phandle of a node with content `f`, 0 when it has none. */
  function PhandleIn(f: Tree): u32 {
    var p := Word4(GetAttr(f, PHANDLE));
    if p.Some? then p.value
    else
      var q := Word4(GetAttr(f, LINUX_PHANDLE));
      if q.Some? then q.value else 0
  }

  function Word4(v: Option<bytes>): Option<u32> {
    if v.Some? && |v.value| == 4 then Some(Be32(v.value)) else None
  }

  // ---------- The same operations on items ----------

  lemma {:induction false} PropByNameMean(it: Items, t: bytes, name: bytes)
    requires Named(it, t)
    ensures var f := PropByName(it, t, name);
            GetAttr(Mean(it, t), name) == if f.PropThere? then Some(f.val) else None
  {
    hide Str, Plug;
    if it.Flat? {
      PropByNameMean(it.rest, t, name);
    }
  }

  /** The property `phandle` comes before `linux,phandle`; one that has not four bytes does not count. */
  lemma PhandleFrom(f: Tree, name: bytes, v: bytes)
    requires GetAttr(f, name) == Some(v) && |v| == 4
    ensures name == PHANDLE ==> PhandleIn(f) == Be32(v)
    ensures name == LINUX_PHANDLE && (GetAttr(f, PHANDLE).Some? ==> |GetAttr(f, PHANDLE).value| != 4) ==> PhandleIn(f) == Be32(v)
  {
    hide GetAttr, Be32;
    assert |PHANDLE| != |LINUX_PHANDLE|;
  }

  lemma PhandleMean(body: Items, t: bytes)
    requires Named(body, t)
    ensures PhandleIn(Mean(body, t)) == PhandleOf(body, t)
  {
    hide Mean, Named, GetAttr, PropByName, Be32;
    PropByNameMean(body, t, PHANDLE);
    PropByNameMean(body, t, LINUX_PHANDLE);
  }

  /** Changing the value of the property that the lookup finds. */
  lemma {:induction false} ReplaceAttrMean(it: Items, t: bytes, name: bytes, val: bytes)
    requires Named(it, t) && PropByName(it, t, name).PropThere?
    ensures var f := PropByName(it, t, name);
            var d := Plug(f.c, Flat(Prop(f.nameoff, val), f.rest));
            Named(d, t) && Mean(d, t) == ReplaceAttr(Mean(it, t), name, val)
  {
    hide Str;
    var f := PropByName(it, t, name);
    if f.c != Hole {
      ReplaceAttrMean(it.rest, t, name, val);
    }
  }

  lemma {:induction false} RemoveAttrMean(it: Items, t: bytes, name: bytes)
    requires Named(it, t) && PropByName(it, t, name).PropThere?
    ensures var f := PropByName(it, t, name);
            var d := Plug(f.c, f.rest);
            Named(d, t) && Mean(d, t) == RemoveAttr(Mean(it, t), name)
  {
    hide Str;
    var f := PropByName(it, t, name);
    if f.c != Hole {
      RemoveAttrMean(it.rest, t, name);
    }
  }

  lemma {:induction false} ChildByNameMean(it: Items, t: bytes, name: bytes)
    ensures var f := ChildByName(it, name);
            GetChild(Mean(it, t), name) == if f.There? then Some(Mean(f.body, t)) else None
  {
    hide Str, Plug, Matches, NameOf;
    match it
    case Done =>
    case Flat(_, r) => ChildByNameMean(r, t, name);
    case Node(_, _, r) => ChildByNameMean(r, t, name);
  }

  /** Changing the content of the child that the lookup finds. */
  lemma {:induction false} ReplaceChildMean(it: Items, t: bytes, name: bytes, body: Items)
    requires ChildByName(it, name).There?
    ensures var f := ChildByName(it, name);
            Mean(Plug(f.c, Node(f.name, body, f.rest)), t) == ReplaceChild(Mean(it, t), name, Mean(body, t))
  {
    hide Str, Matches, NameOf;
    var f := ChildByName(it, name);
    if f.c != Hole {
      ReplaceChildMean(it.rest, t, name, body);
    }
  }

  /** The place behind the properties: the entries up to it, and what follows. */
  function Leading(it: Items): (r: (Ctx, Items))
    ensures it == Plug(r.0, r.1) && !r.1.Flat?
  {
    match it
    case Flat(e, k) =>
      var (c, x) := Leading(k);
      (AfterEntry(e, c), x)
    case _ => (Hole, it)
  }

  lemma {:induction false} InsertChildMean(it: Items, t: bytes, name: bytes, body: Items)
    ensures var (c, x) := Leading(it);
            Mean(Plug(c, Node(name, body, x)), t) == InsertChild(Mean(it, t), name, Mean(body, t))
  {
    hide Str, NameOf;
    if it.Flat? {
      InsertChildMean(it.rest, t, name, body);
    }
  }

  // ---------- Merging one tree into another ----------

  /** Sets every property of `ov`, in order. */
  function SetAttrs(f: Tree, ov: Tree): Tree
    decreases ov
  {
    match ov
    case Attr(n, v, r) => SetAttrs(SetAttr(f, n, v), r)
    case _ => f
  }

  /** Merges `body` into the child that answers to `name`, creating it when there is none. */
  function MergeChild(f: Tree, name: bytes, body: Tree): Tree
    decreases body, 2
  {
    var child := GetChild(f, name);
    if child.Some? then ReplaceChild(f, name, Merge(child.value, body))
    else InsertChild(f, name, Merge(Nil, body))
  }

  function MergeChildren(f: Tree, ov: Tree): Tree
    decreases ov, 0
  {
    match ov
    case Nil => f
    case Attr(_, _, r) => MergeChildren(f, r)
    case Sub(n, b, r) => MergeChildren(MergeChild(f, n, b), r)
  }

  /** The overlay `ov` applied to a node with content `f`. */
  function Merge(f: Tree, ov: Tree): Tree
    decreases ov, 1
  {
    MergeChildren(SetAttrs(f, ov), ov)
  }
}
