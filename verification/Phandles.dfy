/** Phandles of an overlay (fdt_overlay.c), shifted in place out of the way of the base tree's. */
module Phandles {
  import opened Options
  import opened Bytes
  import opened Structure
  import opened Blob
  import opened Buffer
  import opened Walk
  import opened Read
  import opened Meaning
  import opened Core
  import opened Edit
  import opened Merging
  import opened Nodes
  import opened InPlace
  import opened Shapes

  const NO_PHANDLE: u32 := 0xffff_ffff

  /** A result, or the error that stopped the code. */
  datatype Try<T> = Did(value: T) | Failed(err: int)

  // ---------- Shifting on trees ----------

  /** `overlay_phandle_add_offset`, for a node that need not have the property. */
  function ShiftAttr(f: Tree, name: bytes, delta: u32): Try<Tree> {
    var v := GetAttr(f, name);
    if v.None? then Did(f)
    else if |v.value| != 4 then Failed(-ERR_BADPHANDLE)
    else if Be32(v.value) + delta >= NO_PHANDLE then Failed(-ERR_NOPHANDLES)
    else Did(ReplaceAttr(f, name, Enc32(Be32(v.value) + delta)))
  }

  /** `overlay_adjust_node_phandles` on a node with content `f`: both properties, then the children. */
  function ShiftNode(f: Tree, delta: u32): Try<Tree>
    decreases f, 1
  {
    if ShiftAttr(f, PHANDLE, delta).Failed? then ShiftAttr(f, PHANDLE, delta)
    else if ShiftAttr(f, LINUX_PHANDLE, delta).Failed? then ShiftAttr(f, LINUX_PHANDLE, delta)
    else
      match ShiftSubs(f, delta)
      case Failed(e) => Failed(e)
      case Did(g) => ShiftAttr(ShiftAttr(g, PHANDLE, delta).value, LINUX_PHANDLE, delta)
  }

  /** The children of a node, one after the other. */
  function ShiftSubs(f: Tree, delta: u32): (r: Try<Tree>)
    ensures r.Did? ==> forall n :: GetAttr(r.value, n) == GetAttr(f, n)
    ensures r.Failed? ==> r.err < 0
    decreases f, 0
  {
    match f
    case Nil => Did(Nil)
    case Attr(n, v, r) =>
      (match ShiftSubs(r, delta)
       case Failed(e) => Failed(e)
       case Did(g) => Did(Attr(n, v, g)))
    case Sub(n, b, r) =>
      match ShiftNode(b, delta)
      case Failed(e) => Failed(e)
      case Did(c) =>
        match ShiftSubs(r, delta)
        case Failed(e) => Failed(e)
        case Did(g) => Did(Sub(n, c, g))
  }

  // ---------- What shifting does to the phandles ----------

  /** The phandles of the nodes, parents before children. */
  function PhandlesOf(f: Tree): seq<u32> {
    match f
    case Nil => []
    case Attr(_, _, r) => PhandlesOf(r)
    case Sub(_, b, r) => [PhandleIn(b)] + PhandlesOf(b) + PhandlesOf(r)
  }

  /** A phandle moves up by `delta`; a node without one stays without, unless its property says 0. */
  predicate Moved(p: u32, q: u32, delta: u32) {
    if p == 0 then q == 0 || q == delta else q == p + delta < NO_PHANDLE
  }

  predicate AllMoved(ps: seq<u32>, qs: seq<u32>, delta: u32) {
    |ps| == |qs| && forall i :: 0 <= i < |ps| ==> Moved(ps[i], qs[i], delta)
  }

  lemma {:induction false} PhandlesBeside(f: Tree, name: bytes, v: bytes)
    ensures PhandlesOf(ReplaceAttr(f, name, v)) == PhandlesOf(f)
    decreases f
  {
    hide PhandleIn;
    if f.Attr? && f.name != name {
      PhandlesBeside(f.rest, name, v);
    }
  }

  /** One property shifted: it says so much more, and nothing else changed. */
  lemma ShiftedAttr(f: Tree, name: bytes, delta: u32)
    requires ShiftAttr(f, name, delta).Did?
    ensures var g := ShiftAttr(f, name, delta).value;
      && PhandlesOf(g) == PhandlesOf(f)
      && (forall n :: n != name ==> GetAttr(g, n) == GetAttr(f, n))
      && (GetAttr(f, name).None? ==> g == f)
      && (GetAttr(f, name).Some? ==>
           |GetAttr(f, name).value| == 4 && Be32(GetAttr(f, name).value) + delta < NO_PHANDLE
           && GetAttr(g, name) == Some(Enc32(Be32(GetAttr(f, name).value) + delta)))
  {
    hide Be32, Enc32, PhandlesOf;
    if GetAttr(f, name).Some? {
      var v := Enc32(Be32(GetAttr(f, name).value) + delta);
      PhandlesBeside(f, name, v);
      forall n
        ensures GetAttr(ReplaceAttr(f, name, v), n) == if n == name then Some(v) else GetAttr(f, n)
      {
        GetReplaced(f, name, v, n);
      }
    }
  }

  /** The phandle of a shifted node, and those below it. */
  lemma ShiftedNode(f: Tree, delta: u32)
    requires ShiftNode(f, delta).Did?
    ensures ShiftSubs(f, delta).Did?
    ensures Moved(PhandleIn(f), PhandleIn(ShiftNode(f, delta).value), delta)
    ensures PhandlesOf(ShiftNode(f, delta).value) == PhandlesOf(ShiftSubs(f, delta).value)
  {
    hide Be32, Enc32, PhandlesOf, ShiftAttr, ShiftSubs;
    var g := ShiftSubs(f, delta).value;
    TwoNames();
    assert ShiftAttr(g, PHANDLE, delta).Did? && ShiftAttr(ShiftAttr(g, PHANDLE, delta).value, LINUX_PHANDLE, delta).Did? by {
      SameShift(f, g, delta);
    }
    ShiftedAttr(g, PHANDLE, delta);
    var h := ShiftAttr(g, PHANDLE, delta).value;
    ShiftedAttr(h, LINUX_PHANDLE, delta);
    if GetAttr(f, PHANDLE).Some? {
      DecodeEncode32(Be32(GetAttr(f, PHANDLE).value) + delta);
    } else if GetAttr(f, LINUX_PHANDLE).Some? {
      DecodeEncode32(Be32(GetAttr(f, LINUX_PHANDLE).value) + delta);
    }
  }

  lemma TwoNames()
    ensures PHANDLE != LINUX_PHANDLE
  {
    assert |PHANDLE| != |LINUX_PHANDLE|;
  }

  /** What shifting the node's own properties finds depends on these alone. */
  lemma SameShift(f: Tree, g: Tree, delta: u32)
    requires ShiftAttr(f, PHANDLE, delta).Did? && ShiftAttr(f, LINUX_PHANDLE, delta).Did?
    requires forall n :: GetAttr(g, n) == GetAttr(f, n)
    ensures ShiftAttr(g, PHANDLE, delta).Did?
    ensures ShiftAttr(ShiftAttr(g, PHANDLE, delta).value, LINUX_PHANDLE, delta).Did?
  {
    hide Be32, Enc32;
    TwoNames();
    assert ShiftAttr(g, PHANDLE, delta).Did?;
    ShiftedAttr(g, PHANDLE, delta);
  }

  lemma {:induction false} ShiftedAll(f: Tree, delta: u32)
    requires ShiftSubs(f, delta).Did?
    ensures AllMoved(PhandlesOf(f), PhandlesOf(ShiftSubs(f, delta).value), delta)
    decreases f
  {
    hide PhandleIn, ShiftNode, Moved;
    match f
    case Nil =>
    case Attr(_, _, r) => ShiftedAll(r, delta);
    case Sub(n, b, r) =>
      ShiftedNode(b, delta);
      ShiftedAll(b, delta);
      ShiftedAll(r, delta);
  }

  /** The largest phandle of the nodes: none is larger, and it is one of them or what the search began with. */
  lemma {:induction false} MaxBounds(it: Items, t: bytes, max: u32)
    requires Named(it, t)
    ensures max <= MaxPhandle(it, t, max)
    ensures forall i :: 0 <= i < |PhandlesOf(Mean(it, t))| ==> PhandlesOf(Mean(it, t))[i] <= MaxPhandle(it, t, max)
    ensures MaxPhandle(it, t, max) == max || MaxPhandle(it, t, max) in PhandlesOf(Mean(it, t))
    decreases it
  {
    hide PhandleIn, PhandleOf;
    match it
    case Done =>
    case Flat(e, r) => MaxBounds(r, t, max);
    case Node(n, b, r) =>
      PhandleMean(b, t);
      var own := PhandleOf(b, t);
      var max1 := if own > max then own else max;
      MaxBounds(b, t, max1);
      MaxBounds(r, t, MaxPhandle(b, t, max1));
  }

  /** The phandles of the node itself and of those below it. */
  function AllPhandles(f: Tree): seq<u32> {
    [PhandleIn(f)] + PhandlesOf(f)
  }

  /** Each phandle has become one that no node of the base has. */
  predicate Disjoint(bs: seq<u32>, ps: seq<u32>, qs: seq<u32>, delta: u32) {
    |qs| == |ps| && forall i, j :: 0 <= i < |ps| && ps[i] != 0 && 0 <= j < |bs| ==> bs[j] < qs[i] == ps[i] + delta < NO_PHANDLE
  }

  lemma MovedCons(p: u32, q: u32, ps: seq<u32>, qs: seq<u32>, delta: u32)
    requires Moved(p, q, delta) && AllMoved(ps, qs, delta)
    ensures AllMoved([p] + ps, [q] + qs, delta)
  {
    hide Moved;
  }

  /**
   Moved by the largest phandle of the base tree, every phandle of the overlay lies above all
   of the base's, without a wrap and below the reserved value.
   */
  lemma MovedApart(base: Items, t: bytes, ps: seq<u32>, qs: seq<u32>, delta: u32)
    requires Named(base, t) && delta == MaxPhandle(base, t, 0) && AllMoved(ps, qs, delta)
    ensures Disjoint(PhandlesOf(Mean(base, t)), ps, qs, delta)
  {
    hide PhandlesOf, Mean, MaxPhandle;
    MaxBounds(base, t, 0);
    forall i, j | 0 <= i < |ps| && ps[i] != 0 && 0 <= j < |PhandlesOf(Mean(base, t))|
      ensures PhandlesOf(Mean(base, t))[j] < qs[i] == ps[i] + delta < NO_PHANDLE
    {
      assert Moved(ps[i], qs[i], delta);
    }
  }

  lemma ShiftedApart(base: Items, t: bytes, f: Tree, delta: u32)
    requires Named(base, t) && delta == MaxPhandle(base, t, 0) && ShiftNode(f, delta).Did?
    ensures Disjoint(PhandlesOf(Mean(base, t)), AllPhandles(f), AllPhandles(ShiftNode(f, delta).value), delta)
  {
    hide ShiftNode, ShiftSubs, PhandlesOf, PhandleIn, Mean, MaxPhandle, Moved, AllMoved, Disjoint;
    var g := ShiftNode(f, delta).value;
    ShiftedNode(f, delta);
    ShiftedAll(f, delta);
    MovedCons(PhandleIn(f), PhandleIn(g), PhandlesOf(f), PhandlesOf(g), delta);
    MovedApart(base, t, AllPhandles(f), AllPhandles(g), delta);
  }

  /** Shifting fails exactly when some phandle property has not four bytes or has no room above it. */
  predicate Shiftable(f: Tree, delta: u32)
    decreases f, 1
  {
    && (forall n :: n in {PHANDLE, LINUX_PHANDLE} && GetAttr(f, n).Some? ==>
          |GetAttr(f, n).value| == 4 && Be32(GetAttr(f, n).value) + delta < NO_PHANDLE)
    && SubsShiftable(f, delta)
  }

  predicate SubsShiftable(f: Tree, delta: u32)
    decreases f, 0
  {
    match f
    case Nil => true
    case Attr(_, _, r) => SubsShiftable(r, delta)
    case Sub(_, b, r) => Shiftable(b, delta) && SubsShiftable(r, delta)
  }

  lemma {:induction false} ShiftsIff(f: Tree, delta: u32)
    ensures ShiftSubs(f, delta).Did? <==> SubsShiftable(f, delta)
    ensures ShiftNode(f, delta).Did? <==> Shiftable(f, delta)
    decreases f
  {
    hide Be32, Enc32;
    match f
    case Nil =>
    case Attr(_, _, r) => ShiftsIff(r, delta);
    case Sub(_, b, r) => ShiftsIff(b, delta); ShiftsIff(r, delta);
    NodeShiftsIff(f, delta);
  }

  lemma NodeShiftsIff(f: Tree, delta: u32)
    requires ShiftSubs(f, delta).Did? <==> SubsShiftable(f, delta)
    ensures ShiftNode(f, delta).Did? <==> Shiftable(f, delta)
  {
    hide Be32, Enc32, ShiftSubs, SubsShiftable;
    if ShiftAttr(f, PHANDLE, delta).Did? && ShiftAttr(f, LINUX_PHANDLE, delta).Did? && ShiftSubs(f, delta).Did? {
      SameShift(f, ShiftSubs(f, delta).value, delta);
    }
    assert PHANDLE in {PHANDLE, LINUX_PHANDLE} && LINUX_PHANDLE in {PHANDLE, LINUX_PHANDLE};
  }

  // ---------- References follow their nodes ----------

  lemma {:induction false} CountIs(it: Items, it': Items, t: bytes)
    requires Alike(it, it')
    ensures |PhandlesOf(Mean(it', t))| == |PhandlesOf(Mean(it, t))|
    decreases it
  {
    hide PhandleIn;
    match it
    case Done =>
    case Flat(_, r) => CountIs(r, it'.rest, t);
    case Node(_, b, r) => CountIs(b, it'.body, t); CountIs(r, it'.rest, t);
  }

  lemma MovedParts(p: u32, x: seq<u32>, y: seq<u32>, p': u32, x': seq<u32>, y': seq<u32>, delta: u32)
    requires AllMoved([p] + x + y, [p'] + x' + y', delta) && |x| == |x'|
    ensures Moved(p, p', delta) && AllMoved(x, x', delta) && AllMoved(y, y', delta)
  {
    hide Moved;
    var ps, qs := [p] + x + y, [p'] + x' + y';
    assert ps[0] == p && qs[0] == p';
    assert forall i :: 0 <= i < |x| ==> ps[i + 1] == x[i] && qs[i + 1] == x'[i];
    assert forall i :: 0 <= i < |y| ==> ps[i + 1 + |x|] == y[i] && qs[i + 1 + |x|] == y'[i];
  }

  lemma SameEntrySize(e: Entry, f: Entry)
    requires AlikeEntry(e, f)
    ensures EntrySize(f) == EntrySize(e)
  {
  }

  /** Where the search by phandle ends, from where it ends in the parts. */
  lemma FoundParts(it: Items, t: bytes, v: u32)
    ensures var f := ByPhandle(it, t, v);
      match it
      case Done => f.Missing?
      case Flat(e, r) =>
        var g := ByPhandle(r, t, v);
        f.There? == g.There? && (f.There? ==> Off(f.c) == EntrySize(e) + Off(g.c))
      case Node(n, b, r) =>
        var x, y := ByPhandle(b, t, v), ByPhandle(r, t, v);
        if PhandleOf(b, t) == v then f.There? && Off(f.c) == 0
        else if x.There? then f.There? && Off(f.c) == HeadSize(n) + Off(x.c)
        else f.There? == y.There? && (f.There? ==> Off(f.c) == HeadSize(n) + Size(b) + TAGSIZE + Off(y.c))
  {
    hide PhandleOf, Plug, HeadSize, EntrySize, Size;
  }

  /**
   A reference that named a node of the overlay names, moved by the same amount, the node at
   the same offset of the shifted overlay; one that named none still names none.
   */
  lemma {:induction false} ReferencesFollow(it: Items, it': Items, t: bytes, delta: u32, v: u32)
    requires Named(it, t) && Named(it', t) && Alike(it, it') && AllMoved(PhandlesOf(Mean(it, t)), PhandlesOf(Mean(it', t)), delta)
    requires v != 0
    ensures var f, g := ByPhandle(it, t, v), ByPhandle(it', t, Wrap(v + delta));
      && (f.There? ==> v + delta < NO_PHANDLE && g.There? && Off(g.c) == Off(f.c))
      && (f.Missing? && v + delta <= NO_PHANDLE ==> g.Missing?)
    decreases it
  {
    hide PhandleIn, PhandleOf, HeadSize, Plug, AllMoved, ByPhandle, Off, EntrySize;
    match it
    case Done => FoundParts(it, t, v); FoundParts(it', t, Wrap(v + delta));
    case Flat(_, r) =>
      ReferencesFollow(r, it'.rest, t, delta, v);
      FoundParts(it, t, v);
      FoundParts(it', t, Wrap(v + delta));
      SameEntrySize(it.e, it'.e);
    case Node(n, b, r) =>
      FoundParts(it, t, v);
      FoundParts(it', t, Wrap(v + delta));
      PhandleMean(b, t);
      PhandleMean(it'.body, t);
      CountIs(b, it'.body, t);
      MovedParts(PhandleIn(Mean(b, t)), PhandlesOf(Mean(b, t)), PhandlesOf(Mean(r, t)),
                 PhandleIn(Mean(it'.body, t)), PhandlesOf(Mean(it'.body, t)), PhandlesOf(Mean(it'.rest, t)), delta);
      AlikeSize(b, it'.body);
      if PhandleOf(b, t) != v {
        ReferencesFollow(b, it'.body, t, delta, v);
        ReferencesFollow(r, it'.rest, t, delta, v);
      }
  }

  // ---------- Shifting in place ----------

  /** The overlay after a step: where it stands, the node now has content `body'`, which differs in values only. */
  ghost predicate Stepped(b: bytes, d: bytes, o: int, c: Ctx, n: bytes, body: Items, body': Items, r: Items, f: Tree) {
    && Readable(b) && Readable(d) && Rewritten(b, d, StructOf(d))
    && NodeAt(d, o, c, n, body', r) && Alike(body, body') && Mean(body', StringsOf(b)) == f
  }

  lemma SteppedSelf(b: bytes, o: int, c: Ctx, n: bytes, body: Items, r: Items)
    requires NodeAt(b, o, c, n, body, r)
    ensures Readable(b) && Stepped(b, b, o, c, n, body, body, r, Mean(body, StringsOf(b)))
  {
    hide Hdr, Block, Named, Plug, Mean, Size;
    RewrittenSelf(b);
    AlikeSelf(body);
  }

  lemma SteppedTwice(b: bytes, d: bytes, e: bytes, o: int, c: Ctx, n: bytes, x: Items, y: Items, z: Items, r: Items, f: Tree, g: Tree)
    requires Stepped(b, d, o, c, n, x, y, r, f) && Stepped(d, e, o, c, n, y, z, r, g)
    ensures Stepped(b, e, o, c, n, x, z, r, g)
  {
    hide Hdr, Mean, NodeAt, Rewritten, Alike;
    RewrittenTwice(b, d, e, StructOf(d), StructOf(e));
    RewrittenStrings(b, d);
    AlikeTwice(x, y, z);
  }

  lemma RewrittenStrings(b: bytes, d: bytes)
    requires Readable(d) && Rewritten(b, d, StructOf(d))
    ensures Readable(b) && StringsOf(d) == StringsOf(b) && |StructOf(d)| == |StructOf(b)|
  {
    hide Hdr;
  }

  lemma BecameStepped(b: bytes, d: bytes, o: int, c: Ctx, n: bytes, body: Items, body': Items, r: Items, f: Tree, g: Tree)
    requires NodeAt(b, o, c, n, body, r) && Alike(body, body')
    requires Became(b, d, c, Node(n, body', r), Sub(n, f, g))
    ensures Readable(b) && Readable(d) && Stepped(b, d, o, c, n, body, body', r, f)
  {
    hide Hdr, Block, Named, Plug, Alike, MeanCtx;
    MeanNode(n, body', r, StringsOf(b));
  }

  /** `overlay_phandle_add_offset`. */
  method AddOffset(fdto: array<byte>, node: int, name: bytes, delta: u32, ghost c: Ctx, ghost n: bytes, ghost body: Items, ghost r: Items)
    returns (err: int, ghost body': Items)
    requires NodeAt(fdto[..], node, c, n, body, r)
    modifies fdto
    ensures Readable(old(fdto[..]))
    ensures var t := StringsOf(old(fdto[..]));
            var x := ShiftAttr(Mean(body, t), name, delta);
      && err == (if GetAttr(Mean(body, t), name).None? then -ERR_NOTFOUND else if x.Failed? then x.err else 0)
      && (x.Failed? ==> fdto[..] == old(fdto[..]))
      && (x.Did? ==> Stepped(old(fdto[..]), fdto[..], node, c, n, body, body', r, x.value))
  {
    hide Hdr, Put, Plug, Holds, Block, Mean, Named, Off, Became, Size, NodeAt, GetAttr, ReplaceAttr, Be32, Enc32, PropByName, NextTag, PropVal;
    ghost var b := fdto[..];
    Placed(b, node, c, n, body, r);
    ghost var s, t := StructOf(b), StringsOf(b);
    SteppedSelf(b, node, c, n, body, r);
    body' := body;
    GetPropertyOk(s, t, node, n, body, r, name);
    PropByNameMean(body, t, name);
    if PropByName(body, t, name).PropThere? {
      FoundVal(s, t, node, n, body, r, name);
    }
    var at, val := ReadGetProp(fdto, node, name);
    if at < 0 {
      return at, body';
    }
    if |val| != 4 {
      return -ERR_BADPHANDLE, body';
    }
    var adj := Be32(val);
    if Wrap(adj + delta) < adj || adj + delta == NO_PHANDLE {
      return -ERR_NOPHANDLES, body';
    }
    var new_ := Enc32(adj + delta);
    WholeValue(val, new_);
    err, body' := SetPropPartial(fdto, node, name, 0, new_, c, n, body, r);
    AlikePatched(PropByName(body, t, name), new_);
    BecameStepped(b, fdto[..], node, c, n, body, body', r, ReplaceAttr(Mean(body, t), name, new_), Mean(r, t));
  }

  lemma WholeValue(was: bytes, w: bytes)
    requires |was| == |w|
    ensures Put(was, 0, w) == w
  {
  }

  // ---------- The children, one after the other ----------

  /** The siblings passed so far, in front of what becomes of the rest. */
  function Joined(k: TreeCtx, x: Try<Tree>): Try<Tree> {
    if x.Failed? then x else Did(Fill(k, x.value))
  }

  /** A context on one level: the open place is not inside any of the nodes. */
  predicate OnLevel(k: Ctx) {
    match k
    case Hole => true
    case AfterEntry(_, d) => OnLevel(d)
    case AfterNode(_, _, d) => OnLevel(d)
    case Inside(_, _, _) => false
  }

  lemma {:induction false} LevelEnds(k: Ctx)
    requires OnLevel(k)
    ensures Behind(k) == 0
    decreases k
  {
    match k
    case Hole =>
    case AfterEntry(_, d) => LevelEnds(d);
    case AfterNode(_, _, d) => LevelEnds(d);
  }

  lemma {:induction false} LevelOn(k: Ctx, d: Ctx)
    requires OnLevel(k) && OnLevel(d)
    ensures OnLevel(Compose(k, d))
    decreases k
  {
    match k
    case Hole =>
    case AfterEntry(_, e) => LevelOn(e, d);
    case AfterNode(_, _, e) => LevelOn(e, d);
  }

  lemma {:induction false} FillComposed(k: Ctx, d: Ctx, t: bytes, y: Tree)
    ensures Fill(MeanCtx(Compose(k, d), t), y) == Fill(MeanCtx(k, t), Fill(MeanCtx(d, t), y))
    decreases k
  {
    hide NameOf, Mean;
    match k
    case Hole =>
    case AfterEntry(_, e) => FillComposed(e, d, t, y);
    case AfterNode(_, _, e) => FillComposed(e, d, t, y);
    case Inside(_, e, _) => FillComposed(e, d, t, y);
  }

  /** The entries in front of the first child change nothing for the children. */
  lemma {:induction false} LeadingJoins(it: Items, t: bytes, delta: u32)
    ensures var (k, x) := Leading(it);
      && OnLevel(k) && !x.Flat? && it == Plug(k, x)
      && ShiftSubs(Mean(it, t), delta) == Joined(MeanCtx(k, t), ShiftSubs(Mean(x, t), delta))
    decreases it
  {
    hide NameOf, ShiftNode;
    if it.Flat? {
      LeadingJoins(it.rest, t, delta);
    }
  }

  lemma {:induction false} SubsOfReplaced(f: Tree, name: bytes, v: bytes, delta: u32)
    ensures var x, y := ShiftSubs(f, delta), ShiftSubs(ReplaceAttr(f, name, v), delta);
            y == if x.Failed? then x else Did(ReplaceAttr(x.value, name, v))
    decreases f
  {
    hide ShiftNode;
    if f.Attr? && f.name != name {
      SubsOfReplaced(f.rest, name, v, delta);
    }
  }

  lemma SubsOfShifted(f: Tree, name: bytes, delta: u32)
    requires ShiftAttr(f, name, delta).Did?
    ensures var x, y := ShiftSubs(f, delta), ShiftSubs(ShiftAttr(f, name, delta).value, delta);
            if x.Failed? then y == x else ShiftAttr(x.value, name, delta) == y
  {
    hide ShiftSubs, Be32, Enc32, ReplaceAttr, GetAttr;
    if GetAttr(f, name).Some? {
      SubsOfReplaced(f, name, Enc32(Be32(GetAttr(f, name).value) + delta), delta);
    }
  }

  /** Shifting a node's own properties first and its children then comes to the same. */
  lemma OwnFirst(f: Tree, delta: u32)
    requires ShiftAttr(f, PHANDLE, delta).Did? && ShiftAttr(f, LINUX_PHANDLE, delta).Did?
    ensures var g := ShiftAttr(f, PHANDLE, delta).value;
            ShiftAttr(g, LINUX_PHANDLE, delta).Did?
            && ShiftNode(f, delta) == ShiftSubs(ShiftAttr(g, LINUX_PHANDLE, delta).value, delta)
  {
    hide ShiftAttr, ShiftSubs;
    SameShift(f, f, delta);
    var g := ShiftAttr(f, PHANDLE, delta).value;
    SubsOfShifted(f, PHANDLE, delta);
    SubsOfShifted(g, LINUX_PHANDLE, delta);
    if ShiftSubs(f, delta).Did? {
      SameShift(f, ShiftSubs(f, delta).value, delta);
    }
  }

  /** The node that stands in context `k` within the content of the node at `o`. */
  lemma ChildAt(d: bytes, o: int, c: Ctx, n: bytes, k: Ctx, m: bytes, b: Items, q: Items, r: Items)
    requires OnLevel(k)
    ensures NodeAt(d, o, c, n, Plug(k, Node(m, b, q)), r) <==>
            NodeAt(d, o + HeadSize(n) + Off(k), Compose(c, Inside(n, k, r)), m, b, q) && o == Off(c)
  {
    hide Hdr, Block, Named, Size, HeadSize, Decodes;
    ComposePlug(c, Inside(n, k, r), Node(m, b, q));
    InsidePlug(n, k, r, Node(m, b, q));
  }

  lemma InsidePlug(n: bytes, k: Ctx, r: Items, x: Items)
    ensures Plug(Inside(n, k, r), x) == Node(n, Plug(k, x), r) && Off(Inside(n, k, r)) == HeadSize(n) + Off(k)
  {
    hide HeadSize;
  }

  /** What first and next subnode report from the siblings passed so far on. */
  lemma FirstLeft(s: bytes, o: int, n: bytes, k: Ctx, x: Items, r: Items)
    requires Holds(s, o, Node(n, Plug(k, x), r)) && o % 4 == 0 && OnLevel(k)
    ensures var q := o + HeadSize(n) + Off(k);
      && 0 <= q <= |s| && q % 4 == 0 && Holds(s, q, x) && TagAt(s, q + Size(x), END_NODE)
      && (x.Node? ==> NextSubnode(s, q) == FirstNode(x.rest, After(q, x.name, x.body)))
  {
    hide Holds, HeadAt, TagAt, HeadSize, Size, Plug, NextSubnode, FirstNode, Off;
    OpenNode(s, o, n, Plug(k, x), r);
    OffAligned(k);
    AlignedSum(o + HeadSize(n), Off(k));
    HoldsInner(s, o + HeadSize(n), k, x);
    PlugSize(k, x);
    LevelEnds(k);
    HoldsFits(s, o + HeadSize(n) + Off(k), x);
    if x.Node? {
      NextChild(s, o + HeadSize(n) + Off(k), x);
    }
  }

  lemma NextChild(s: bytes, q: int, x: Items)
    requires x.Node? && Holds(s, q, x) && q % 4 == 0 && TagAt(s, q + Size(x), END_NODE)
    ensures NextSubnode(s, q) == FirstNode(x.rest, After(q, x.name, x.body))
  {
    hide Holds, HeadAt, TagAt, HeadSize, Size, NextSubnode, FirstNode;
    NodeSize(x.name, x.body, x.rest);
    NextSubnodeOk(s, q, x.name, x.body, x.rest);
  }

  lemma {:induction false} FirstOfLeading(it: Items, o: int)
    requires o >= 0
    ensures var (k, x) := Leading(it);
            FirstNode(it, o) == if x.Node? then o + Off(k) else -ERR_NOTFOUND
    decreases it
  {
    hide EntrySize;
    if it.Flat? {
      FirstOfLeading(it.rest, o + EntrySize(it.e));
    }
  }

  lemma FirstChild(s: bytes, o: int, n: bytes, body: Items, r: Items)
    requires Holds(s, o, Node(n, body, r)) && o % 4 == 0
    ensures FirstSubnode(s, o) == FirstNode(body, o + HeadSize(n))
  {
    hide Holds, HeadAt, TagAt, HeadSize, Size, FirstSubnode, FirstNode;
    HoldsFits(s, o, Node(n, body, r));
    OpenNode(s, o, n, body, r);
    HoldsNothing(s, o + HeadSize(n) + Size(body) + TAGSIZE);
    HoldsNode(s, o, n, body, Done);
    FirstSubnodeOk(s, o, n, body);
  }

  /** `overlay_adjust_node_phandles`. */
  method AdjustNode(fdto: array<byte>, node: int, delta: u32, ghost c: Ctx, ghost n: bytes, ghost body: Items, ghost r: Items)
    returns (err: int, ghost body': Items)
    requires NodeAt(fdto[..], node, c, n, body, r)
    modifies fdto
    ensures Readable(old(fdto[..])) && Readable(fdto[..]) && Rewritten(old(fdto[..]), fdto[..], StructOf(fdto[..]))
    ensures var x := ShiftNode(Mean(body, StringsOf(old(fdto[..]))), delta);
      && err == (if x.Failed? then x.err else 0)
      && (x.Did? ==> Stepped(old(fdto[..]), fdto[..], node, c, n, body, body', r, x.value))
    decreases Size(body), 1
  {
    hide Hdr, Mean, Size, NodeAt, Rewritten, ShiftAttr, ShiftSubs, Stepped, GetAttr, Alike;
    ghost var b := fdto[..];
    SteppedSelf(b, node, c, n, body, r);
    RewrittenSelf(b);
    ghost var f := Mean(body, StringsOf(b));
    ShiftErrors(f, PHANDLE, delta);
    ShiftErrors(f, LINUX_PHANDLE, delta);
    err, body' := AddOffset(fdto, node, PHANDLE, delta, c, n, body, r);
    if err != 0 && err != -ERR_NOTFOUND {
      return;
    }
    ghost var d, x := fdto[..], body';
    SteppedParts(b, d, node, c, n, body, x, r, ShiftAttr(f, PHANDLE, delta).value);
    AfterOne(f, delta);
    err, body' := AddOffset(fdto, node, LINUX_PHANDLE, delta, c, n, x, r);
    if err != 0 && err != -ERR_NOTFOUND {
      return;
    }
    ghost var e, y, g := fdto[..], body', ShiftAttr(ShiftAttr(f, PHANDLE, delta).value, LINUX_PHANDLE, delta).value;
    SteppedParts(d, e, node, c, n, x, y, r, g);
    SteppedTwice(b, d, e, node, c, n, body, x, y, r, ShiftAttr(f, PHANDLE, delta).value, g);
    OwnFirst(f, delta);
    err, body' := AdjustKids(fdto, node, delta, c, n, y, r);
    SteppedParts(b, e, node, c, n, body, y, r, g);
    RewrittenTwice(b, e, fdto[..], StructOf(e), StructOf(fdto[..]));
    if err == 0 {
      SteppedTwice(b, e, fdto[..], node, c, n, body, y, body', r, g, ShiftSubs(g, delta).value);
    }
  }

  lemma SteppedParts(b: bytes, d: bytes, o: int, c: Ctx, n: bytes, body: Items, body': Items, r: Items, f: Tree)
    requires Stepped(b, d, o, c, n, body, body', r, f)
    ensures Readable(b) && Readable(d) && Rewritten(b, d, StructOf(d)) && NodeAt(d, o, c, n, body', r)
    ensures Alike(body, body') && Size(body') == Size(body) && StringsOf(d) == StringsOf(b) && Mean(body', StringsOf(d)) == f
  {
    hide Hdr, NodeAt, Mean, Size;
    RewrittenStrings(b, d);
    AlikeSize(body, body');
  }

  /** The first property does not matter to the second. */
  lemma AfterOne(f: Tree, delta: u32)
    requires ShiftAttr(f, PHANDLE, delta).Did?
    ensures var g := ShiftAttr(f, PHANDLE, delta).value;
      && GetAttr(g, LINUX_PHANDLE) == GetAttr(f, LINUX_PHANDLE)
      && (ShiftAttr(g, LINUX_PHANDLE, delta).Failed? ==> ShiftAttr(g, LINUX_PHANDLE, delta) == ShiftAttr(f, LINUX_PHANDLE, delta))
      && (ShiftAttr(g, LINUX_PHANDLE, delta).Did? ==> ShiftAttr(f, LINUX_PHANDLE, delta).Did?)
  {
    hide PhandlesOf, Be32, Enc32;
    TwoNames();
    ShiftedAttr(f, PHANDLE, delta);
  }

  lemma ShiftErrors(f: Tree, name: bytes, delta: u32)
    ensures GetAttr(f, name).None? ==> ShiftAttr(f, name, delta) == Did(f)
    ensures ShiftAttr(f, name, delta).Failed? ==> ShiftAttr(f, name, delta).err in {-ERR_BADPHANDLE, -ERR_NOPHANDLES}
  {
    hide Be32, Enc32;
  }

  /** The child loop of `overlay_adjust_node_phandles`. */
  method AdjustKids(fdto: array<byte>, node: int, delta: u32, ghost c: Ctx, ghost n: bytes, ghost body: Items, ghost r: Items)
    returns (err: int, ghost body': Items)
    requires NodeAt(fdto[..], node, c, n, body, r)
    modifies fdto
    ensures Readable(old(fdto[..])) && Readable(fdto[..]) && Rewritten(old(fdto[..]), fdto[..], StructOf(fdto[..]))
    ensures var x := ShiftSubs(Mean(body, StringsOf(old(fdto[..]))), delta);
      && err == (if x.Failed? then x.err else 0)
      && (x.Did? ==> Stepped(old(fdto[..]), fdto[..], node, c, n, body, body', r, x.value))
    decreases Size(body), 0
  {
    hide Hdr, Holds, Mean, Size, NodeAt, Rewritten, ShiftNode, ShiftSubs, Stepped, Plug, Joined, MeanCtx, HeadSize, FirstNode,
         FirstSubnode, NextSubnode, OnLevel, Leading, Off, TagAt, Alike;
    ghost var b := fdto[..];
    SteppedSelf(b, node, c, n, body, r);
    RewrittenSelf(b);
    AlikeSelf(body);
    body' := body;
    ghost var t := StringsOf(b);
    ghost var goal := ShiftSubs(Mean(body, t), delta);
    Placed(b, node, c, n, body, r);
    FirstChild(StructOf(b), node, n, body, r);
    ghost var (k, x) := Leading(body);
    LeadingJoins(body, t, delta);
    FirstOfLeading(body, node + HeadSize(n)) by { HeadBounds(n); }
    var sub := ReadFirstSubnode(fdto, node);
    while sub >= 0
      invariant Readable(fdto[..]) && Rewritten(b, fdto[..], StructOf(fdto[..])) && StringsOf(fdto[..]) == t
      invariant NodeAt(fdto[..], node, c, n, Plug(k, x), r) && OnLevel(k) && !x.Flat?
      invariant Alike(body, Plug(k, x))
      invariant sub == if x.Node? then node + HeadSize(n) + Off(k) else -ERR_NOTFOUND
      invariant goal == Joined(MeanCtx(k, t), ShiftSubs(Mean(x, t), delta))
      decreases Size(x)
    {
      ghost var d := fdto[..];
      Placed(d, node, c, n, Plug(k, x), r);
      FirstLeft(StructOf(d), node, n, k, x, r);
      ChildAt(d, node, c, n, k, x.name, x.body, x.rest, r);
      ChildSmaller(k, x);
      AlikeSize(body, Plug(k, x));
      ghost var kid;
      err, kid := AdjustNode(fdto, sub, delta, Compose(c, Inside(n, k, r)), x.name, x.body, x.rest);
      RewrittenTwice(b, d, fdto[..], StructOf(d), StructOf(fdto[..]));
      OneJoined(k, x, t, delta);
      if err != 0 {
        return;
      }
      SteppedParts(d, fdto[..], sub, Compose(c, Inside(n, k, r)), x.name, x.body, kid, x.rest, ShiftNode(Mean(x.body, t), delta).value);
      ChildAt(fdto[..], node, c, n, k, x.name, kid, x.rest, r);
      Placed(fdto[..], node, c, n, Plug(k, Node(x.name, kid, x.rest)), r);
      FirstLeft(StructOf(fdto[..]), node, n, k, Node(x.name, kid, x.rest), r);
      KidDone(node, n, k, x, kid, t, delta);
      AlikeNode(k, x.name, x.body, kid, x.rest);
      AlikeTwice(body, Plug(k, x), Plug(k, Node(x.name, kid, x.rest)));
      sub := ReadNextSubnode(fdto, sub);
      ghost var (k2, x2) := Leading(x.rest);
      k, x := Compose(k, AfterNode(x.name, kid, k2)), x2;
    }
    AllDone(k, x, t, delta);
    body' := Plug(k, x);
    EndStepped(b, fdto[..], node, c, n, body, body', r, goal.value);
    err := 0;
  }

  lemma HeadBounds(n: bytes)
    ensures HeadSize(n) > 0
  {
  }

  lemma ChildSmaller(k: Ctx, x: Items)
    requires x.Node?
    ensures Size(x.body) < Size(Plug(k, x))
  {
    hide Size, Plug;
    PlugSize(k, x);
    NodeSize(x.name, x.body, x.rest);
  }

  /** One more child. */
  lemma OneJoined(k: Ctx, x: Items, t: bytes, delta: u32)
    requires x.Node?
    ensures var one, goal := ShiftNode(Mean(x.body, t), delta), Joined(MeanCtx(k, t), ShiftSubs(Mean(x, t), delta));
            one.Failed? ==> goal == Failed(one.err) && one.err < 0
  {
    hide ShiftNode, MeanCtx;
  }

  lemma KidDone(node: int, n: bytes, k: Ctx, x: Items, kid: Items, t: bytes, delta: u32)
    requires x.Node? && OnLevel(k) && Size(kid) == Size(x.body) && node >= 0
    requires ShiftNode(Mean(x.body, t), delta) == Did(Mean(kid, t))
    ensures var (k2, x2) := Leading(x.rest);
            var k' := Compose(k, AfterNode(x.name, kid, k2));
      && OnLevel(k') && !x2.Flat? && Size(x2) < Size(x)
      && Plug(k', x2) == Plug(k, Node(x.name, kid, x.rest)) && Size(Plug(k', x2)) == Size(Plug(k, x))
      && FirstNode(x.rest, After(node + HeadSize(n) + Off(k), x.name, kid)) ==
           (if x2.Node? then node + HeadSize(n) + Off(k') else -ERR_NOTFOUND)
      && Joined(MeanCtx(k', t), ShiftSubs(Mean(x2, t), delta)) == Joined(MeanCtx(k, t), ShiftSubs(Mean(x, t), delta))
  {
    hide ShiftNode, MeanCtx, HeadSize, Size, Leading, FirstNode, Plug, Joined, ShiftSubs, Mean;
    var (k2, x2) := Leading(x.rest);
    LeadingJoins(x.rest, t, delta);
    var d := AfterNode(x.name, kid, k2);
    LevelOn(k, d);
    ComposePlug(k, d, x2);
    AfterPlug(x.name, kid, k2, x2);
    PlugSize(k2, x2);
    LevelEnds(k2);
    NodeSize(x.name, x.body, x.rest);
    NodeSize(x.name, kid, x.rest);
    PlugSize(k, x);
    PlugSize(k, Node(x.name, kid, x.rest));
    HeadBounds(n);
    FirstOfLeading(x.rest, After(node + HeadSize(n) + Off(k), x.name, kid));
    JoinedOn(k, x, kid, t, delta);
  }

  lemma AfterPlug(m: bytes, b: Items, k: Ctx, x: Items)
    ensures Plug(AfterNode(m, b, k), x) == Node(m, b, Plug(k, x))
    ensures Off(AfterNode(m, b, k)) == HeadSize(m) + Size(b) + TAGSIZE + Off(k)
  {
    hide HeadSize, Size;
  }

  lemma JoinedOn(k: Ctx, x: Items, kid: Items, t: bytes, delta: u32)
    requires x.Node? && ShiftNode(Mean(x.body, t), delta) == Did(Mean(kid, t))
    ensures var (k2, x2) := Leading(x.rest);
            Joined(MeanCtx(Compose(k, AfterNode(x.name, kid, k2)), t), ShiftSubs(Mean(x2, t), delta)) ==
            Joined(MeanCtx(k, t), ShiftSubs(Mean(x, t), delta))
  {
    hide ShiftNode, Leading, Plug;
    var (k2, x2) := Leading(x.rest);
    LeadingJoins(x.rest, t, delta);
    MeanNode(x.name, x.body, x.rest, t);
    var d := AfterNode(x.name, kid, k2);
    if ShiftSubs(Mean(x2, t), delta).Did? {
      FillComposed(k, d, t, ShiftSubs(Mean(x2, t), delta).value);
    }
  }

  lemma AllDone(k: Ctx, x: Items, t: bytes, delta: u32)
    requires !x.Flat? && !x.Node?
    ensures Joined(MeanCtx(k, t), ShiftSubs(Mean(x, t), delta)) == Did(Mean(Plug(k, x), t))
  {
    hide MeanCtx, Plug;
    MeanPlug(k, x, t);
  }

  lemma EndStepped(b: bytes, d: bytes, o: int, c: Ctx, n: bytes, body: Items, body': Items, r: Items, f: Tree)
    requires Readable(b) && Readable(d) && Rewritten(b, d, StructOf(d)) && NodeAt(d, o, c, n, body', r)
    requires Alike(body, body') && Mean(body', StringsOf(b)) == f
    ensures Stepped(b, d, o, c, n, body, body', r, f)
  {
    hide Hdr, NodeAt, Mean, Alike, Rewritten;
  }

  /**
   `fdt_overlay_apply` up to here: the overlay's phandles are shifted by the largest one of
   the base, and then none of them is one of the base's.
   */
  method ShiftOverlay(fdt: array<byte>, fdto: array<byte>, ghost base: Items, ghost m: bytes, ghost root: Items, ghost more: Items)
    returns (err: int, delta: u32, ghost root': Items)
    requires fdt != fdto && Stringed(fdt[..]) && Block(StructOf(fdt[..]), base) && Named(base, StringsOf(fdt[..]))
    requires NodeAt(fdto[..], 0, Hole, m, root, more)
    modifies fdto
    ensures fdt[..] == old(fdt[..]) && Readable(old(fdto[..])) && Readable(fdto[..])
    ensures delta == MaxPhandle(base, StringsOf(fdt[..]), 0)
    ensures var f := Mean(root, StringsOf(old(fdto[..])));
            var x := ShiftNode(f, delta);
      && err == (if x.Failed? then x.err else 0) && (err == 0 <==> Shiftable(f, delta))
      && (err == 0 ==>
           && x.Did? && Stepped(old(fdto[..]), fdto[..], 0, Hole, m, root, root', more, x.value)
           && Disjoint(PhandlesOf(Mean(base, StringsOf(fdt[..]))), AllPhandles(f), AllPhandles(x.value), delta))
  {
    hide Hdr, Block, NodeAt, Mean, ShiftNode, Stepped, Shiftable, PhandlesOf, AllPhandles, Disjoint, MaxPhandle;
    ghost var o := fdto[..];
    SteppedSelf(o, 0, Hole, m, root, more);
    ghost var f := Mean(root, StringsOf(o));
    MaxPhandleOk(StructOf(fdt[..]), StringsOf(fdt[..]), base);
    err, delta := ReadMaxPhandle(fdt);
    ShiftsIff(f, delta);
    err, root' := AdjustNode(fdto, 0, delta, Hole, m, root, more);
    NodeErrors(f, delta);
    if err == 0 {
      ShiftedApart(base, StringsOf(fdt[..]), f, delta);
    }
  }

  lemma NodeErrors(f: Tree, delta: u32)
    ensures ShiftNode(f, delta).Failed? ==> ShiftNode(f, delta).err < 0
  {
    hide ShiftAttr, ShiftSubs;
    ShiftErrors(f, PHANDLE, delta);
    ShiftErrors(f, LINUX_PHANDLE, delta);
    if ShiftAttr(f, PHANDLE, delta).Did? && ShiftAttr(f, LINUX_PHANDLE, delta).Did? && ShiftSubs(f, delta).Did? {
      SameShift(f, ShiftSubs(f, delta).value, delta);
    }
  }
}
