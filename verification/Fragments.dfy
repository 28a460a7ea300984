/** Targets of overlay fragments, and the merge of a whole overlay (fdt_overlay.c). */
module Fragments {
  import opened Options
  import opened Bytes
  import opened Structure
  import opened Blob
  import opened Walk
  import opened Read
  import opened Meaning
  import opened Core
  import opened Edit
  import opened Nodes
  import opened Overlay
  import opened Aliases

  // ---------- Lookups in a tree ----------

  datatype TreeFound =
    | Nowhere
    | Place(c: TreeCtx, name: bytes, body: Tree, rest: Tree)

  function Join(c: TreeCtx, d: TreeCtx): TreeCtx {
    match c
    case Top => d
    case PastAttr(n, v, k) => PastAttr(n, v, Join(k, d))
    case PastSub(n, b, k) => PastSub(n, b, Join(k, d))
    case In(n, k, r) => In(n, Join(k, d), r)
  }

  function TreeChild(f: Tree, name: bytes): TreeFound {
    match f
    case Nil => Nowhere
    case Attr(n, v, r) =>
      (match TreeChild(r, name)
       case Nowhere => Nowhere
       case Place(c, m, b, k) => Place(PastAttr(n, v, c), m, b, k))
    case Sub(n, b, r) =>
      if Matches(n, name) then Place(Top, n, b, r)
      else
        match TreeChild(r, name)
        case Nowhere => Nowhere
        case Place(c, m, d, k) => Place(PastSub(n, b, c), m, d, k)
  }

  /** The node that a path leads to, from the node `n` with content `b` in context `c`. */
  function TreeByPath(c: TreeCtx, n: bytes, b: Tree, r: Tree, path: bytes): TreeFound
    decreases |path|
  {
    if path == [] then Place(c, n, b, r)
    else if path[0] == SLASH then TreeByPath(c, n, b, r, path[1..])
    else
      var q := NextSlash(path, 0);
      match TreeChild(b, path[..q])
      case Nowhere => Nowhere
      case Place(d, m, e, k) => TreeByPath(Join(c, In(n, d, r)), m, e, k, path[q..])
  }

  /** The first node in pre-order that carries the phandle. */
  function TreeByPhandle(f: Tree, phandle: u32): TreeFound {
    match f
    case Nil => Nowhere
    case Attr(n, v, r) =>
      (match TreeByPhandle(r, phandle)
       case Nowhere => Nowhere
       case Place(c, m, b, k) => Place(PastAttr(n, v, c), m, b, k))
    case Sub(n, b, r) =>
      if PhandleIn(b) == phandle then Place(Top, n, b, r)
      else
        match TreeByPhandle(b, phandle)
        case Place(c, m, d, k) => Place(In(n, c, r), m, d, k)
        case Nowhere =>
          match TreeByPhandle(r, phandle)
          case Nowhere => Nowhere
          case Place(c, m, d, k) => Place(PastSub(n, b, c), m, d, k)
  }

  /** The meaning of a lookup's outcome. */
  function MeanFound(f: Found, t: bytes): TreeFound {
    match f
    case Missing => Nowhere
    case There(c, n, b, r) => Place(MeanCtx(c, t), n, Mean(b, t), Mean(r, t))
  }

  lemma {:induction false} MeanJoin(c: Ctx, d: Ctx, t: bytes)
    ensures MeanCtx(Compose(c, d), t) == Join(MeanCtx(c, t), MeanCtx(d, t))
  {
    hide NameOf, Mean;
    if c != Hole {
      MeanJoin(c.k, d, t);
    }
  }

  lemma {:induction false} ChildMeans(it: Items, t: bytes, name: bytes)
    ensures TreeChild(Mean(it, t), name) == MeanFound(ChildByName(it, name), t)
  {
    hide NameOf, Matches, Plug;
    match it
    case Done =>
    case Flat(_, r) => ChildMeans(r, t, name);
    case Node(_, _, r) => ChildMeans(r, t, name);
  }

  lemma {:induction false} PathMeans(c: Ctx, n: bytes, b: Items, r: Items, t: bytes, path: bytes)
    ensures TreeByPath(MeanCtx(c, t), n, Mean(b, t), Mean(r, t), path) == MeanFound(ByPath(c, n, b, r, path), t)
    decreases |path|
  {
    hide Mean, MeanCtx, ChildByName, TreeChild, Compose, Join, NextSlash;
    if path == [] {
    } else if path[0] == SLASH {
      PathMeans(c, n, b, r, t, path[1..]);
    } else {
      var q := NextSlash(path, 0);
      ChildMeans(b, t, path[..q]);
      var f := ChildByName(b, path[..q]);
      if f.There? {
        MeanJoin(c, Inside(n, f.c, r), t);
        MeanInside(n, f.c, r, t);
        PathMeans(Compose(c, Inside(n, f.c, r)), f.name, f.body, f.rest, t, path[q..]);
      }
    }
  }

  lemma MeanInside(n: bytes, k: Ctx, r: Items, t: bytes)
    ensures MeanCtx(Inside(n, k, r), t) == In(n, MeanCtx(k, t), Mean(r, t))
  {
  }

  lemma {:induction false} ByPhandleMeans(it: Items, t: bytes, phandle: u32)
    requires Named(it, t)
    ensures TreeByPhandle(Mean(it, t), phandle) == MeanFound(ByPhandle(it, t, phandle), t)
  {
    hide NameOf, Plug, PhandleOf, PhandleIn, Str;
    match it
    case Done =>
    case Flat(_, r) => ByPhandleMeans(r, t, phandle);
    case Node(_, b, r) =>
      PhandleMean(b, t);
      ByPhandleMeans(b, t, phandle);
      ByPhandleMeans(r, t, phandle);
  }

  // ---------- Paths that may begin with an alias ----------

  function UnseenAttrs(f: Tree, seen: set<bytes>): nat {
    if f.Attr? then (if f.name in seen then 0 else 1) + UnseenAttrs(f.rest, seen) else 0
  }

  lemma {:induction false} UnseenAttrsLess(f: Tree, seen: set<bytes>, name: bytes)
    ensures UnseenAttrs(f, seen + {name}) <= UnseenAttrs(f, seen)
    ensures GetAttr(f, name).Some? && name !in seen ==> UnseenAttrs(f, seen + {name}) < UnseenAttrs(f, seen)
    decreases f
  {
    if f.Attr? {
      UnseenAttrsLess(f.rest, seen, name);
    }
  }

  /** The node that a path leads to, from the root `n` with content `b`; its first name may be an alias. */
  function TreeFollow(n: bytes, b: Tree, r: Tree, path: bytes, seen: set<bytes>): TreeFound
    decreases match TreeByPath(Top, n, b, r, ALIASES) case Place(_, _, f, _) => UnseenAttrs(f, seen) case Nowhere => 0
  {
    var q := NextSlash(path, 0);
    var aliases := TreeByPath(Top, n, b, r, ALIASES);
    if Absolute(path) then TreeByPath(Top, n, b, r, path)
    else if aliases.Nowhere? then Nowhere
    else
      var p := GetAttr(aliases.body, path[..q]);
      if p.None? || path[..q] in seen then Nowhere
      else
        UnseenAttrsLess(aliases.body, seen, path[..q]);
        match TreeFollow(n, b, r, CString(p.value), seen + {path[..q]})
        case Nowhere => Nowhere
        case Place(c, m, e, k) => TreeByPath(c, m, e, k, path[q..])
  }

  function FoundBy(w: Way): Found {
    match w
    case Leads(c, n, b, r) => There(c, n, b, r)
    case Ends(_) => Missing
  }

  lemma {:induction false} FollowMeans(it: Items, t: bytes, path: bytes, seen: set<bytes>)
    requires it.Node? && Named(it, t)
    ensures TreeFollow(it.name, Mean(it.body, t), Mean(it.rest, t), path, seen) == MeanFound(FoundBy(Follow(it, t, path, seen)), t)
    decreases match ByPath(Hole, it.name, it.body, it.rest, ALIASES) case There(_, _, b, _) => Unseen(b, t, seen) case Missing => 0
  {
    hide ByPath, TreeByPath, PropByName, CString, Plug, Mean, MeanCtx, GetAttr, Named, Unseen, UnseenAttrs;
    var q := NextSlash(path, 0);
    HolePlug(it, t);
    PathMeans(Hole, it.name, it.body, it.rest, t, path);
    PathMeans(Hole, it.name, it.body, it.rest, t, ALIASES);
    var aliases := ByPath(Hole, it.name, it.body, it.rest, ALIASES);
    if !Absolute(path) && aliases.There? {
      ByPathPlace(Hole, it.name, it.body, it.rest, ALIASES);
      NamedInner(it, aliases, t);
      PropByNameMean(aliases.body, t, path[..q]);
      var p := PropByName(aliases.body, t, path[..q]);
      if p.PropThere? && path[..q] !in seen {
        UnseenLess(aliases.body, t, seen, path[..q]);
        FollowMeans(it, t, CString(p.val), seen + {path[..q]});
        var w := Follow(it, t, CString(p.val), seen + {path[..q]});
        if w.Leads? {
          PathMeans(w.c, w.name, w.body, w.rest, t, path[q..]);
        }
      }
    }
  }

  // ---------- Targets ----------

  /** "target", "target-path" and "__overlay__". */
  const TARGET: bytes := [0x74, 0x61, 0x72, 0x67, 0x65, 0x74]
  const TARGET_PATH: bytes := TARGET + [0x2d, 0x70, 0x61, 0x74, 0x68]
  const OVERLAY: bytes := [0x5f, 0x5f, 0x6f, 0x76, 0x65, 0x72, 0x6c, 0x61, 0x79, 0x5f, 0x5f]

  /** `overlay_get_target_phandle` on the value of the "target" property. */
  function TargetPhandle(val: Option<bytes>): u32 {
    if val.None? then 0
    else if |val.value| != 4 then 0xffff_ffff
    else Be32(val.value)
  }

  /** `overlay_get_target`: where in the base tree a fragment with content `frag` applies. */
  function TargetOf(n: bytes, b: Tree, r: Tree, frag: Tree): TreeFound {
    var phandle := TargetPhandle(GetAttr(frag, TARGET));
    if phandle == 0xffff_ffff then Nowhere
    else if phandle != 0 then TreeByPhandle(Sub(n, b, r), phandle)
    else
      var path := GetAttr(frag, TARGET_PATH);
      if path.None? then Nowhere else TreeFollow(n, b, r, CString(path.value), {})
  }

  /** Applies one fragment to the base tree; nothing when its target cannot be found. */
  function MergeFragment(base: Tree, frag: Tree): Option<Tree> {
    var ov := GetChild(frag, OVERLAY);
    if ov.None? then Some(base)
    else if !base.Sub? then None
    else
      match TargetOf(base.name, base.body, base.rest, frag)
      case Nowhere => None
      case Place(c, n, b, r) => Some(Fill(c, Sub(n, Merge(b, ov.value), r)))
  }

  /** Applies the fragments, the children of the overlay's root, in order. */
  function MergeOverlay(base: Tree, frags: Tree): Option<Tree>
    decreases frags
  {
    match frags
    case Nil => Some(base)
    case Attr(_, _, r) => MergeOverlay(base, r)
    case Sub(_, frag, r) =>
      var next := MergeFragment(base, frag);
      if next.None? then None else MergeOverlay(next.value, r)
  }

  /** `overlay_get_target` among the items: the target, or the error. */
  function TargetWay(it: Items, t: bytes, frag: Items, to: bytes): Way
    requires it.Node?
  {
    var p := PropByName(frag, to, TARGET);
    var phandle := TargetPhandle(if p.PropThere? then Some(p.val) else None);
    if phandle == 0xffff_ffff then Ends(-ERR_BADPHANDLE)
    else if phandle != 0 then Straight(ByPhandle(it, t, phandle))
    else
      var q := PropByName(frag, to, TARGET_PATH);
      if q.NoProp? then Ends(-ERR_BADOVERLAY) else Follow(it, t, CString(q.val), {})
  }

  function TargetItems(it: Items, t: bytes, frag: Items, to: bytes): Found
    requires it.Node?
  {
    FoundBy(TargetWay(it, t, frag, to))
  }

  lemma TargetMeans(it: Items, t: bytes, frag: Items, to: bytes)
    requires it.Node? && Named(it, t) && Named(frag, to)
    ensures TargetOf(it.name, Mean(it.body, t), Mean(it.rest, t), Mean(frag, to)) == MeanFound(TargetItems(it, t, frag, to), t)
    ensures var w := TargetWay(it, t, frag, to);
            if w.Leads? then it == Plug(w.c, Node(w.name, w.body, w.rest)) else w.err < 0
  {
    hide Mean, Named, PropByName, GetAttr, Be32, ByPhandle, Follow, TreeFollow, TreeByPhandle, Plug, CString, MeanCtx;
    PropByNameMean(frag, to, TARGET);
    PropByNameMean(frag, to, TARGET_PATH);
    var p, q := PropByName(frag, to, TARGET), PropByName(frag, to, TARGET_PATH);
    var phandle := TargetPhandle(if p.PropThere? then Some(p.val) else None);
    MeanNode(it.name, it.body, it.rest, t);
    MeanNowhere(t);
    ByPhandleMeans(it, t, phandle);
    if q.PropThere? {
      FollowMeans(it, t, CString(q.val), {});
      FollowPlace(it, t, CString(q.val), {});
    }
  }

  /** Where the target stands, or that there is none. */
  lemma TargetAt(it: Items, t: bytes, frag: Items, to: bytes)
    requires it.Node? && Named(it, t) && Named(frag, to)
    ensures var f, r := TargetItems(it, t, frag, to), Offset(TargetWay(it, t, frag, to));
      && (f.There? <==> MeanFound(f, t).Place?)
      && if f.There? then r == Off(f.c) && it == Plug(f.c, Node(f.name, f.body, f.rest)) else r < 0
  {
    hide Mean, Named, TargetWay, TargetOf, Plug, Off;
    TargetMeans(it, t, frag, to);
  }

  lemma MeanNowhere(t: bytes)
    ensures MeanFound(Missing, t) == Nowhere
  {
  }

  lemma HolePlug(it: Items, t: bytes)
    ensures Plug(Hole, it) == it && MeanCtx(Hole, t) == Top && Off(Hole) == 0
  {
  }

  /** The path lookup of `overlay_get_target`. */
  method GetTargetByPath(fdt: array<byte>, fdto: array<byte>, fragment: int, ghost it: Items, ghost m: bytes, ghost frag: Items)
    returns (r: int)
    requires Ready(fdt[..]) && Denotes(fdt[..], it) && it.Node?
    requires Stringed(fdto[..]) && 0 <= fragment && fragment % 4 == 0
    requires Holds(StructOf(fdto[..]), fragment, Node(m, frag, Done))
    ensures var q := PropByName(frag, StringsOf(fdto[..]), TARGET_PATH);
            r == if q.NoProp? then -ERR_BADOVERLAY else Offset(Follow(it, StringsOf(fdt[..]), CString(q.val), {}))
  {
    hide Hdr, Holds, Named, PropByName, Follow, Plug, CString, NextTag, PropVal, GetProperty, Off, Block, Size, HeadSize;
    ghost var so, to := StructOf(fdto[..]), StringsOf(fdto[..]);
    HoldsFits(so, fragment, Node(m, frag, Done));
    GetPropertyOk(so, to, fragment, m, frag, Done, TARGET_PATH);
    if PropByName(frag, to, TARGET_PATH).PropThere? {
      FoundVal(so, to, fragment, m, frag, Done, TARGET_PATH);
    }
    var at, val := ReadGetProp(fdto, fragment, TARGET_PATH);
    if at < 0 {
      return -ERR_BADOVERLAY;
    }
    r := ReadPathOffset(fdt, CString(val), {}, it);
  }

  /** `overlay_get_target`. */
  method GetTarget(fdt: array<byte>, fdto: array<byte>, fragment: int, ghost it: Items, ghost m: bytes, ghost frag: Items)
    returns (r: int)
    requires Ready(fdt[..]) && Denotes(fdt[..], it) && it.Node?
    requires Stringed(fdto[..]) && 0 <= fragment && fragment % 4 == 0
    requires Holds(StructOf(fdto[..]), fragment, Node(m, frag, Done))
    ensures r == Offset(TargetWay(it, StringsOf(fdt[..]), frag, StringsOf(fdto[..])))
  {
    hide Hdr, Holds, Named, PropByName, Be32, ByPhandle, Follow, Plug, CString, NextTag, PropVal, GetProperty, Off, Block, Size, HeadSize;
    ghost var so, to := StructOf(fdto[..]), StringsOf(fdto[..]);
    HoldsFits(so, fragment, Node(m, frag, Done));
    GetPropertyOk(so, to, fragment, m, frag, Done, TARGET);
    if PropByName(frag, to, TARGET).PropThere? {
      FoundVal(so, to, fragment, m, frag, Done, TARGET);
    }
    var at, val := ReadGetProp(fdto, fragment, TARGET);
    var phandle := TargetPhandle(if at >= 0 then Some(val) else None);
    if phandle == 0xffff_ffff {
      return -ERR_BADPHANDLE;
    }
    if phandle != 0 {
      NodeByPhandleOk(StructOf(fdt[..]), StringsOf(fdt[..]), it, phandle);
      r := ReadNodeByPhandle(fdt, phandle);
    } else {
      r := GetTargetByPath(fdt, fdto, fragment, it, m, frag);
    }
  }

  // ---------- overlay_merge ----------

  /** Enough unused space for what a fragment brings. */
  function FragmentNeed(frag: Tree): nat {
    var ov := GetChild(frag, OVERLAY);
    if ov.Some? then Need(ov.value) else 0
  }

  function OverlayNeed(frags: Tree): nat {
    match frags
    case Nil => 0
    case Attr(_, _, r) => OverlayNeed(r)
    case Sub(_, frag, r) => FragmentNeed(frag) + OverlayNeed(r)
  }

  /** With room and targets there is no failure, and no more than the room is used. */
  ghost predicate Achieves(b: bytes, d: bytes, err: int, goal: Option<Tree>, need: nat) {
    && Ready(b) && (goal.Some? && need <= Slack(b) ==> err == 0)
    && (err == 0 ==> Ready(d) && Slack(d) >= Slack(b) - need)
  }

  /** The base tree after one fragment. */
  ghost predicate Merged(b: bytes, d: bytes, it': Items, goal: Option<Tree>) {
    && Ready(b) && Denotes(d, it') && it'.Node?
    && StringsOf(b) <= StringsOf(d) && Edited(b, d, StructOf(d), StringsOf(d))
    && goal == Some(Mean(it', StringsOf(d)))
  }

  /** One round of the loop of `overlay_merge`. */
  method MergeOne(fdt: array<byte>, fdto: array<byte>, fragment: int, ghost it: Items, ghost m: bytes, ghost frag: Items)
    returns (err: int, ghost it': Items)
    requires fdt != fdto && Wellformed(fdt[..]) && Denotes(fdt[..], it) && it.Node?
    requires Stringed(fdto[..]) && 0 <= fragment && fragment % 4 == 0
    requires Holds(StructOf(fdto[..]), fragment, Node(m, frag, Done)) && Named(frag, StringsOf(fdto[..]))
    modifies fdt
    ensures err == 0 ==>
      Merged(old(fdt[..]), fdt[..], it', MergeFragment(Mean(it, StringsOf(old(fdt[..]))), Mean(frag, StringsOf(fdto[..]))))
    ensures Achieves(old(fdt[..]), fdt[..], err, MergeFragment(Mean(it, StringsOf(old(fdt[..]))), Mean(frag, StringsOf(fdto[..]))),
                     FragmentNeed(Mean(frag, StringsOf(fdto[..]))))
  {
    hide Hdr, Holds, Named, Mean, Plug, NextTag, Off, Block, Size, HeadSize, Now, Edited, CheckHeader, ChildByName,
         SubnodeOffset, GetChild, TargetItems, TargetWay, TargetOf, Merge, Fill, Need;
    ghost var b, so, to := fdt[..], StructOf(fdto[..]), StringsOf(fdto[..]);
    ghost var t := StringsOf(b);
    it' := it;
    HoldsFits(so, fragment, Node(m, frag, Done));
    SubnodeOffsetOk(so, fragment, m, frag, Done, OVERLAY);
    ChildByNameMean(frag, to, OVERLAY);
    var overlay := ReadSubnodeOffset(fdto, fragment, OVERLAY);
    if overlay == -ERR_NOTFOUND {
      EditedSelf(b);
      return 0, it';
    }
    if overlay < 0 {
      return overlay, it';
    }
    ghost var f := ChildByName(frag, OVERLAY);
    OverlayNode(so, fragment, m, frag, f);
    DenotesNamed(b, it);
    NamedInner(frag, f, to);
    TargetMeans(it, t, frag, to);
    MeanNode(it.name, it.body, it.rest, t);
    ghost var g := TargetItems(it, t, frag, to);
    TargetAt(it, t, frag, to);
    var target := GetTarget(fdt, fdto, fragment, it, m, frag);
    if target < 0 {
      return target, it';
    }
    ghost var body';
    err, body' := ApplyNode(fdt, target, fdto, overlay, g.c, g.name, g.body, g.rest, f.name, f.body);
    if err != 0 {
      return;
    }
    it' := Plug(g.c, Node(g.name, body', g.rest));
    MergedOne(b, fdt[..], it, g, body', Mean(f.body, to));
  }

  /** A blob that is only read: its blocks may come in any order. */
  ghost predicate Carries(b: bytes, it: Items) {
    Stringed(b) && Block(StructOf(b), it) && Named(it, StringsOf(b))
  }

  lemma DenotesNamed(b: bytes, it: Items)
    requires Stringed(b) && Block(StructOf(b), it) && Named(it, StringsOf(b)) && it.Node?
    ensures Named(it, StringsOf(b)) && Named(it.body, StringsOf(b)) && Named(it.rest, StringsOf(b))
  {
    hide Hdr, Block, Str;
  }

  lemma NamedInner(it: Items, f: Found, t: bytes)
    requires Named(it, t) && f.There? && it == Plug(f.c, Node(f.name, f.body, f.rest))
    ensures Named(f.body, t) && Named(f.rest, t)
  {
    hide Str, Plug;
    MeanPlug(f.c, Node(f.name, f.body, f.rest), t);
  }

  lemma OverlayNode(s: bytes, o: int, m: bytes, frag: Items, f: Found)
    requires Holds(s, o, Node(m, frag, Done)) && o % 4 == 0 && 0 <= o
    requires f.There? && frag == Plug(f.c, Node(f.name, f.body, f.rest))
    ensures var p := o + HeadSize(m) + Off(f.c);
            0 <= p && p % 4 == 0 && Holds(s, p, Node(f.name, f.body, Done))
  {
    hide Holds, HeadAt, TagAt, HeadSize, Plug, Off, Size;
    OpenNode(s, o, m, frag, Done);
    OffAligned(f.c);
    HoldsInner(s, o + HeadSize(m), f.c, Node(f.name, f.body, f.rest));
    var p := o + HeadSize(m) + Off(f.c);
    AlignedSum(o + HeadSize(m), Off(f.c));
    OpenNode(s, p, f.name, f.body, f.rest);
    NodeAlone(s, p, f.name, f.body, f.rest);
  }

  lemma MergedOne(b: bytes, d: bytes, it: Items, g: Found, body': Items, ov: Tree)
    requires Wellformed(b) && Denotes(b, it) && it.Node?
    requires g.There? && it == Plug(g.c, Node(g.name, g.body, g.rest))
    requires Applied(b, d, g.c, g.name, g.body, body', g.rest, Merge(Mean(g.body, StringsOf(b)), ov))
    ensures var it' := Plug(g.c, Node(g.name, body', g.rest));
            && Denotes(d, it') && it'.Node? && Wellformed(d)
            && StringsOf(b) <= StringsOf(d) && Edited(b, d, StructOf(d), StringsOf(d))
            && Mean(it', StringsOf(d)) ==
               Fill(MeanCtx(g.c, StringsOf(b)), Sub(g.name, Merge(Mean(g.body, StringsOf(b)), ov), Mean(g.rest, StringsOf(b))))
  {
    hide Hdr, Edited, Block, Named, Mean, MeanCtx, CheckHeader, Merge, Fill;
    var x := Node(g.name, body', g.rest);
    NowDenotes(b, d, g.c, x, Sub(g.name, Merge(Mean(g.body, StringsOf(b)), ov), Mean(g.rest, StringsOf(b))));
  }

  /**
   `overlay_merge`: when it succeeds, the tree of the base blob has become the fold of the
   pure merge over the overlay's fragments, whatever the insertions did to the offsets.
   */
  method MergeBlob(fdt: array<byte>, fdto: array<byte>, ghost it: Items, ghost m: bytes, ghost root: Items, ghost more: Items)
    returns (err: int, ghost it': Items)
    requires fdt != fdto && Wellformed(fdt[..]) && Denotes(fdt[..], it) && it.Node?
    requires Carries(fdto[..], Node(m, root, more))
    modifies fdt
    ensures err == 0 ==>
      Merged(old(fdt[..]), fdt[..], it', MergeOverlay(Mean(it, StringsOf(old(fdt[..]))), Mean(root, StringsOf(fdto[..]))))
    ensures Achieves(old(fdt[..]), fdt[..], err, MergeOverlay(Mean(it, StringsOf(old(fdt[..]))), Mean(root, StringsOf(fdto[..]))),
                     OverlayNeed(Mean(root, StringsOf(fdto[..]))))
  {
    hide Hdr, Plug, Holds, TagAt, HeadAt, EntryAt, EntrySize, HeadSize, Mean, Named, Off, Edited, Size,
         NextTag, CheckHeader, MergeFragment, FirstNode, FirstSubnode, NextSubnode, Cursor, FragmentNeed;
    ghost var b, so, to := fdt[..], StructOf(fdto[..]), StringsOf(fdto[..]);
    ghost var goal := MergeOverlay(Mean(it, StringsOf(b)), Mean(root, to));
    DenotesNamed(fdto[..], Node(m, root, more));
    OpenNode(so, 0, m, root, more);
    NodeAlone(so, 0, m, root, more);
    FirstSubnodeOk(so, 0, m, root);
    HoldsFits(so, HeadSize(m), root);
    ghost var q, rem := SkipToFragment(so, HeadSize(m), root, to, Mean(it, StringsOf(b)));
    CursorAt(so, q, rem, to);
    it' := it;
    EditedSelf(b);
    var fragment := ReadFirstSubnode(fdto, 0);
    while fragment >= 0
      invariant fdto[..] == old(fdto[..])
      invariant Cursor(so, q, rem, to)
      invariant !rem.Flat? && fragment == FirstNode(rem, q)
      invariant Wellformed(fdt[..]) && Denotes(fdt[..], it') && it'.Node?
      invariant Ready(b) && StringsOf(b) <= StringsOf(fdt[..])
      invariant Edited(b, fdt[..], StructOf(fdt[..]), StringsOf(fdt[..]))
      invariant MergeOverlay(Mean(it', StringsOf(fdt[..])), Mean(rem, to)) == goal
      invariant Slack(fdt[..]) - OverlayNeed(Mean(rem, to)) >= Slack(b) - OverlayNeed(Mean(root, to))
      decreases Size(rem)
    {
      FirstOfRest(so, q, rem, to);
      MeanNode(rem.name, rem.body, rem.rest, to);
      ghost var d, x := fdt[..], it';
      err, it' := MergeOne(fdt, fdto, fragment, x, rem.name, rem.body);
      if err != 0 {
        return;
      }
      EditedTwice(b, d, fdt[..], StructOf(d), StringsOf(d), StructOf(fdt[..]), StringsOf(fdt[..]));
      EditedWellformed(d, fdt[..]);
      ghost var g := Mean(it', StringsOf(fdt[..]));
      fragment := ReadNextSubnode(fdto, fragment);
      q, rem := SkipToFragment(so, After(q, rem.name, rem.body), rem.rest, to, g);
      CursorAt(so, q, rem, to);
    }
    CursorBounds(so, q, rem, to);
    FragmentsDone(Mean(it', StringsOf(fdt[..])), rem, q, to);
    err := 0;
  }

  lemma EditedWellformed(b: bytes, d: bytes)
    requires Wellformed(b) && Ready(d) && Edited(b, d, StructOf(d), StringsOf(d))
    ensures Wellformed(d)
  {
    hide Hdr, CheckHeader;
    OrderedPasses(Hdr(d));
  }

  lemma FragmentsDone(f: Tree, rem: Items, q: int, t: bytes)
    requires !rem.Flat? && FirstNode(rem, q) < 0 && 0 <= q
    ensures MergeOverlay(f, Mean(rem, t)) == Some(f)
  {
  }

  lemma {:induction false} SkipToFragment(s: bytes, q: int, it: Items, t: bytes, f: Tree) returns (p: int, rem: Items)
    requires Holds(s, q, it) && q % 4 == 0 && TagAt(s, q + Size(it), END_NODE) && Named(it, t)
    ensures 0 <= p && Holds(s, p, rem) && p % 4 == 0 && TagAt(s, p + Size(rem), END_NODE) && Named(rem, t)
    ensures FirstNode(it, q) == FirstNode(rem, p) && Size(rem) <= Size(it)
    ensures MergeOverlay(f, Mean(it, t)) == MergeOverlay(f, Mean(rem, t))
    ensures OverlayNeed(Mean(it, t)) == OverlayNeed(Mean(rem, t))
    ensures !rem.Flat?
    decreases it
  {
    hide Holds, EntryAt, TagAt, EntrySize, Str, NameOf;
    HoldsFits(s, q, it);
    p, rem := q, it;
    if it.Flat? {
      OpenFlat(s, q, it.e, it.rest);
      p, rem := SkipToFragment(s, q + EntrySize(it.e), it.rest, t, f);
    }
  }
}
