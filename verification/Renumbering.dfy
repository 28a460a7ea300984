/**
 Shift and references together, on trees: the lists in `__local_fixups__` are part of the
 overlay and are shifted with it before they are used.
 */
module Renumbering {
  import opened Options
  import opened Bytes
  import opened Blob
  import opened Buffer
  import opened Walk
  import opened Read
  import opened Meaning
  import opened Merging
  import opened Phandles
  import opened References

  /** "__local_fixups__". */
  const LOCAL_FIXUPS: bytes :=
    [0x5f, 0x5f, 0x6c, 0x6f, 0x63, 0x61, 0x6c, 0x5f, 0x66, 0x69, 0x78, 0x75, 0x70, 0x73, 0x5f, 0x5f]

  predicate Handle(name: bytes) {
    name == PHANDLE || name == LINUX_PHANDLE
  }

  // ---------- Lists that leave the phandles alone ----------

  /** No node of the lists has a list for a phandle. */
  predicate NoneListed(fix: Tree)
    decreases fix, 1
  {
    GetAttr(fix, PHANDLE).None? && GetAttr(fix, LINUX_PHANDLE).None? && SubsUnlisted(fix)
  }

  predicate SubsUnlisted(fix: Tree)
    decreases fix, 0
  {
    match fix
    case Nil => true
    case Attr(_, _, r) => SubsUnlisted(r)
    case Sub(_, b, r) => NoneListed(b) && SubsUnlisted(r)
  }

  /** A phandle as the shift leaves it: four bytes that say `delta` or more. */
  predicate Lifted(v: Option<bytes>, delta: u32) {
    v.Some? ==> |v.value| == 4 && Be32(v.value) >= delta
  }

  predicate Raised(f: Tree, delta: u32)
    decreases f, 1
  {
    Lifted(GetAttr(f, PHANDLE), delta) && Lifted(GetAttr(f, LINUX_PHANDLE), delta) && SubsRaised(f, delta)
  }

  predicate SubsRaised(f: Tree, delta: u32)
    decreases f, 0
  {
    match f
    case Nil => true
    case Attr(_, _, r) => SubsRaised(r, delta)
    case Sub(_, b, r) => Raised(b, delta) && SubsRaised(r, delta)
  }

  lemma {:induction false} SubsBeside(f: Tree, name: bytes, v: bytes, delta: u32)
    ensures SubsRaised(ReplaceAttr(f, name, v), delta) == SubsRaised(f, delta)
    decreases f
  {
    hide Raised;
    if f.Attr? {
      SubsBeside(f.rest, name, v, delta);
    }
  }

  lemma {:induction false} UnlistedBeside(f: Tree, name: bytes, v: bytes)
    ensures SubsUnlisted(ReplaceAttr(f, name, v)) == SubsUnlisted(f)
    decreases f
  {
    hide NoneListed;
    if f.Attr? {
      UnlistedBeside(f.rest, name, v);
    }
  }

  lemma {:induction false} AttrsKept(tree: Tree, fix: Tree, delta: u32, name: bytes)
    requires UpdateAttrs(tree, fix, delta).Some? && GetAttr(fix, name).None?
    ensures var g := UpdateAttrs(tree, fix, delta).value;
      GetAttr(g, name) == GetAttr(tree, name) && PhandlesOf(g) == PhandlesOf(tree) && SubsRaised(g, delta) == SubsRaised(tree, delta)
    decreases fix
  {
    hide BumpAll, PhandlesOf, SubsRaised;
    match fix
    case Attr(n, places, r) =>
      var v := BumpAll(GetAttr(tree, n).value, places, 0, delta).value;
      GetReplaced(tree, n, v, name);
      PhandlesBeside(tree, n, v);
      SubsBeside(tree, n, v, delta);
      AttrsKept(ReplaceAttr(tree, n, v), r, delta, name);
    case _ =>
  }

  lemma {:induction false} KidReplaced(f: Tree, n: bytes, g: Tree, delta: u32)
    requires GetChild(f, n).Some? && PhandleIn(g) == PhandleIn(GetChild(f, n).value)
    requires PhandlesOf(g) == PhandlesOf(GetChild(f, n).value)
    ensures PhandlesOf(ReplaceChild(f, n, g)) == PhandlesOf(f)
    ensures SubsRaised(f, delta) && Raised(g, delta) ==> SubsRaised(ReplaceChild(f, n, g), delta)
    decreases f
  {
    hide PhandleIn, Raised, Matches;
    match f
    case Attr(_, _, r) => KidReplaced(r, n, g, delta);
    case Sub(m, _, r) =>
      if !Matches(m, n) {
        KidReplaced(r, n, g, delta);
      }
  }

  lemma {:induction false} KidRaised(f: Tree, n: bytes, delta: u32)
    requires SubsRaised(f, delta) && GetChild(f, n).Some?
    ensures Raised(GetChild(f, n).value, delta)
    decreases f
  {
    hide Raised, Matches;
    match f
    case Attr(_, _, r) => KidRaised(r, n, delta);
    case Sub(m, _, r) =>
      if !Matches(m, n) {
        KidRaised(r, n, delta);
      }
  }

  /** Lists without a phandle change no phandle. */
  lemma {:induction false} RefsKept(tree: Tree, fix: Tree, delta: u32)
    requires NoneListed(fix) && UpdateRefs(tree, fix, delta).Some?
    ensures var g := UpdateRefs(tree, fix, delta).value;
      && GetAttr(g, PHANDLE) == GetAttr(tree, PHANDLE) && GetAttr(g, LINUX_PHANDLE) == GetAttr(tree, LINUX_PHANDLE)
      && PhandlesOf(g) == PhandlesOf(tree) && (Raised(tree, delta) ==> Raised(g, delta))
    decreases fix, 1
  {
    hide UpdateAttrs, UpdateKids, PhandlesOf, GetAttr, SubsRaised, SubsUnlisted;
    var g := UpdateAttrs(tree, fix, delta).value;
    AttrsKept(tree, fix, delta, PHANDLE);
    AttrsKept(tree, fix, delta, LINUX_PHANDLE);
    KidsBeside(g, fix, delta, PHANDLE);
    KidsBeside(g, fix, delta, LINUX_PHANDLE);
    KidsKept(g, fix, delta);
  }

  lemma {:induction false} KidsKept(tree: Tree, fix: Tree, delta: u32)
    requires SubsUnlisted(fix) && UpdateKids(tree, fix, delta).Some?
    ensures var g := UpdateKids(tree, fix, delta).value;
      PhandlesOf(g) == PhandlesOf(tree) && (SubsRaised(tree, delta) ==> SubsRaised(g, delta))
    decreases fix, 0
  {
    hide UpdateRefs, PhandlesOf, SubsRaised, NoneListed;
    match fix
    case Nil =>
    case Attr(_, _, r) => KidsKept(tree, r, delta);
    case Sub(n, b, r) =>
      var x := GetChild(tree, n).value;
      var c := UpdateRefs(x, b, delta).value;
      RefsKept(x, b, delta);
      SamePhandle(x, c);
      KidReplaced(tree, n, c, delta);
      if SubsRaised(tree, delta) {
        KidRaised(tree, n, delta);
      }
      KidsKept(ReplaceChild(tree, n, c), r, delta);
  }

  lemma SamePhandle(f: Tree, g: Tree)
    requires GetAttr(g, PHANDLE) == GetAttr(f, PHANDLE) && GetAttr(g, LINUX_PHANDLE) == GetAttr(f, LINUX_PHANDLE)
    ensures PhandleIn(g) == PhandleIn(f)
  {
    hide GetAttr, Word4;
  }

  // ---------- A listed phandle ----------

  /** A list for a phandle that was shifted too names a place behind the phandle. */
  lemma {:induction false} AttrRefused(tree: Tree, fix: Tree, delta: u32, name: bytes)
    requires delta > 0 && Lifted(GetAttr(tree, name), delta) && Lifted(GetAttr(fix, name), delta) && GetAttr(fix, name).Some?
    ensures UpdateAttrs(tree, fix, delta).None?
    decreases fix
  {
    hide Be32, Bumped;
    var n, places := fix.name, fix.val;
    var val := GetAttr(tree, n);
    if n == name {
      assert places[0..4] == places;
    } else if val.Some? && BumpAll(val.value, places, 0, delta).Some? {
      hide BumpAll;
      var v := BumpAll(val.value, places, 0, delta).value;
      GetReplaced(tree, n, v, name);
      AttrRefused(ReplaceAttr(tree, n, v), fix.rest, delta, name);
    }
  }

  /** Where something was shifted, the update succeeds only when no list is for a phandle. */
  lemma {:induction false} PhandleRefused(tree: Tree, fix: Tree, delta: u32)
    requires delta > 0 && Raised(tree, delta) && Raised(fix, delta) && UpdateRefs(tree, fix, delta).Some?
    ensures NoneListed(fix)
    decreases fix, 1
  {
    hide UpdateAttrs, UpdateKids, GetAttr, SubsRaised, SubsUnlisted, Lifted;
    if GetAttr(fix, PHANDLE).Some? {
      AttrRefused(tree, fix, delta, PHANDLE);
    }
    if GetAttr(fix, LINUX_PHANDLE).Some? {
      AttrRefused(tree, fix, delta, LINUX_PHANDLE);
    }
    AttrsKept(tree, fix, delta, PHANDLE);
    KidsRefused(UpdateAttrs(tree, fix, delta).value, fix, delta);
  }

  lemma {:induction false} KidsRefused(tree: Tree, fix: Tree, delta: u32)
    requires delta > 0 && SubsRaised(tree, delta) && SubsRaised(fix, delta) && UpdateKids(tree, fix, delta).Some?
    ensures SubsUnlisted(fix)
    decreases fix, 0
  {
    hide UpdateRefs, PhandlesOf, Raised, NoneListed;
    match fix
    case Nil =>
    case Attr(_, _, r) => KidsRefused(tree, r, delta);
    case Sub(n, b, r) =>
      var x := GetChild(tree, n).value;
      var c := UpdateRefs(x, b, delta).value;
      KidRaised(tree, n, delta);
      PhandleRefused(x, b, delta);
      RefsKept(x, b, delta);
      SamePhandle(x, c);
      KidReplaced(tree, n, c, delta);
      KidsRefused(ReplaceChild(tree, n, c), r, delta);
  }

  /**
   A list that was not shifted with the overlay would move the phandle once more: the node's
   1 becomes 1 + 2 * delta, and a reference to it 1 + delta.
   */
  lemma PhandleTwice(delta: u32)
    requires 1 + 2 * delta < NO_PHANDLE
    ensures var f, fix := Attr(PHANDLE, Enc32(1), Nil), Attr(PHANDLE, Enc32(0), Nil);
            var g := ShiftNode(f, delta);
      && g.Did? && PhandleIn(g.value) == 1 + delta
      && var h := UpdateRefs(g.value, fix, delta); h.Some? && PhandleIn(h.value) == 1 + 2 * delta
  {
    hide Be32, Enc32, Bumped, BumpAll, ShiftNode;
    var fix, g, h := Attr(PHANDLE, Enc32(0), Nil), Attr(PHANDLE, Enc32(1 + delta), Nil), Attr(PHANDLE, Enc32(1 + 2 * delta), Nil);
    PhandleShifted(1, delta);
    DecodeEncode32(1 + delta);
    DecodeEncode32(1 + 2 * delta);
    OneCell(1 + delta, delta);
    assert UpdateAttrs(g, fix, delta) == UpdateAttrs(h, Nil, delta) == Some(h);
    assert UpdateKids(h, fix, delta) == UpdateKids(h, Nil, delta) == Some(h);
  }

  lemma PhandleShifted(v: u32, delta: u32)
    requires v + delta < NO_PHANDLE
    ensures ShiftNode(Attr(PHANDLE, Enc32(v), Nil), delta) == Did(Attr(PHANDLE, Enc32(v + delta), Nil))
  {
    DecodeEncode32(v);
    hide Be32, Enc32;
    TwoNames();
    var f := Attr(PHANDLE, Enc32(v), Nil);
    var g := Attr(PHANDLE, Enc32(v + delta), Nil);
    assert ShiftSubs(f, delta) == Did(f);
    assert ShiftAttr(f, PHANDLE, delta) == Did(g);
    assert GetAttr(Nil, LINUX_PHANDLE) == None && GetAttr(f, LINUX_PHANDLE) == None && GetAttr(g, LINUX_PHANDLE) == None;
    assert ShiftAttr(f, LINUX_PHANDLE, delta) == Did(f) && ShiftAttr(g, LINUX_PHANDLE, delta) == Did(g);
  }

  // ---------- Nothing to shift ----------

  lemma EncodeDecode32(w: bytes)
    requires |w| == 4
    ensures Enc32(Be32(w)) == w
  {
    var v := Be32(w);
    assert v / 0x100 == (w[0] as int * 0x100 + w[1]) * 0x100 + w[2];
    assert v / 0x100 / 0x100 == w[0] as int * 0x100 + w[1];
  }

  lemma {:induction false} BumpNothing(val: bytes, fix: bytes, i: nat)
    requires BumpAll(val, fix, i, 0).Some?
    ensures BumpAll(val, fix, i, 0) == Some(val)
    decreases |fix| - 4 * i
  {
    hide Be32, Enc32, Cell;
    if 4 * i + 4 <= |fix| {
      var p := Cell(fix, i);
      EncodeDecode32(val[p..p + 4]);
      assert Bumped(val, p, 0) == val[..p] + val[p..p + 4] + val[p + 4..] == val;
      BumpNothing(val, fix, i + 1);
    }
  }

  lemma {:induction false} AttrsNothing(tree: Tree, fix: Tree)
    requires UpdateAttrs(tree, fix, 0).Some?
    ensures UpdateAttrs(tree, fix, 0) == Some(tree)
    decreases fix
  {
    hide BumpAll;
    match fix
    case Attr(n, places, r) =>
      BumpNothing(GetAttr(tree, n).value, places, 0);
      ReplacedTwice(tree, n, GetAttr(tree, n).value, []);
      AttrsNothing(tree, r);
    case _ =>
  }

  lemma {:induction false} RefsNothing(tree: Tree, fix: Tree)
    requires UpdateRefs(tree, fix, 0).Some?
    ensures UpdateRefs(tree, fix, 0) == Some(tree)
    decreases fix, 1
  {
    hide UpdateAttrs, UpdateKids;
    AttrsNothing(tree, fix);
    KidsNothing(tree, fix);
  }

  lemma {:induction false} KidsNothing(tree: Tree, fix: Tree)
    requires UpdateKids(tree, fix, 0).Some?
    ensures UpdateKids(tree, fix, 0) == Some(tree)
    decreases fix, 0
  {
    hide UpdateRefs;
    match fix
    case Nil =>
    case Attr(_, _, r) => KidsNothing(tree, r);
    case Sub(n, b, r) =>
      RefsNothing(GetChild(tree, n).value, b);
      ReplacedSame(tree, n);
      KidsNothing(tree, r);
  }

  lemma ShiftAttrNothing(f: Tree, name: bytes)
    requires ShiftAttr(f, name, 0).Did?
    ensures ShiftAttr(f, name, 0) == Did(f)
  {
    hide Be32, Enc32;
    var v := GetAttr(f, name);
    if v.Some? {
      EncodeDecode32(v.value);
      ReplacedTwice(f, name, v.value, []);
    }
  }

  lemma {:induction false} ShiftNothing(f: Tree)
    ensures ShiftNode(f, 0).Did? ==> ShiftNode(f, 0) == Did(f)
    ensures ShiftSubs(f, 0).Did? ==> ShiftSubs(f, 0) == Did(f)
    decreases f
  {
    hide ShiftAttr;
    match f {
      case Nil =>
      case Attr(_, _, r) => ShiftNothing(r);
      case Sub(_, b, r) => ShiftNothing(b); ShiftNothing(r);
    }
    if ShiftNode(f, 0).Did? {
      ShiftAttrNothing(f, PHANDLE);
      ShiftAttrNothing(f, LINUX_PHANDLE);
    }
  }

  // ---------- What the shift leaves alone ----------

  /** A tree that was shifted: its children were, and its other properties are the same. */
  ghost predicate IsShifted(f: Tree, g: Tree, delta: u32) {
    && Order(g) == Order(f)
    && (forall n {:trigger GetAttr(g, n)} :: GetAttr(g, n).Some? == GetAttr(f, n).Some? && (!Handle(n) ==> GetAttr(g, n) == GetAttr(f, n)))
    && (forall n {:trigger Once(g, n)} :: Once(g, n) == Once(f, n))
    && forall n {:trigger Own(g, n)} :: ShiftNode(Own(f, n), delta) == Did(Own(g, n))
  }

  /** A child and what the shift made of it, or none. */
  predicate BothShifted(x: Option<Tree>, y: Option<Tree>, delta: u32) {
    x.Some? == y.Some? && (x.Some? ==> ShiftNode(x.value, delta) == Did(y.value))
  }

  lemma {:induction false} OnceReplaced(f: Tree, name: bytes, v: bytes, n: bytes)
    ensures Once(ReplaceAttr(f, name, v), n) == Once(f, n)
    ensures GetAttr(ReplaceAttr(f, name, v), n).Some? == GetAttr(f, n).Some?
    decreases f
  {
    if f.Attr? {
      OnceReplaced(f.rest, name, v, n);
    }
  }

  lemma AttrShifted(f: Tree, name: bytes, delta: u32)
    requires ShiftAttr(f, name, delta).Did?
    ensures var g := ShiftAttr(f, name, delta).value;
      && Order(g) == Order(f) && (forall q :: Own(g, q) == Own(f, q)) && (forall n :: n != name ==> GetAttr(g, n) == GetAttr(f, n))
      && GetAttr(g, name).Some? == GetAttr(f, name).Some?
      && (forall n :: Once(g, n) == Once(f, n)) && SubsRaised(g, delta) == SubsRaised(f, delta) && Lifted(GetAttr(g, name), delta)
      && SubsUnlisted(g) == SubsUnlisted(f)
      && forall q {:trigger GetChild(g, q)} :: GetChild(g, q) == GetChild(f, q)
  {
    hide Be32, Enc32, Order, Own, Once, SubsRaised, SubsUnlisted, GetAttr, GetChild;
    ShiftedAttr(f, name, delta);
    var val := GetAttr(f, name);
    if val.Some? {
      var w := Be32(val.value) + delta;
      DecodeEncode32(w);
      OrderOfReplaced(f, name, Enc32(w));
      SubsBeside(f, name, Enc32(w), delta);
      UnlistedBeside(f, name, Enc32(w));
      forall n
        ensures Once(ReplaceAttr(f, name, Enc32(w)), n) == Once(f, n)
      {
        OnceReplaced(f, name, Enc32(w), n);
      }
      forall n
        ensures GetChild(ReplaceAttr(f, name, Enc32(w)), n) == GetChild(f, n)
      {
        ChildBesideAttr(f, name, Enc32(w), n);
      }
    }
  }

  lemma {:induction false} ChildBesideAttr(f: Tree, name: bytes, v: bytes, n: bytes)
    ensures GetChild(ReplaceAttr(f, name, v), n) == GetChild(f, n)
    decreases f
  {
    hide Matches;
    if f.Attr? {
      ChildBesideAttr(f.rest, name, v, n);
    }
  }

  lemma ShiftOfNil(delta: u32)
    ensures ShiftNode(Nil, delta) == Did(Nil)
  {
  }

  lemma {:induction false} SubsShifted(f: Tree, delta: u32, q: bytes)
    requires ShiftSubs(f, delta).Did?
    ensures var g := ShiftSubs(f, delta).value;
      && Order(g) == Order(f) && ShiftNode(Own(f, q), delta) == Did(Own(g, q)) && Once(g, q) == Once(f, q)
      && BothShifted(GetChild(f, q), GetChild(g, q), delta)
    decreases f
  {
    hide ShiftNode, Matches;
    match f
    case Nil => ShiftOfNil(delta);
    case Attr(_, _, r) => SubsShifted(r, delta, q);
    case Sub(n, b, r) => SubsShifted(r, delta, q);
  }

  /** The node itself: both properties behind the children. */
  lemma NodeShifted(f: Tree, delta: u32)
    requires ShiftNode(f, delta).Did?
    ensures IsShifted(f, ShiftNode(f, delta).value, delta)
    ensures forall q :: BothShifted(GetChild(f, q), GetChild(ShiftNode(f, delta).value, q), delta)
    ensures var g, h := ShiftSubs(f, delta), ShiftNode(f, delta).value;
            g.Did? && (SubsRaised(g.value, delta) ==> Raised(h, delta)) && SubsUnlisted(h) == SubsUnlisted(g.value)
  {
    hide ShiftAttr, ShiftSubs, GetAttr, Order, Own, Once, SubsRaised, SubsUnlisted, GetChild, Lifted;
    var g := ShiftSubs(f, delta).value;
    SameShift(f, g, delta);
    var h := ShiftAttr(g, PHANDLE, delta).value;
    AttrShifted(g, PHANDLE, delta);
    AttrShifted(h, LINUX_PHANDLE, delta);
    TwoNames();
    SubsShifted(f, delta, []);
    forall q
      ensures ShiftNode(Own(f, q), delta) == Did(Own(g, q)) && Once(g, q) == Once(f, q)
      ensures BothShifted(GetChild(f, q), GetChild(g, q), delta)
    {
      SubsShifted(f, delta, q);
    }
  }

  /** All phandles of a shifted tree lie above the shift. */
  lemma {:induction false} ShiftedRaised(f: Tree, delta: u32)
    ensures ShiftNode(f, delta).Did? ==> Raised(ShiftNode(f, delta).value, delta)
    ensures ShiftSubs(f, delta).Did? ==> SubsRaised(ShiftSubs(f, delta).value, delta)
    decreases f
  {
    hide ShiftNode, Raised;
    match f {
      case Nil =>
      case Attr(_, _, r) => ShiftedRaised(r, delta);
      case Sub(_, b, r) => ShiftedRaised(b, delta); ShiftedRaised(r, delta);
    }
    if ShiftNode(f, delta).Did? {
      NodeShifted(f, delta);
    }
  }

  /** The shift adds no list and takes none away. */
  lemma {:induction false} UnlistedShifted(f: Tree, delta: u32)
    ensures ShiftNode(f, delta).Did? ==> NoneListed(ShiftNode(f, delta).value) == NoneListed(f)
    ensures ShiftSubs(f, delta).Did? ==> SubsUnlisted(ShiftSubs(f, delta).value) == SubsUnlisted(f)
    decreases f
  {
    hide ShiftNode, GetAttr;
    match f {
      case Nil =>
      case Attr(_, _, r) => UnlistedShifted(r, delta);
      case Sub(_, b, r) => UnlistedShifted(b, delta); UnlistedShifted(r, delta);
    }
    hide SubsUnlisted, ShiftSubs;
    if ShiftNode(f, delta).Did? {
      NodeShifted(f, delta);
      var g := ShiftNode(f, delta).value;
      assert GetAttr(g, PHANDLE).Some? == GetAttr(f, PHANDLE).Some? && GetAttr(g, LINUX_PHANDLE).Some? == GetAttr(f, LINUX_PHANDLE).Some?;
    }
  }

  /** At every path the properties but the phandles are the same, and so are the names. */
  lemma {:induction false} ShiftedAt(f: Tree, g: Tree, delta: u32, path: seq<bytes>, name: bytes)
    requires ShiftNode(f, delta) == Did(g)
    ensures GetAttr(At(g, path), name).Some? == GetAttr(At(f, path), name).Some?
    ensures !Handle(name) ==> GetAttr(At(g, path), name) == GetAttr(At(f, path), name)
    decreases |path|
  {
    hide ShiftNode, GetAttr, Own, Handle;
    NodeShifted(f, delta);
    if path != [] {
      ShiftedAt(Own(f, path[0]), Own(g, path[0]), delta, path[1..], name);
    }
  }

  lemma {:induction false} ShiftedListed(f: Tree, fix: Tree, g: Tree, gix: Tree, delta: u32, path: seq<bytes>, name: bytes)
    requires ShiftNode(f, delta) == Did(g) && ShiftNode(fix, delta) == Did(gix)
    ensures Listed(g, gix, path, name) == Listed(f, fix, path, name)
    decreases |path|
  {
    hide ShiftNode, GetAttr, Own, Once, Sole, Order;
    NodeShifted(f, delta);
    NodeShifted(fix, delta);
    if path != [] {
      var q := path[0];
      ShiftedListed(Own(f, q), Own(fix, q), Own(g, q), Own(gix, q), delta, path[1..], name);
    }
  }

  lemma {:induction false} UnlistedAt(fix: Tree, path: seq<bytes>)
    requires NoneListed(fix)
    ensures NoneListed(At(fix, path))
    decreases |path|
  {
    hide NoneListed;
    if path != [] {
      UnlistedOwn(fix, path[0]);
      UnlistedAt(Own(fix, path[0]), path[1..]);
    }
  }

  lemma UnlistedOwn(fix: Tree, q: bytes)
    requires NoneListed(fix)
    ensures NoneListed(Own(fix, q))
  {
    UnlistedSub(fix, q);
  }

  lemma {:induction false} UnlistedSub(fix: Tree, q: bytes)
    requires SubsUnlisted(fix)
    ensures NoneListed(Own(fix, q))
    decreases fix
  {
    match fix
    case Nil =>
    case Attr(_, _, r) => UnlistedSub(r, q);
    case Sub(_, _, r) => UnlistedSub(r, q);
  }

  // ---------- References follow ----------

  /** The overlay `f` was shifted to `g`, and its references then updated to `h` from the shifted lists. */
  ghost predicate Renumbered(f: Tree, g: Tree, h: Tree, delta: u32) {
    && ShiftNode(f, delta) == Did(g)
    && match GetChild(g, LOCAL_FIXUPS)
       case None => h == g
       case Some(fix) => UpdateRefs(g, fix, delta) == Some(h)
  }

  /** Where something was shifted, no list is for a phandle; else nothing changed. */
  lemma RenumberedLists(f: Tree, g: Tree, h: Tree, delta: u32)
    requires Renumbered(f, g, h, delta)
    ensures GetChild(f, LOCAL_FIXUPS).Some? == GetChild(g, LOCAL_FIXUPS).Some?
    ensures delta == 0 ==> g == f && h == f
    ensures delta > 0 && GetChild(g, LOCAL_FIXUPS).Some? ==>
              NoneListed(GetChild(g, LOCAL_FIXUPS).value) && NoneListed(GetChild(f, LOCAL_FIXUPS).value)
  {
    hide ShiftNode, UpdateRefs, NoneListed, Raised, GetChild;
    if delta == 0 {
      ShiftNothing(f);
    }
    var fix := GetChild(g, LOCAL_FIXUPS);
    NodeShifted(f, delta);
    assert BothShifted(GetChild(f, LOCAL_FIXUPS), fix, delta);
    if fix.Some? {
      if delta == 0 {
        RefsNothing(g, fix.value);
      } else {
        ShiftedRaised(f, delta);
        assert SubsRaised(g, delta) by { RaisedSubs(g, delta); }
        KidRaised(g, LOCAL_FIXUPS, delta);
        PhandleRefused(g, fix.value, delta);
        UnlistedShifted(GetChild(f, LOCAL_FIXUPS).value, delta);
      }
    }
  }

  lemma RaisedSubs(f: Tree, delta: u32)
    requires Raised(f, delta)
    ensures SubsRaised(f, delta)
  {
  }

  /** Every phandle of the overlay has moved by `delta`, and the update of the references has moved none. */
  lemma PhandlesFollow(f: Tree, g: Tree, h: Tree, delta: u32)
    requires Renumbered(f, g, h, delta)
    ensures AllMoved(AllPhandles(f), AllPhandles(h), delta)
  {
    hide ShiftNode, ShiftSubs, UpdateRefs, NoneListed, PhandlesOf, AllMoved, Moved, GetChild, PhandleIn, GetAttr;
    RenumberedLists(f, g, h, delta);
    ShiftedNode(f, delta);
    ShiftedAll(f, delta);
    var fix := GetChild(g, LOCAL_FIXUPS);
    if delta > 0 && fix.Some? {
      RefsKept(g, fix.value, delta);
      SamePhandle(g, h);
    }
    MovedCons(PhandleIn(f), PhandleIn(h), PhandlesOf(f), PhandlesOf(h), delta);
  }

  /**
   Each word that the overlay lists as a reference has grown by `delta`. The lists meant are
   those of the overlay as it came, before the shift.
   */
  lemma WordsFollow(f: Tree, g: Tree, h: Tree, delta: u32, path: seq<bytes>, name: bytes, j: nat)
    requires Renumbered(f, g, h, delta) && GetChild(f, LOCAL_FIXUPS).Some?
    requires var fix := GetChild(f, LOCAL_FIXUPS).value;
      && Listed(f, fix, path, name)
      && var places := GetAttr(At(fix, path), name);
         places.Some? && Apart(places.value) && 4 * j + 4 <= |places.value|
    ensures var p := Cell(GetAttr(At(GetChild(f, LOCAL_FIXUPS).value, path), name).value, j);
            var v, w := GetAttr(At(f, path), name), GetAttr(At(h, path), name);
      && v.Some? && w.Some? && p + 4 <= |v.value| == |w.value|
      && U32(w.value, p) == Wrap(U32(v.value, p) + delta)
  {
    hide ShiftNode, UpdateRefs, NoneListed, GetAttr, At, Listed, Apart, Cell, Be32, BumpAll, GetChild;
    RenumberedLists(f, g, h, delta);
    NodeShifted(f, delta);
    var fix, gix := GetChild(f, LOCAL_FIXUPS).value, GetChild(g, LOCAL_FIXUPS).value;
    ShiftedListed(f, fix, g, gix, delta, path, name);
    if delta > 0 {
      UnlistedAt(gix, path);
      SameListing(fix, gix, delta, path, name);
      ShiftedAt(f, g, delta, path, name);
    }
    RefsAt(g, gix, delta, path, name);
    var places := GetAttr(At(fix, path), name).value;
    BumpedRest(GetAttr(At(f, path), name).value, places, 0, delta);
  }

  lemma SameListing(fix: Tree, gix: Tree, delta: u32, path: seq<bytes>, name: bytes)
    requires ShiftNode(fix, delta) == Did(gix) && NoneListed(At(gix, path)) && GetAttr(At(fix, path), name).Some?
    ensures !Handle(name) && GetAttr(At(gix, path), name) == GetAttr(At(fix, path), name)
  {
    hide ShiftNode, GetAttr, At, SubsUnlisted;
    ShiftedAt(fix, gix, delta, path, name);
  }
}
