/**
 Reference integrity of overlays (fdt_overlay.c): after the shift and the update of the local
 references, each of these still names the node it named.
 */
module LocalReferences {
  import opened Options
  import opened Bytes
  import opened Structure
  import opened Blob
  import opened Walk
  import opened Read
  import opened Meaning
  import opened Merging
  import opened Core
  import opened Edit
  import opened Nodes
  import opened InPlace
  import opened Paths
  import opened Shapes
  import opened Phandles
  import opened References
  import opened Renumbering
  import opened Fixups

  // ---------- Lists that do not change while they are used ----------

  /** The node at `tp` is not the one the lists are in, and not inside it. */
  predicate Elsewhere(tp: seq<nat>, fp: seq<nat>) {
    fp != [] && (tp == [] || tp[0] != fp[0])
  }

  /** No child of the lists has a name to which the `z`-th child of the root, the lists themselves, is the first to answer. */
  predicate Foreign(root: Tree, fix: Tree, z: nat) {
    forall i :: 0 <= i < |Order(fix)| ==> KidIndex(root, Order(fix)[i]) != Some(z)
  }

  lemma ListsStay(root: Tree, tp: seq<nat>, g: Tree, fp: seq<nat>)
    requires HasPos(root, tp) && Elsewhere(tp, fp) && (tp == [] ==> SameBut(root, g, -1))
    ensures TreeAt(Plant(root, tp, g), fp) == TreeAt(root, fp) && (HasPos(root, fp) ==> HasPos(Plant(root, tp, g), fp))
    ensures Order(Plant(root, tp, g)) == Order(root)
  {
    hide Order, Pick, PutKid;
    if tp == [] {
      KidsApart(root, g, fp, -1);
    } else {
      PlantedApart(root, tp, g, fp);
    }
  }

  lemma SameReplaced(f: Tree, name: bytes, v: bytes)
    ensures SameBut(f, ReplaceAttr(f, name, v), -1)
  {
    OrderOfReplaced(f, name, v);
    forall k: nat
      ensures Pick(ReplaceAttr(f, name, v), k) == Pick(f, k)
    {
      PickBeside(f, name, v, k);
    }
  }

  lemma {:induction false} SameUpdated(tree: Tree, fix: Tree, delta: u32)
    requires UpdateAttrs(tree, fix, delta).Some?
    ensures SameBut(tree, UpdateAttrs(tree, fix, delta).value, -1)
    decreases fix
  {
    hide BumpAll, Pick, Order;
    match fix
    case Attr(n, places, r) =>
      var v := BumpAll(GetAttr(tree, n).value, places, 0, delta).value;
      SameReplaced(tree, n, v);
      SameUpdated(ReplaceAttr(tree, n, v), r, delta);
    case _ =>
  }

  /** One list, read from the tree that it changes, does what it does as it stood. */
  lemma {:induction false} CellsApart(root: Tree, tp: seq<nat>, fp: seq<nat>, j: nat, name: bytes, val: bytes, list: bytes, i: nat, n: nat, delta: u32)
    requires Elsewhere(tp, fp) && HasPos(root, tp) && GetAttr(TreeAt(root, tp), name) == Some(val)
    requires list == ListAt(root, fp, j) && |list| == 4 * n && i <= n
    ensures var x, y := LiveCells(root, tp, fp, j, name, i, n, delta), BumpAll(val, list, i, delta);
            if y.Some? then x == Finished(Plant(root, tp, ReplaceAttr(TreeAt(root, tp), name, y.value))) else !x.Finished?
    decreases n - i
  {
    hide Bumped, Cell, Plant, TreeAt, HasPos, Onward, ReplaceAttr, GetAttr;
    var node := TreeAt(root, tp);
    if i == n {
      ReplacedTwice(node, name, val, val);
      PlantedHere(root, tp, node, node);
    } else {
      var p := Word(list, i);
      if p + 4 <= |val| {
        var v := Bumped(val, p, delta);
        var next := ReplaceAttr(node, name, v);
        PlantedHere(root, tp, next, Nil);
        GetReplaced(node, name, v, name);
        SameReplaced(node, name, v);
        if tp == [] {
          RootAt(root);
        }
        ListsStay(root, tp, next, fp);
        CellsApart(Plant(root, tp, next), tp, fp, j, name, v, list, i + 1, n, delta);
        var y := BumpAll(v, list, i + 1, delta);
        if y.Some? {
          PlantedHere(root, tp, next, ReplaceAttr(next, name, y.value));
          ReplacedTwice(node, name, v, y.value);
        }
      }
    }
  }

  lemma RootAt(root: Tree)
    ensures TreeAt(root, []) == root
  {
  }

  lemma {:induction false} AttrsApart(root: Tree, tp: seq<nat>, fp: seq<nat>, rest: Tree, j: nat, delta: u32)
    requires Elsewhere(tp, fp) && HasPos(root, tp) && rest == Onward(TreeAt(root, fp), j)
    ensures var x, y := LiveAttrs(root, tp, fp, rest, j, delta), UpdateAttrs(TreeAt(root, tp), rest, delta);
            if y.Some? then x == Finished(Plant(root, tp, y.value)) else !x.Finished?
    decreases rest
  {
    hide LiveCells, BumpAll, Plant, TreeAt, HasPos, ReplaceAttr, GetAttr, Onward;
    var node := TreeAt(root, tp);
    match rest
    case Attr(n, places, r) =>
      var val := GetAttr(node, n);
      if |places| % 4 == 0 && val.Some? {
        CellsApart(root, tp, fp, j, n, val.value, places, 0, |places| / 4, delta);
        var y := BumpAll(val.value, places, 0, delta);
        if y.Some? {
          var next := ReplaceAttr(node, n, y.value);
          SameReplaced(node, n, y.value);
          if tp == [] {
            RootAt(root);
          }
          ListsStay(root, tp, next, fp);
          PlantedHere(root, tp, next, Nil);
          OnwardNext(TreeAt(root, fp), j);
          AttrsApart(Plant(root, tp, next), tp, fp, r, j + 1, delta);
          var z := UpdateAttrs(next, r, delta);
          if z.Some? {
            PlantedHere(root, tp, next, z.value);
          }
        }
      }
    case _ =>
      PlantedHere(root, tp, node, node);
  }

  lemma {:induction false} UpdateSkips(tree: Tree, fix: Tree, delta: u32)
    ensures UpdateKids(tree, fix, delta) == UpdateKids(tree, Later(fix, 0), delta)
    decreases fix
  {
    hide UpdateRefs;
    if fix.Attr? {
      UpdateSkips(tree, fix.rest, delta);
    }
  }

  lemma {:induction false} LaterIs(f: Tree, k: nat)
    ensures !Later(f, k).Attr?
    ensures Later(f, k).Sub? ==> k < |Order(f)| && Pick(f, k) == Later(f, k).body && Later(f, k).name == Order(f)[k]
    decreases f
  {
    match f
    case Nil =>
    case Attr(_, _, r) => LaterIs(r, k);
    case Sub(_, _, r) =>
      if k > 0 {
        LaterIs(r, k - 1);
      }
  }

  lemma {:induction false} KidsUpdateApart(root: Tree, tp: seq<nat>, fp: seq<nat>, rest: Tree, k: nat, delta: u32)
    requires Elsewhere(tp, fp) && HasPos(root, tp) && HasPos(root, fp) && rest == Later(TreeAt(root, fp), k)
    requires tp == [] ==> Foreign(root, TreeAt(root, fp), fp[0])
    ensures var x, y := LiveKids(root, tp, fp, rest, k, delta), UpdateKids(TreeAt(root, tp), rest, delta);
            if y.Some? then x == Finished(Plant(root, tp, y.value)) else !x.Finished?
    decreases rest, 0
  {
    hide Live, UpdateRefs, Plant, TreeAt, HasPos, Order, Pick, PutKid, ReplaceChild, GetChild, Later, KidIndex;
    var node := TreeAt(root, tp);
    LaterIs(TreeAt(root, fp), k);
    match rest
    case Nil => PlantedHere(root, tp, node, node);
    case Sub(n, b, r) =>
      var q := KidIndex(node, n);
      IndexIs(node, n, Nil);
      if q.Some? {
        Below(root, tp, q.value);
        Below(root, fp, k);
        if tp == [] {
          RootAt(root);
        }
        LiveApart(root, tp + [q.value], fp + [k], b, delta);
        var c := UpdateRefs(Pick(node, q.value), b, delta);
        if c.Some? {
          var next := PutKid(node, q.value, c.value);
          IndexIs(node, n, c.value);
          Planted(root, tp, q.value, c.value);
          PlantedHere(root, tp, next, Nil);
          PlantedApart(root, tp + [q.value], c.value, fp);
          var root' := Plant(root, tp, next);
          LaterNext(TreeAt(root, fp), k);
          LiveSkips(root', tp, fp, r, k + 1, delta);
          UpdateSkips(next, r, delta);
          SmallerLater(r);
          if tp == [] {
            ForeignStays(root, root', TreeAt(root, fp), fp[0]);
          }
          KidsUpdateApart(root', tp, fp, Later(r, 0), k + 1, delta);
          var y := UpdateKids(next, Later(r, 0), delta);
          if y.Some? {
            PlantedHere(root, tp, next, y.value);
          }
        }
      }
  }

  lemma {:induction false} SmallerLater(f: Tree)
    ensures Later(f, 0) == f || (f decreases to Later(f, 0))
    decreases f
  {
    if f.Attr? {
      SmallerLater(f.rest);
    }
  }

  lemma Below(root: Tree, pos: seq<nat>, k: nat)
    requires HasPos(root, pos) && k < |Order(TreeAt(root, pos))|
    ensures HasPos(root, pos + [k]) && TreeAt(root, pos + [k]) == Pick(TreeAt(root, pos), k)
  {
    Extended(pos, k);
  }

  lemma Planted(root: Tree, pos: seq<nat>, k: nat, g: Tree)
    ensures Plant(root, pos + [k], g) == Plant(root, pos, PutKid(TreeAt(root, pos), k, g))
  {
    Extended(pos, k);
  }

  lemma ForeignStays(root: Tree, root': Tree, fix: Tree, z: nat)
    requires Foreign(root, fix, z) && Order(root') == Order(root)
    ensures Foreign(root', fix, z)
  {
    hide Order, KidIndex;
    forall i | 0 <= i < |Order(fix)|
      ensures KidIndex(root', Order(fix)[i]) != Some(z)
    {
      IndexOfNames(root, root', Order(fix)[i]);
    }
  }

  /** The update reads each list as it stood at the start. */
  lemma {:induction false} LiveApart(root: Tree, tp: seq<nat>, fp: seq<nat>, fix: Tree, delta: u32)
    requires Elsewhere(tp, fp) && HasPos(root, tp) && HasPos(root, fp) && fix == TreeAt(root, fp)
    requires tp == [] ==> Foreign(root, fix, fp[0])
    ensures var x, y := Live(root, tp, fp, fix, delta), UpdateRefs(TreeAt(root, tp), fix, delta);
            if y.Some? then x == Finished(Plant(root, tp, y.value)) else !x.Finished?
    decreases fix, 1
  {
    hide LiveAttrs, LiveKids, UpdateAttrs, UpdateKids, Plant, TreeAt, HasPos, Order, Later;
    var node := TreeAt(root, tp);
    AttrsApart(root, tp, fp, fix, 0, delta) by { NoneSkipped(fix); }
    var g := UpdateAttrs(node, fix, delta);
    if g.Some? {
      SameUpdated(node, fix, delta);
      if tp == [] {
        RootAt(root);
      }
      ListsStay(root, tp, g.value, fp);
      PlantedHere(root, tp, g.value, Nil);
      var root' := Plant(root, tp, g.value);
      LiveSkips(root', tp, fp, fix, 0, delta);
      UpdateSkips(g.value, fix, delta);
      SmallerLater(fix);
      if tp == [] {
        ForeignStays(root, root', fix, fp[0]);
      }
      KidsUpdateApart(root', tp, fp, Later(fix, 0), 0, delta);
      var y := UpdateKids(g.value, Later(fix, 0), delta);
      if y.Some? {
        PlantedHere(root, tp, g.value, y.value);
      }
    }
  }

  lemma NoneSkipped(f: Tree)
    ensures Onward(f, 0) == f
  {
  }

  /** The lists of the overlay do not list themselves. */
  predicate ForeignLists(root: Tree) {
    var z := KidIndex(root, LOCAL_FIXUPS);
    z.Some? ==> Foreign(root, Pick(root, z.value), z.value)
  }

  /** Then the code does what the lists say as they stand, and fails exactly when one of them does not fit. */
  lemma ListsAreRead(root: Tree, delta: u32)
    requires ForeignLists(root)
    ensures var x, fix := UpdateLocal(root, delta), GetChild(root, LOCAL_FIXUPS);
      && (fix.None? ==> x == Finished(root))
      && (fix.Some? ==>
           var y := UpdateRefs(root, fix.value, delta);
           if y.Some? then x == Finished(y.value) else !x.Finished?)
  {
    hide Live, UpdateRefs, Pick, KidIndex, GetChild, Order;
    var z := KidIndex(root, LOCAL_FIXUPS);
    IndexIs(root, LOCAL_FIXUPS, Nil);
    if z.Some? {
      Below(root, [], z.value) by { RootAt(root); }
      RootAt(root);
      assert [] + [z.value] == [z.value];
      LiveApart(root, [], [z.value], Pick(root, z.value), delta);
    }
  }

  // ---------- Lists that list themselves ----------

  const A: bytes := [0x61]
  const R: bytes := [0x72]

  function List(v: u32): Tree {
    Sub(A, Attr(R, Enc32(v), Nil), Nil)
  }

  /** `/ { a { r = <1>; }; __local_fixups__ { __local_fixups__ { a { r = <v>; }; }; a { r = <w>; }; }; }` */
  function Selfish(v: u32, w: u32): Tree {
    Sub(A, Attr(R, Enc32(1), Nil), Sub(LOCAL_FIXUPS, Sub(LOCAL_FIXUPS, List(v), List(w)), Nil))
  }

  lemma Names()
    ensures Matches(A, A) && Matches(LOCAL_FIXUPS, LOCAL_FIXUPS) && !Matches(LOCAL_FIXUPS, A) && !Matches(A, LOCAL_FIXUPS)
  {
    assert LOCAL_FIXUPS[..1][0] != A[0];
  }

  lemma OneWord(p: u32)
    ensures Word(Enc32(p), 0) == p
  {
    hide Enc32, Be32;
    DecodeEncode32(p);
    assert Enc32(p)[0..4] == Enc32(p);
  }

  lemma SelfishParts(v: u32, w: u32, x: u32)
    ensures var f, list := Selfish(v, w), Attr(R, Enc32(w), Nil);
      && TreeAt(f, []) == f && TreeAt(f, [0]) == Attr(R, Enc32(1), Nil) && TreeAt(f, [1]) == Sub(LOCAL_FIXUPS, List(v), List(w))
      && TreeAt(f, [1, 0]) == List(v) && TreeAt(f, [1, 1]) == list && TreeAt(f, [1, 0, 0]) == Attr(R, Enc32(v), Nil)
      && Plant(f, [1, 1], Attr(R, Enc32(x), Nil)) == Selfish(v, x)
      && KidIndex(f, LOCAL_FIXUPS) == Some(1) && KidIndex(f, A) == Some(0) && KidIndex(TreeAt(f, [1]), A) == Some(1)
  {
    hide Enc32, Matches;
    Names();
    var f, one: seq<nat> := Selfish(v, w), [1];
    assert [0][..0] == [] && one[..0] == [];
    assert TreeAt(f, one) == Pick(f, 1) == Sub(LOCAL_FIXUPS, List(v), List(w));
    Below1(f, 0);
    Below1(f, 1);
    assert KidIndex(f, A) == Some(0);
    assert KidIndex(TreeAt(f, one), A) == Some(1);
    var x1 := Attr(R, Enc32(x), Nil);
    assert PutKid(TreeAt(f, one), 1, x1) == Sub(LOCAL_FIXUPS, List(v), List(x));
    assert Plant(f, [1, 1], x1) == Plant(f, [1], Sub(LOCAL_FIXUPS, List(v), List(x))) by { assert [1, 1][..1] == one; }
    assert Plant(f, [1], Sub(LOCAL_FIXUPS, List(v), List(x))) == PutKid(f, 1, Sub(LOCAL_FIXUPS, List(v), List(x)));
  }

  lemma Below1(f: Tree, k: nat)
    ensures TreeAt(f, [1, k]) == Pick(TreeAt(f, [1]), k) && TreeAt(f, [1, k, 0]) == Pick(TreeAt(f, [1, k]), 0)
  {
    hide Pick;
    var two, three: seq<nat> := [1, k], [1, k, 0];
    assert two[..1] == [1] && three[..2] == two;
  }

  /** The first list is used on the second. */
  lemma FirstUse(delta: u32)
    ensures Live(Selfish(0, 0), [1], [1, 0], List(0), delta) == Finished(Selfish(0, delta))
  {
    hide Enc32, Selfish, TreeAt, Plant, KidIndex, Matches;
    var f, list := Selfish(0, 0), Attr(R, Enc32(0), Nil);
    SelfishParts(0, 0, delta);
    assert [1] + [1] == [1, 1] && [1, 0] + [0] == [1, 0, 0];
    ListUsed(delta);
    hide Live;
    assert LiveChild(f, [1], [1, 0], A, list, 0, delta) == Finished(Selfish(0, delta));
    assert LiveKids(f, [1], [1, 0], List(0), 0, delta) == Finished(Selfish(0, delta));
    NoLists(f, [1], [1, 0], List(0), delta);
    OneLive(f, [1], [1, 0], List(0), delta);
  }

  lemma ListUsed(delta: u32)
    ensures Live(Selfish(0, 0), [1, 1], [1, 0, 0], Attr(R, Enc32(0), Nil), delta) == Finished(Selfish(0, delta))
  {
    hide Enc32, Selfish, TreeAt, Plant, KidIndex, Matches;
    var f := Selfish(0, 0);
    SelfishParts(0, 0, delta);
    OneCell(0, delta);
    OneWord(0);
    assert LiveCells(f, [1, 1], [1, 0, 0], 0, R, 0, 1, delta) == LiveCells(Selfish(0, delta), [1, 1], [1, 0, 0], 0, R, 1, 1, delta);
    OneLive(f, [1, 1], [1, 0, 0], Attr(R, Enc32(0), Nil), delta);
  }

  lemma OneLive(root: Tree, tp: seq<nat>, fp: seq<nat>, fix: Tree, delta: u32)
    ensures var x := LiveAttrs(root, tp, fp, fix, 0, delta);
            Live(root, tp, fp, fix, delta) == if x.Finished? then LiveKids(x.root, tp, fp, fix, 0, delta) else x
  {
    hide LiveAttrs, LiveKids;
  }

  /** Then the second has become a list of a place outside the value. */
  lemma SecondUse(delta: u32)
    requires delta > 0
    ensures Live(Selfish(0, delta), [0], [1, 1], Attr(R, Enc32(0), Nil), delta) == Outside([0], R, delta)
  {
    hide Enc32, Selfish, TreeAt, Plant, KidIndex, Matches;
    SelfishParts(0, delta, delta);
    OneWord(delta);
    assert LiveCells(Selfish(0, delta), [0], [1, 1], 0, R, 0, 1, delta) == Outside([0], R, delta);
  }

  /**
   The first list is for the second: by the time that the second is used its place 0 has
   become `delta`. Read as it stood it would have been the reference 1 of "a" that grew.
   */
  lemma ListsItself(delta: u32)
    requires delta > 0
    ensures var f := Selfish(0, 0);
      && UpdateLocal(f, delta) == Outside([0], R, delta)
      && GetChild(f, LOCAL_FIXUPS).Some? && !ForeignLists(f)
      && var y := UpdateRefs(f, GetChild(f, LOCAL_FIXUPS).value, delta);
         y.Some? && GetAttr(At(y.value, [A]), R) == Some(Enc32(Wrap(1 + delta)))
  {
    hide Enc32, Live, KidIndex, Matches, Bumped;
    var f := Selfish(0, 0);
    var fix := Sub(LOCAL_FIXUPS, List(0), List(0));
    SelfishParts(0, 0, delta);
    SelfishParts(0, delta, delta);
    FirstUse(delta);
    SecondUse(delta);
    assert [] + [1] == [1] && [1] + [0] == [1, 0] && [] + [0] == [0] && [1] + [1] == [1, 1];
    LiveSteps(f, delta);
    assert Order(fix)[0] == LOCAL_FIXUPS;
    UpdateSteps(delta);
  }

  lemma LiveSteps(f: Tree, delta: u32)
    requires f == Selfish(0, 0) && delta > 0
    ensures UpdateLocal(f, delta) == Outside([0], R, delta)
  {
    hide Enc32, KidIndex, Matches, TreeAt, LiveAttrs;
    var fix := Sub(LOCAL_FIXUPS, List(0), List(0));
    SelfishParts(0, 0, delta);
    SelfishParts(0, delta, delta);
    FirstUse(delta);
    SecondUse(delta);
    assert [] + [1] == [1] && [1] + [0] == [1, 0] && [] + [0] == [0] && [1] + [1] == [1, 1];
    assert LiveAttrs(f, [], [1], fix, 0, delta) == Finished(f) by { NoLists(f, [], [1], fix, delta); }
    assert LiveChild(f, [], [1], LOCAL_FIXUPS, List(0), 0, delta) == Finished(Selfish(0, delta));
    assert LiveChild(Selfish(0, delta), [], [1], A, Attr(R, Enc32(0), Nil), 1, delta) == Outside([0], R, delta);
    hide Live;
    assert LiveKids(f, [], [1], fix, 0, delta) == Outside([0], R, delta);
  }

  lemma NoLists(root: Tree, tp: seq<nat>, fp: seq<nat>, fix: Tree, delta: u32)
    requires !fix.Attr?
    ensures LiveAttrs(root, tp, fp, fix, 0, delta) == Finished(root)
  {
  }

  lemma NoAttrs(delta: u32)
    ensures forall f: Tree, fix: Tree :: !fix.Attr? ==> UpdateAttrs(f, fix, delta) == Some(f)
  {
  }

  /** One child of the lists. */
  lemma KidStep(tree: Tree, n: bytes, b: Tree, r: Tree, next: Tree, delta: u32)
    requires var x := GetChild(tree, n);
      && x.Some? && UpdateRefs(x.value, b, delta).Some? && next == ReplaceChild(tree, n, UpdateRefs(x.value, b, delta).value)
    ensures UpdateKids(tree, Sub(n, b, r), delta) == UpdateKids(next, r, delta)
    ensures UpdateKids(next, Nil, delta) == Some(next)
  {
    hide UpdateRefs, GetChild, ReplaceChild;
  }

  lemma ListSays(v: u32, delta: u32)
    ensures UpdateRefs(Attr(R, Enc32(v), Nil), Attr(R, Enc32(0), Nil), delta) == Some(Attr(R, Enc32(Wrap(v + delta)), Nil))
  {
    hide Enc32, BumpAll;
    OneCell(v, delta);
    var f, list, g := Attr(R, Enc32(v), Nil), Attr(R, Enc32(0), Nil), Attr(R, Enc32(Wrap(v + delta)), Nil);
    assert UpdateAttrs(f, list, delta) == UpdateAttrs(g, Nil, delta) == Some(g);
    assert UpdateKids(g, list, delta) == UpdateKids(g, Nil, delta) == Some(g);
  }

  /** What the lists say as they stood. */
  lemma UpdateSteps(delta: u32)
    ensures var f := Selfish(0, 0);
            var y := UpdateRefs(f, Sub(LOCAL_FIXUPS, List(0), List(0)), delta);
      && GetChild(f, LOCAL_FIXUPS) == Some(Sub(LOCAL_FIXUPS, List(0), List(0)))
      && y.Some? && GetAttr(At(y.value, [A]), R) == Some(Enc32(Wrap(1 + delta)))
  {
    hide Enc32, Matches, BumpAll, Bumped;
    Names();
    ListSays(0, delta);
    ListSays(1, delta);
    hide UpdateAttrs;
    var list := Attr(R, Enc32(0), Nil);
    NoAttrs(delta);
    assert Wrap(0 + delta) == delta;
    var fix, fix' := Sub(LOCAL_FIXUPS, List(0), List(0)), Sub(LOCAL_FIXUPS, List(0), List(delta));
    assert GetChild(fix, A) == Some(list) && ReplaceChild(fix, A, Attr(R, Enc32(delta), Nil)) == fix';
    KidStep(fix, A, list, Nil, fix', delta);
    assert UpdateRefs(fix, List(0), delta) == Some(fix');
    var f, c := Selfish(0, 0), Attr(R, Enc32(Wrap(1 + delta)), Nil);
    var g, h := Sub(A, Attr(R, Enc32(1), Nil), Sub(LOCAL_FIXUPS, fix', Nil)), Sub(A, c, Sub(LOCAL_FIXUPS, fix', Nil));
    KidStep(g, A, list, Nil, h, delta);
    KidStep(f, LOCAL_FIXUPS, List(0), List(0), g, delta);
    assert Own(h, A) == c && At(c, []) == c && [A][1..] == [];
  }

  // ---------- Places outside the value ----------

  /** `/ { a { r = <1>; }; __local_fixups__ { a { r = <v>; }; }; }` */
  function Listing1(v: u32): Tree {
    Sub(A, Attr(R, Enc32(1), Nil), Sub(LOCAL_FIXUPS, List(v), Nil))
  }

  lemma PlaceOutside(v: u32, delta: u32)
    requires v > 0
    ensures UpdateLocal(Listing1(v), delta) == Outside([0], R, v)
  {
    hide Enc32, Matches, Live, LiveAttrs;
    Names();
    var f, fix, list := Listing1(v), List(v), Attr(R, Enc32(v), Nil);
    FarUse(v, delta);
    assert [] + [0] == [0] && [1] + [0] == [1, 0];
    assert LiveChild(f, [], [1], A, list, 0, delta) == Outside([0], R, v);
    NoLists(f, [], [1], fix, delta);
    OneLive(f, [], [1], fix, delta);
    assert KidIndex(f, LOCAL_FIXUPS) == Some(1) && Pick(f, 1) == fix;
  }

  lemma FarUse(v: u32, delta: u32)
    requires v > 0
    ensures Live(Listing1(v), [0], [1, 0], Attr(R, Enc32(v), Nil), delta) == Outside([0], R, v)
  {
    hide Enc32, Matches;
    OneWord(v);
    var f, one: seq<nat> := Listing1(v), [1];
    Below1(f, 0);
    assert [0][..0] == [] && one[..0] == [];
    assert TreeAt(f, one) == Pick(f, 1) == List(v) && TreeAt(f, [0]) == Pick(f, 0) == Attr(R, Enc32(1), Nil);
    assert ListAt(f, [1, 0], 0) == Enc32(v);
    hide TreeAt, ListAt;
    assert LiveCells(f, [0], [1, 0], 0, R, 0, 1, delta) == Outside([0], R, v);
    OneLive(f, [0], [1, 0], Attr(R, Enc32(v), Nil), delta);
  }

  /** So far outside that the read in front of the check leaves the blob, in whatever blob the tree stands. */
  lemma FarOutside(b: bytes, top: Items, delta: u32)
    requires Readable(b)
    ensures ErrorOf(UpdateLocal(Listing1(0x7fff_ffff), delta), b, top) == -ASTRAY
  {
    hide Hdr, Spot, PropByName, Enc32, UpdateLocal;
    PlaceOutside(0x7fff_ffff, delta);
  }

  // ---------- The update in place ----------

  const FIXUPS_PATH: bytes := [SLASH] + LOCAL_FIXUPS

  /** Where the path to the lists leads. */
  lemma FixupsAt(b: bytes, m: bytes, root: Items, more: Items)
    requires NodeAt(b, 0, Hole, m, root, more)
    ensures Readable(b) && Stands(b, Node(m, root, more), 0, [])
    ensures var z, r := KidIndex(Mean(root, StringsOf(b)), LOCAL_FIXUPS), PathFrom(StructOf(b), 0, FIXUPS_PATH);
      if z.None? then r == -ERR_NOTFOUND
      else
        && r >= 0 && Stands(b, Node(m, root, more), r, [z.value])
        && Mean(Spot(Node(m, root, more), [z.value]).body, StringsOf(b)) == Pick(Mean(root, StringsOf(b)), z.value)
  {
    hide Hdr, Block, Named, Mean, Holds, Kid, HeadSize, Size, ChildByName, KidIndex, PathFrom, ByPath, Order, Pick;
    Placed(b, 0, Hole, m, root, more);
    var s, t, top := StructOf(b), StringsOf(b), Node(m, root, more);
    PathOk(s, Hole, m, root, more, FIXUPS_PATH);
    assert FIXUPS_PATH == [SLASH] + (LOCAL_FIXUPS + []);
    assert Plain(LOCAL_FIXUPS);
    PathStep(Hole, m, root, more, LOCAL_FIXUPS, []);
    KidByName(root, t, LOCAL_FIXUPS);
    var z := KidIndex(Mean(root, t), LOCAL_FIXUPS);
    if z.Some? {
      IndexIs(Mean(root, t), LOCAL_FIXUPS, Nil);
      MeanKid(root, z.value, t);
      KidStands(b, top, 0, [], z.value);
      assert [] + [z.value] == [z.value];
      var f := Kid(root, z.value);
      ByPathHere(Inside(m, f.c, more), f.name, f.body, f.rest);
    }
  }

  /** `overlay_update_local_references`. */
  method UpdateLocalReferences(fdto: array<byte>, delta: u32, ghost m: bytes, ghost root: Items, ghost more: Items)
    returns (err: int, ghost next: Items)
    requires NodeAt(fdto[..], 0, Hole, m, root, more)
    modifies fdto
    ensures Readable(old(fdto[..])) && next.Node? && Kept(old(fdto[..]), fdto[..], Node(m, root, more), next)
    ensures var t := StringsOf(old(fdto[..]));
            var x := UpdateLocal(Mean(root, t), delta);
      && err == ErrorOf(x, old(fdto[..]), Node(m, root, more)) && (x.Finished? ==> Mean(next.body, t) == x.root)
  {
    hide Hdr, Block, Named, Mean, Live, KidIndex, PathFrom, Pick, Spot, PropAt, Stands, NodeAt;
    ghost var b := fdto[..];
    FixupsAt(b, m, root, more);
    next := Node(m, root, more);
    assert Decodes(b, next) by { Hole0(b, m, root, more); }
    KeptSelf(b, next);
    var fixups := ReadPathFrom(fdto, 0, FIXUPS_PATH);
    if fixups < 0 {
      return if fixups == -ERR_NOTFOUND then 0 else fixups, next;
    }
    ghost var z := KidIndex(Mean(root, StringsOf(b)), LOCAL_FIXUPS).value;
    AlikeSelf(Spot(next, [z]).body) by { assert Stands(b, next, fixups, [z]); SpotThere(b, next, fixups, [z]); }
    SpotThere(b, next, fixups, [z]);
    err, next := UpdateNode(fdto, 0, fixups, delta, next, [], [z], Spot(next, [z]).body);
  }

  lemma Hole0(b: bytes, m: bytes, root: Items, more: Items)
    requires NodeAt(b, 0, Hole, m, root, more)
    ensures Decodes(b, Node(m, root, more))
  {
    hide Hdr, Decodes;
  }

  lemma SpotThere(b: bytes, top: Items, o: int, pos: seq<nat>)
    requires Stands(b, top, o, pos)
    ensures Spot(top, pos).There?
  {
    hide Decodes;
  }

  // ---------- Reference integrity ----------

  lemma {:induction false} NamedHere(it: Items, t: bytes, v: u32)
    requires Named(it, t) && v in PhandlesOf(Mean(it, t))
    ensures ByPhandle(it, t, v).There?
    decreases it
  {
    hide PhandleIn, PhandleOf, Plug;
    match it
    case Flat(_, r) => NamedHere(r, t, v);
    case Node(_, b, r) =>
      PhandleMean(b, t);
      if PhandleOf(b, t) != v {
        if v in PhandlesOf(Mean(b, t)) {
          NamedHere(b, t, v);
        } else {
          NamedHere(r, t, v);
        }
      }
  }

  /** Some node of the overlay has the phandle. */
  predicate Known(f: Tree, v: u32) {
    v in AllPhandles(f)
  }

  /** What comes behind the root is searched last. */
  lemma FirstInRoot(m: bytes, root: Items, more: Items, t: bytes, v: u32)
    requires ByPhandle(Node(m, root, Done), t, v).There?
    ensures var f, g := ByPhandle(Node(m, root, Done), t, v), ByPhandle(Node(m, root, more), t, v);
            g.There? && Off(g.c) == Off(f.c)
  {
    hide PhandleOf, Plug, HeadSize;
  }

  /** Looking up a moved phandle in the renumbered overlay gives the offset that the phandle had in the overlay as it was. */
  lemma LookupFollows(b: bytes, d: bytes, m: bytes, root: Items, more: Items, root': Items, more': Items, delta: u32, v: u32)
    requires Kept(b, d, Node(m, root, more), Node(m, root', more')) && v != 0 && Known(Mean(root, StringsOf(b)), v)
    requires var f, h := Mean(root, StringsOf(b)), Mean(root', StringsOf(b));
             AllMoved(AllPhandles(f), AllPhandles(h), delta)
    ensures var t := StringsOf(b);
      && v + delta < NO_PHANDLE && NodeByPhandle(StructOf(b), t, v) >= 0
      && NodeByPhandle(StructOf(d), t, v + delta) == NodeByPhandle(StructOf(b), t, v)
  {
    hide Hdr, Block, Alike, Mean, PhandlesOf, AllPhandles, AllMoved, ByPhandle, NodeByPhandle, Holds, Size, Named, PhandleOf;
    KeptParts(b, d, Node(m, root, more), Node(m, root', more'));
    var t := StringsOf(b);
    var f, h := Mean(root, t), Mean(root', t);
    var x, y := Node(m, root, Done), Node(m, root', Done);
    OneRoot(m, root, t);
    OneRoot(m, root', t);
    NamedParts(m, root, more, t);
    NamedParts(m, root', more', t);
    AlikeParts(m, root, more, root', more');
    NamedHere(x, t, v);
    ReferencesFollow(x, y, t, delta, v);
    FirstInRoot(m, root, more, t, v);
    FirstInRoot(m, root', more', t, v + delta);
    NodeByPhandleOk(StructOf(b), t, Node(m, root, more), v);
    NodeByPhandleOk(StructOf(d), t, Node(m, root', more'), v + delta);
  }

  lemma OneRoot(m: bytes, root: Items, t: bytes)
    ensures PhandlesOf(Mean(Node(m, root, Done), t)) == AllPhandles(Mean(root, t))
  {
    hide PhandleIn;
    assert PhandlesOf(Nil) == [];
  }

  lemma NamedParts(m: bytes, root: Items, more: Items, t: bytes)
    requires Named(Node(m, root, more), t)
    ensures Named(Node(m, root, Done), t)
  {
  }

  lemma AlikeParts(m: bytes, root: Items, more: Items, root': Items, more': Items)
    requires Alike(Node(m, root, more), Node(m, root', more'))
    ensures Alike(Node(m, root, Done), Node(m, root', Done))
  {
  }

  /** The `j`-th word that the overlay lists for the property `name` at the path: it is there, and the only one for its place. */
  ghost predicate Reference(f: Tree, path: seq<bytes>, name: bytes, j: nat) {
    var fix := GetChild(f, LOCAL_FIXUPS);
    && fix.Some? && Listed(f, fix.value, path, name)
    && var places := GetAttr(At(fix.value, path), name);
       places.Some? && Apart(places.value) && 4 * j + 4 <= |places.value|
  }

  function PlaceOf(f: Tree, path: seq<bytes>, name: bytes, j: nat): u32
    requires Reference(f, path, name, j)
  {
    Cell(GetAttr(At(GetChild(f, LOCAL_FIXUPS).value, path), name).value, j)
  }

  /**
   The listed word has grown by the shift. Where it was the phandle of a node of the overlay,
   it did not wrap, and the lookup by phandle finds the same node in the blob afterwards as
   it found by the old word in the blob before.
   */
  ghost predicate Follows(b: bytes, d: bytes, f: Tree, h: Tree, delta: u32, path: seq<bytes>, name: bytes, p: u32) {
    var v, w := GetAttr(At(f, path), name), GetAttr(At(h, path), name);
    && v.Some? && w.Some? && p + 4 <= |v.value| == |w.value|
    && U32(w.value, p) == Wrap(U32(v.value, p) + delta)
    && (U32(v.value, p) != 0 && Known(f, U32(v.value, p)) ==>
         && Readable(b) && Readable(d) && U32(w.value, p) == U32(v.value, p) + delta
         && NodeByPhandle(StructOf(d), StringsOf(d), U32(w.value, p)) == NodeByPhandle(StructOf(b), StringsOf(b), U32(v.value, p)) >= 0)
  }

  lemma ReferenceFollows(b: bytes, d: bytes, m: bytes, root: Items, more: Items, root': Items, more': Items, g: Tree, delta: u32,
                         path: seq<bytes>, name: bytes, j: nat)
    requires Kept(b, d, Node(m, root, more), Node(m, root', more'))
    requires Renumbered(Mean(root, StringsOf(b)), g, Mean(root', StringsOf(b)), delta) && Reference(Mean(root, StringsOf(b)), path, name, j)
    ensures var f, h := Mean(root, StringsOf(b)), Mean(root', StringsOf(b));
            Follows(b, d, f, h, delta, path, name, PlaceOf(f, path, name, j))
  {
    hide Kept, Mean, ShiftNode, UpdateRefs, GetAttr, At, Listed, Apart, Cell, Be32, GetChild, Known, NodeByPhandle, AllMoved, AllPhandles;
    KeptParts(b, d, Node(m, root, more), Node(m, root', more'));
    var f, h := Mean(root, StringsOf(b)), Mean(root', StringsOf(b));
    WordsFollow(f, g, h, delta, path, name, j);
    PhandlesFollow(f, g, h, delta);
    var v := U32(GetAttr(At(f, path), name).value, PlaceOf(f, path, name, j));
    if v != 0 && Known(f, v) {
      LookupFollows(b, d, m, root, more, root', more', delta, v);
    }
  }

  /** Every reference that the overlay lists follows. */
  ghost predicate AllFollow(b: bytes, d: bytes, f: Tree, h: Tree, delta: u32) {
    forall path: seq<bytes>, name: bytes, j: nat {:trigger Reference(f, path, name, j)} ::
      Reference(f, path, name, j) ==> Follows(b, d, f, h, delta, path, name, PlaceOf(f, path, name, j))
  }

  lemma ReferencesFollowed(b: bytes, d: bytes, m: bytes, root: Items, more: Items, root': Items, more': Items, g: Tree, delta: u32)
    requires Kept(b, d, Node(m, root, more), Node(m, root', more'))
    requires Renumbered(Mean(root, StringsOf(b)), g, Mean(root', StringsOf(b)), delta)
    ensures AllFollow(b, d, Mean(root, StringsOf(b)), Mean(root', StringsOf(b)), delta)
  {
    hide Mean, Renumbered, Reference, Follows, PlaceOf, Decodes, Rewritten, Alike;
    KeptParts(b, d, Node(m, root, more), Node(m, root', more'));
    hide Kept;
    var f, h := Mean(root, StringsOf(b)), Mean(root', StringsOf(b));
    forall path: seq<bytes>, name: bytes, j: nat | Reference(f, path, name, j)
      ensures Follows(b, d, f, h, delta, path, name, PlaceOf(f, path, name, j))
    {
      ReferenceFollows(b, d, m, root, more, root', more', g, delta, path, name, j);
    }
  }

  /** The shift changes no name, so that the lists are as foreign as they were. */
  lemma ForeignShifted(f: Tree, g: Tree, delta: u32)
    requires ShiftNode(f, delta) == Did(g) && ForeignLists(f)
    ensures ForeignLists(g)
  {
    hide ShiftNode, Order, KidIndex, GetChild;
    NodeShifted(f, delta);
    IndexOfNames(f, g, LOCAL_FIXUPS);
    IndexIs(f, LOCAL_FIXUPS, Nil);
    IndexIs(g, LOCAL_FIXUPS, Nil);
    var z := KidIndex(f, LOCAL_FIXUPS);
    if z.Some? {
      assert BothShifted(GetChild(f, LOCAL_FIXUPS), GetChild(g, LOCAL_FIXUPS), delta);
      NodeShifted(Pick(f, z.value), delta);
      ForeignStays(f, g, Pick(f, z.value), z.value);
    }
  }

  lemma ForeignRenumbered(f: Tree, g: Tree, h: Tree, delta: u32)
    requires ShiftNode(f, delta) == Did(g) && ForeignLists(f) && UpdateLocal(g, delta) == Finished(h)
    ensures Renumbered(f, g, h, delta)
  {
    hide ShiftNode, ForeignLists, UpdateLocal, UpdateRefs, GetChild;
    ForeignShifted(f, g, delta);
    ListsAreRead(g, delta);
  }

  /**
   An overlay that lists a phandle as a reference is refused whenever anything was shifted: the
   list, shifted along with the phandles, names a place behind the phandle.
   */
  lemma ListedPhandle(f: Tree, delta: u32)
    requires delta > 0 && ForeignLists(f) && ShiftNode(f, delta).Did?
    requires GetChild(f, LOCAL_FIXUPS).Some? && !NoneListed(GetChild(f, LOCAL_FIXUPS).value)
    ensures !UpdateLocal(ShiftNode(f, delta).value, delta).Finished?
  {
    hide ShiftNode, ForeignLists, UpdateLocal, NoneListed, GetChild, Renumbered;
    var g := ShiftNode(f, delta).value;
    if UpdateLocal(g, delta).Finished? {
      var h := UpdateLocal(g, delta).root;
      ForeignRenumbered(f, g, h, delta);
      RenumberedLists(f, g, h, delta);
      assert false;
    }
  }

  /**
   `fdt_overlay_apply` up to the update of the local references: the overlay's phandles are
   moved out of the way of the base tree's, and each reference follows.
   */
  method RenumberOverlay(fdt: array<byte>, fdto: array<byte>, ghost base: Items, ghost m: bytes, ghost root: Items, ghost more: Items)
    returns (err: int, ghost next: Items)
    requires fdt != fdto && Stringed(fdt[..]) && Block(StructOf(fdt[..]), base) && Named(base, StringsOf(fdt[..]))
    requires NodeAt(fdto[..], 0, Hole, m, root, more)
    modifies fdto
    ensures fdt[..] == old(fdt[..]) && Readable(old(fdto[..])) && Readable(fdto[..])
    ensures var t, bt := StringsOf(old(fdto[..])), StringsOf(fdt[..]);
            var f, delta := Mean(root, t), MaxPhandle(base, bt, 0);
            var x := ShiftNode(f, delta);
      && err == (if x.Failed? then x.err else ErrorOf(UpdateLocal(x.value, delta), old(fdto[..]), Node(m, root, more)))
      && (err == 0 ==>
           && next.Node? && Kept(old(fdto[..]), fdto[..], Node(m, root, more), next)
           && x.Did? && UpdateLocal(x.value, delta) == Finished(Mean(next.body, t))
           && (ForeignLists(f) ==>
                && Disjoint(PhandlesOf(Mean(base, bt)), AllPhandles(f), AllPhandles(Mean(next.body, t)), delta)
                && AllFollow(old(fdto[..]), fdto[..], f, Mean(next.body, t), delta)))
  {
    hide Hdr, Block, NodeAt, Mean, ShiftNode, Stepped, Kept, Shiftable, PhandlesOf, AllPhandles, Disjoint, MaxPhandle, UpdateLocal,
         ForeignLists, AllFollow, PropAt;
    ghost var b := fdto[..];
    SteppedSelf(b, 0, Hole, m, root, more);
    ghost var t, f, top := StringsOf(b), Mean(root, StringsOf(b)), Node(m, root, more);
    var delta;
    ghost var root';
    err, delta, root' := ShiftOverlay(fdt, fdto, base, m, root, more);
    NodeErrors(f, delta);
    next := top;
    if err != 0 {
      return;
    }
    ghost var g, d := ShiftNode(f, delta).value, fdto[..];
    SteppedParts(b, d, 0, Hole, m, root, root', more, g);
    SteppedKept(b, d, m, root, root', more, g);
    err, next := UpdateLocalReferences(fdto, delta, m, root', more);
    KeptError(UpdateLocal(g, delta), b, d, top, Node(m, root', more));
    KeptTwice(b, d, fdto[..], top, Node(m, root', more), next);
    KeptParts(b, fdto[..], top, next);
    if err == 0 {
      OnlyFinished(UpdateLocal(g, delta), d, Node(m, root', more));
      SameRoot(b, fdto[..], top, next);
      if ForeignLists(f) {
        ghost var h := Mean(next.body, t);
        ForeignRenumbered(f, g, h, delta);
        PhandlesFollow(f, g, h, delta);
        MovedApart(base, StringsOf(fdt[..]), AllPhandles(f), AllPhandles(h), delta);
        ReferencesFollowed(b, fdto[..], m, root, more, next.body, next.rest, g, delta);
      }
    }
  }

  lemma SteppedKept(b: bytes, d: bytes, m: bytes, root: Items, root': Items, more: Items, f: Tree)
    requires NodeAt(b, 0, Hole, m, root, more) && Stepped(b, d, 0, Hole, m, root, root', more, f)
    ensures Kept(b, d, Node(m, root, more), Node(m, root', more))
  {
    hide Hdr, Block, Named, Alike, Mean, Rewritten;
    Hole0(b, m, root, more);
    Hole0(d, m, root', more);
    AlikeNode(Hole, m, root, root', more);
  }

  lemma SameRoot(b: bytes, d: bytes, top: Items, next: Items)
    requires Kept(b, d, top, next) && top.Node? && next.Node?
    ensures next.name == top.name
  {
    hide Decodes, Rewritten;
  }
}
