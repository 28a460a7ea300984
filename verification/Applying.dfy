/** What the fragments of an overlay do to the base tree, seen by positions and paths in it. */
module Applying {
  import opened Options
  import opened Bytes
  import opened Walk
  import opened Read
  import opened Meaning
  import opened Merging
  import opened Shapes
  import opened Aliases
  import opened Fragments

  // ---------- Which fragments count ----------

  /** A child of the overlay's root without `__overlay__` changes nothing, whatever else it holds. */
  lemma NoOverlay(base: Tree, n: bytes, f: Tree, r: Tree)
    requires GetChild(f, OVERLAY).None?
    ensures MergeOverlay(base, Sub(n, f, r)) == MergeOverlay(base, r)
  {
    hide GetChild;
  }

  /** The first `k` children. */
  function Front(f: Tree, k: nat): Tree {
    match f
    case Nil => Nil
    case Attr(n, v, r) => Attr(n, v, Front(r, k))
    case Sub(n, b, r) => if k == 0 then Nil else Sub(n, b, Front(r, k - 1))
  }

  /** The fragment has a target in the tree, if there is a tree. */
  predicate HasTarget(base: Option<Tree>, frag: Tree) {
    base.Some? && base.value.Sub? && TargetOf(base.value.name, base.value.body, base.value.rest, frag).Place?
  }

  /** One fragment after the others. */
  lemma {:induction false} NextFragment(base: Tree, frags: Tree, k: nat)
    requires k < |Order(frags)|
    ensures var b := MergeOverlay(base, Front(frags, k));
            MergeOverlay(base, Front(frags, k + 1)) == if b.None? then None else MergeFragment(b.value, Pick(frags, k))
    decreases frags
  {
    hide MergeFragment;
    match frags
    case Attr(_, _, r) => NextFragment(base, r, k);
    case Sub(n, f, r) =>
      var next := MergeFragment(base, f);
      if k == 0 {
        NoneInFront(r);
        if next.Some? {
          NothingMerged(next.value, Front(r, 0));
        }
      } else if next.Some? {
        NextFragment(next.value, r, k - 1);
      }
  }

  lemma {:induction false} NoneInFront(f: Tree)
    ensures Order(Front(f, 0)) == []
    decreases f
  {
    if f.Attr? {
      NoneInFront(f.rest);
    }
  }

  lemma {:induction false} NothingMerged(base: Tree, frags: Tree)
    requires Order(frags) == []
    ensures MergeOverlay(base, frags) == Some(base)
    decreases frags
  {
    match frags
    case Nil =>
    case Attr(_, _, r) => NothingMerged(base, r);
    case Sub(_, _, _) =>
  }

  lemma {:induction false} AllInFront(f: Tree)
    ensures Front(f, |Order(f)|) == f
    decreases f
  {
    match f
    case Nil =>
    case Attr(_, _, r) => AllInFront(r);
    case Sub(_, _, r) => AllInFront(r);
  }

  /** The merge fails exactly when some fragment with an `__overlay__` has no target when its turn comes. */
  lemma MergesIff(base: Tree, frags: Tree)
    ensures MergeOverlay(base, frags).Some? <==>
            forall k: nat :: k < |Order(frags)| && GetChild(Pick(frags, k), OVERLAY).Some? ==>
              HasTarget(MergeOverlay(base, Front(frags, k)), Pick(frags, k))
  {
    hide GetChild, HasTarget, MergeOverlay, Front, Order, Pick;
    AllInFront(frags);
    FrontMerges(base, frags, |Order(frags)|);
  }

  lemma {:induction false} FrontMerges(base: Tree, frags: Tree, m: nat)
    requires m <= |Order(frags)|
    ensures MergeOverlay(base, Front(frags, m)).Some? <==>
            forall k: nat :: k < m && GetChild(Pick(frags, k), OVERLAY).Some? ==>
              HasTarget(MergeOverlay(base, Front(frags, k)), Pick(frags, k))
    decreases m
  {
    hide GetChild, MergeOverlay, Front, Order, Pick, TargetOf;
    if m == 0 {
      NoneInFront(frags);
      NothingMerged(base, Front(frags, 0));
    } else {
      FrontMerges(base, frags, m - 1);
      NextFragment(base, frags, m - 1);
    }
  }

  // ---------- Where a fragment goes ----------

  /** A usable "target" decides alone; "target-path" is for fragments without one, or with one that says 0. */
  lemma PhandleFirst(n: bytes, b: Tree, r: Tree, frag: Tree)
    ensures GetAttr(frag, TARGET).Some? ==>
      var v := GetAttr(frag, TARGET).value;
      && (|v| != 4 || Be32(v) == 0xffff_ffff ==> TargetOf(n, b, r, frag) == Nowhere)
      && (|v| == 4 && 0 < Be32(v) < 0xffff_ffff ==>
           TargetOf(n, b, r, frag) == TreeByPhandle(Sub(n, b, r), Be32(v)))
    ensures (GetAttr(frag, TARGET).Some? ==> |GetAttr(frag, TARGET).value| == 4 && Be32(GetAttr(frag, TARGET).value) == 0) ==>
      TargetOf(n, b, r, frag) ==
        if GetAttr(frag, TARGET_PATH).None? then Nowhere else TreeFollow(n, b, r, CString(GetAttr(frag, TARGET_PATH).value), {})
  {
    hide Be32, GetAttr, TreeByPhandle, TreeFollow, CString;
  }

  /** The position of the open place, from the level on which the tree stands. */
  function Where(c: TreeCtx): (pos: seq<nat>)
    ensures pos != []
  {
    match c
    case Top => [0]
    case PastAttr(_, _, k) => Where(k)
    case PastSub(_, _, k) => [Where(k)[0] + 1] + Where(k)[1..]
    case In(_, k, _) => [0] + Where(k)
  }

  lemma {:induction false} TreeAtFront(f: Tree, k: nat, pos: seq<nat>)
    ensures TreeAt(f, [k] + pos) == TreeAt(Pick(f, k), pos)
    ensures HasPos(f, [k] + pos) <==> k < |Order(f)| && HasPos(Pick(f, k), pos)
    decreases |pos|
  {
    hide Pick, Order;
    var all := [k] + pos;
    if pos == [] {
      assert all[..|all| - 1] == [];
    } else {
      assert all[..|all| - 1] == [k] + pos[..|pos| - 1];
      TreeAtFront(f, k, pos[..|pos| - 1]);
    }
  }

  lemma {:induction false} PlantFront(f: Tree, k: nat, pos: seq<nat>, g: Tree)
    ensures Plant(f, [k] + pos, g) == PutKid(f, k, Plant(Pick(f, k), pos, g))
    decreases |pos|
  {
    hide Pick, Order, PutKid;
    var all := [k] + pos;
    if pos == [] {
      assert all[..|all| - 1] == [];
    } else {
      assert all[..|all| - 1] == [k] + pos[..|pos| - 1];
      TreeAtFront(f, k, pos[..|pos| - 1]);
      PlantFront(f, k, pos[..|pos| - 1], PutKid(TreeAt(f, all[..|all| - 1]), pos[|pos| - 1], g));
    }
  }

  /** Filling the open place is planting at its position. */
  lemma {:induction false} FillIsPlant(c: TreeCtx, n: bytes, b: Tree, r: Tree, x: Tree)
    ensures var f := Fill(c, Sub(n, b, r));
      HasPos(f, Where(c)) && TreeAt(f, Where(c)) == b && Fill(c, Sub(n, x, r)) == Plant(f, Where(c), x)
    decreases c
  {
    hide TreeAt, HasPos, Plant;
    var f, pos := Fill(c, Sub(n, b, r)), Where(c);
    assert pos == [pos[0]] + pos[1..];
    TreeAtFront(f, pos[0], pos[1..]);
    PlantFront(f, pos[0], pos[1..], x);
    match c
    case Top =>
      assert pos[1..] == [];
      PosHere(b, x);
    case PastAttr(_, _, k) =>
      FillIsPlant(k, n, b, r, x);
      Fronts(Fill(k, Sub(n, b, r)), Where(k), x);
    case PastSub(_, _, k) =>
      FillIsPlant(k, n, b, r, x);
      Fronts(Fill(k, Sub(n, b, r)), Where(k), x);
    case In(_, k, _) =>
      assert pos[1..] == Where(k);
      FillIsPlant(k, n, b, r, x);
  }

  lemma Fronts(f: Tree, pos: seq<nat>, x: Tree)
    requires pos != []
    ensures TreeAt(f, pos) == TreeAt(Pick(f, pos[0]), pos[1..]) && Plant(f, pos, x) == PutKid(f, pos[0], Plant(Pick(f, pos[0]), pos[1..], x))
    ensures HasPos(f, pos) <==> pos[0] < |Order(f)| && HasPos(Pick(f, pos[0]), pos[1..])
  {
    hide TreeAt, HasPos, Plant, Pick, Order, PutKid;
    assert pos == [pos[0]] + pos[1..];
    TreeAtFront(f, pos[0], pos[1..]);
    PlantFront(f, pos[0], pos[1..], x);
  }

  lemma PosHere(b: Tree, x: Tree)
    ensures HasPos(b, []) && TreeAt(b, []) == b && Plant(b, [], x) == x
  {
  }

  /** Planting changes no property and no name of a node that is neither at the position nor below it. */
  lemma {:induction false} PlantedElsewhere(f: Tree, pos: seq<nat>, g: Tree, q: seq<nat>)
    requires HasPos(f, pos) && !(pos <= q)
    ensures forall name :: GetAttr(TreeAt(Plant(f, pos, g), q), name) == GetAttr(TreeAt(f, q), name)
    ensures Order(TreeAt(Plant(f, pos, g), q)) == Order(TreeAt(f, q))
    decreases |pos|
  {
    hide TreeAt, HasPos, Plant, GetAttr, Order, Pick, PutKid;
    var k := pos[0];
    Fronts(f, pos, g);
    var x := Plant(Pick(f, k), pos[1..], g);
    if q == [] {
      PosHere(f, f);
      PosHere(Plant(f, pos, g), f);
      PutKidPick(f, k, x, k);
    } else {
      Fronts(f, q, f);
      Fronts(Plant(f, pos, g), q, f);
      PutKidPick(f, k, x, q[0]);
      if q[0] == k {
        assert pos == [k] + pos[1..] && q == [k] + q[1..];
        assert pos[1..] <= q[1..] ==> pos <= q;
        PlantedElsewhere(Pick(f, k), pos[1..], g, q[1..]);
      }
    }
  }

  lemma {:induction false} FillJoined(c: TreeCtx, d: TreeCtx, x: Tree)
    ensures Fill(Join(c, d), x) == Fill(c, Fill(d, x))
    decreases c
  {
    if c != Top {
      FillJoined(c.k, d, x);
    }
  }

  /** The outcome of a lookup stands where it says. */
  predicate StandsIn(f: TreeFound, base: Tree) {
    f.Place? ==> base == Fill(f.c, Sub(f.name, f.body, f.rest))
  }

  lemma {:induction false} ChildStands(f: Tree, name: bytes)
    ensures StandsIn(TreeChild(f, name), f)
    decreases f
  {
    hide Matches;
    match f
    case Nil =>
    case Attr(_, _, r) => ChildStands(r, name);
    case Sub(_, _, r) => ChildStands(r, name);
  }

  lemma {:induction false} PhandleStands(f: Tree, phandle: u32)
    ensures StandsIn(TreeByPhandle(f, phandle), f)
    decreases f
  {
    hide PhandleIn;
    match f
    case Nil =>
    case Attr(_, _, r) => PhandleStands(r, phandle);
    case Sub(_, b, r) => PhandleStands(b, phandle); PhandleStands(r, phandle);
  }

  lemma {:induction false} PathStands(c: TreeCtx, n: bytes, b: Tree, r: Tree, path: bytes)
    ensures StandsIn(TreeByPath(c, n, b, r, path), Fill(c, Sub(n, b, r)))
    decreases |path|
  {
    hide TreeChild, Fill, Join;
    if path == [] {
    } else if path[0] == SLASH {
      PathStands(c, n, b, r, path[1..]);
    } else {
      var q := NextSlash(path, 0);
      var f := TreeChild(b, path[..q]);
      ChildStands(b, path[..q]);
      if f.Place? {
        FillJoined(c, In(n, f.c, r), Sub(f.name, f.body, f.rest));
        FillIn(n, f.c, r, Sub(f.name, f.body, f.rest));
        PathStands(Join(c, In(n, f.c, r)), f.name, f.body, f.rest, path[q..]);
      }
    }
  }

  lemma FillIn(n: bytes, k: TreeCtx, r: Tree, x: Tree)
    ensures Fill(In(n, k, r), x) == Sub(n, Fill(k, x), r)
  {
  }

  lemma {:induction false} FollowStands(n: bytes, b: Tree, r: Tree, path: bytes, seen: set<bytes>)
    ensures StandsIn(TreeFollow(n, b, r, path, seen), Sub(n, b, r))
    decreases match TreeByPath(Top, n, b, r, ALIASES) case Place(_, _, f, _) => UnseenAttrs(f, seen) case Nowhere => 0
  {
    hide TreeByPath, GetAttr, CString, UnseenAttrs;
    var q := NextSlash(path, 0);
    var aliases := TreeByPath(Top, n, b, r, ALIASES);
    PathStands(Top, n, b, r, path);
    if !Absolute(path) && aliases.Place? {
      var p := GetAttr(aliases.body, path[..q]);
      if p.Some? && path[..q] !in seen {
        UnseenAttrsLess(aliases.body, seen, path[..q]);
        FollowStands(n, b, r, CString(p.value), seen + {path[..q]});
        var w := TreeFollow(n, b, r, CString(p.value), seen + {path[..q]});
        if w.Place? {
          PathStands(w.c, w.name, w.body, w.rest, path[q..]);
        }
      }
    }
  }

  lemma TargetStands(n: bytes, b: Tree, r: Tree, frag: Tree)
    ensures StandsIn(TargetOf(n, b, r, frag), Sub(n, b, r))
  {
    hide TreeFollow, TreeByPhandle, GetAttr, CString, StandsIn;
    assert StandsIn(Nowhere, Sub(n, b, r)) by { NowhereStands(Sub(n, b, r)); }
    PhandleStands(Sub(n, b, r), TargetPhandle(GetAttr(frag, TARGET)));
    var path := GetAttr(frag, TARGET_PATH);
    if path.Some? {
      FollowStands(n, b, r, CString(path.value), {});
    }
  }

  lemma NowhereStands(base: Tree)
    ensures StandsIn(Nowhere, base)
  {
  }

  /** One fragment: the target's content becomes the merge, and no other node changes. */
  lemma FragmentMerged(base: Tree, frag: Tree)
    requires base.Sub? && GetChild(frag, OVERLAY).Some? && TargetOf(base.name, base.body, base.rest, frag).Place?
    ensures var pos := Where(TargetOf(base.name, base.body, base.rest, frag).c);
            var g := MergeFragment(base, frag);
      && g.Some? && HasPos(base, pos)
      && TreeAt(g.value, pos) == Merge(TreeAt(base, pos), GetChild(frag, OVERLAY).value)
      && forall q, name :: !(pos <= q) ==>
           GetAttr(TreeAt(g.value, q), name) == GetAttr(TreeAt(base, q), name) && Order(TreeAt(g.value, q)) == Order(TreeAt(base, q))
  {
    hide GetChild, TargetOf, Merge, TreeAt, HasPos, Plant, GetAttr, Order, Where, Fill;
    var f, ov := TargetOf(base.name, base.body, base.rest, frag), GetChild(frag, OVERLAY).value;
    var x := Merge(f.body, ov);
    TargetStands(base.name, base.body, base.rest, frag);
    FillIsPlant(f.c, f.name, f.body, f.rest, x);
    PlantedHere(base, Where(f.c), x, Nil);
    forall q | !(Where(f.c) <= q)
      ensures forall name :: GetAttr(TreeAt(Plant(base, Where(f.c), x), q), name) == GetAttr(TreeAt(base, q), name)
      ensures Order(TreeAt(Plant(base, Where(f.c), x), q)) == Order(TreeAt(base, q))
    {
      PlantedElsewhere(base, Where(f.c), x, q);
    }
  }

  /** Where a fragment goes. */
  function Target(base: Tree, frag: Tree): seq<nat>
    requires base.Sub? && TargetOf(base.name, base.body, base.rest, frag).Place?
  {
    Where(TargetOf(base.name, base.body, base.rest, frag).c)
  }

  /**
   The value of a property after one fragment. At a path below the target whose names are
   undisturbed it is the fragment's where that sets one and the base's everywhere else; at
   every position that is not the target's or below it, it is what it was.
   */
  lemma FragmentValue(base: Tree, frag: Tree, path: seq<bytes>, q: seq<nat>, name: bytes)
    requires HasTarget(Some(base), frag) && GetChild(frag, OVERLAY).Some?
    ensures var g, pos, ov := MergeFragment(base, frag), Target(base, frag), GetChild(frag, OVERLAY).value;
      && g.Some? && HasPos(base, pos)
      && (Clear(TreeAt(base, pos), ov, path) ==>
           GetAttr(At(TreeAt(g.value, pos), path), name) ==
             if LastAttr(At(ov, path), name).Some? then LastAttr(At(ov, path), name) else GetAttr(At(TreeAt(base, pos), path), name))
      && (!(pos <= q) ==> GetAttr(TreeAt(g.value, q), name) == GetAttr(TreeAt(base, q), name))
  {
    hide GetChild, TargetOf, Merge, TreeAt, HasPos, GetAttr, Order, Where, MergeFragment, At, LastAttr, Clear;
    FragmentMerged(base, frag);
    var pos, ov := Target(base, frag), GetChild(frag, OVERLAY).value;
    if Clear(TreeAt(base, pos), ov, path) {
      MergedValue(TreeAt(base, pos), ov, path, name);
    }
  }
}
