/**
 Nodes and properties by number: a place that stays where it is when only values change.

 A position is the number of the child to take on each level, from the root down.
 */
module Shapes {
  import opened Options
  import opened Bytes
  import opened Structure
  import opened Walk
  import opened Read
  import opened Meaning
  import opened Merging

  // ---------- Items that differ in values only ----------

  predicate AlikeEntry(e: Entry, f: Entry) {
    match e
    case Nop => f.Nop?
    case Prop(off, val) => f.Prop? && f.nameoff == off && |f.val| == |val|
  }

  /** The same tags, names and lengths, so that every byte but those of the values is the same. */
  predicate Alike(x: Items, y: Items) {
    match x
    case Done => y.Done?
    case Flat(e, r) => y.Flat? && AlikeEntry(e, y.e) && Alike(r, y.rest)
    case Node(n, b, r) => y.Node? && y.name == n && Alike(b, y.body) && Alike(r, y.rest)
  }

  lemma {:induction false} AlikeSelf(x: Items)
    ensures Alike(x, x)
    decreases x
  {
    match x
    case Done =>
    case Flat(_, r) => AlikeSelf(r);
    case Node(_, b, r) => AlikeSelf(b); AlikeSelf(r);
  }

  lemma {:induction false} AlikeTwice(x: Items, y: Items, z: Items)
    requires Alike(x, y) && Alike(y, z)
    ensures Alike(x, z)
    decreases x
  {
    match x
    case Done =>
    case Flat(_, r) => AlikeTwice(r, y.rest, z.rest);
    case Node(_, b, r) => AlikeTwice(b, y.body, z.body); AlikeTwice(r, y.rest, z.rest);
  }

  lemma {:induction false} AlikeSize(x: Items, y: Items)
    requires Alike(x, y)
    ensures Size(y) == Size(x)
    decreases x
  {
    hide HeadSize;
    match x
    case Done =>
    case Flat(_, r) => AlikeSize(r, y.rest);
    case Node(_, b, r) => AlikeSize(b, y.body); AlikeSize(r, y.rest);
  }

  lemma {:induction false} AlikePlug(c: Ctx, x: Items, y: Items)
    requires Alike(x, y)
    ensures Alike(Plug(c, x), Plug(c, y))
    decreases c
  {
    match c
    case Hole =>
    case AfterEntry(e, k) => AlikePlug(k, x, y);
    case AfterNode(_, b, k) => AlikeSelf(b); AlikePlug(k, x, y);
    case Inside(_, k, r) => AlikeSelf(r); AlikePlug(k, x, y);
  }

  /** A node whose content changed in values only. */
  lemma AlikeNode(c: Ctx, n: bytes, b: Items, b': Items, r: Items)
    requires Alike(b, b')
    ensures Alike(Plug(c, Node(n, b, r)), Plug(c, Node(n, b', r)))
  {
    AlikeSelf(r);
    AlikePlug(c, Node(n, b, r), Node(n, b', r));
  }

  /** A property with another value of the same length. */
  lemma AlikePatched(f: FoundProp, val: bytes)
    requires f.PropThere? && |val| == |f.val|
    ensures Alike(Plug(f.c, Flat(Prop(f.nameoff, f.val), f.rest)), Plug(f.c, Flat(Prop(f.nameoff, val), f.rest)))
  {
    AlikeSelf(f.rest);
    AlikePlug(f.c, Flat(Prop(f.nameoff, f.val), f.rest), Flat(Prop(f.nameoff, val), f.rest));
  }

  /** Two lookups that ended at the same place. */
  predicate SameFound(f: Found, g: Found) {
    f.There? == g.There? && (f.There? ==> Off(g.c) == Off(f.c) && g.name == f.name && Alike(f.body, g.body))
  }

  predicate SameProp(f: FoundProp, g: FoundProp) {
    f.PropThere? == g.PropThere? && (f.PropThere? ==> Off(g.c) == Off(f.c) && g.nameoff == f.nameoff && |g.val| == |f.val|)
  }

  // ---------- The k-th child, the j-th property ----------

  function Kid(it: Items, k: nat): (f: Found)
    ensures f.There? ==> it == Plug(f.c, Node(f.name, f.body, f.rest))
  {
    match it
    case Done => Missing
    case Flat(e, r) =>
      (match Kid(r, k)
       case Missing => Missing
       case There(c, n, b, q) => There(AfterEntry(e, c), n, b, q))
    case Node(n, b, r) =>
      if k == 0 then There(Hole, n, b, r)
      else
        match Kid(r, k - 1)
        case Missing => Missing
        case There(c, m, d, q) => There(AfterNode(n, b, c), m, d, q)
  }

  function NthProp(it: Items, j: nat): (f: FoundProp)
    ensures f.PropThere? ==> it == Plug(f.c, Flat(Prop(f.nameoff, f.val), f.rest))
  {
    match it
    case Done => NoProp
    case Node(_, _, _) => NoProp
    case Flat(e, r) =>
      if e.Prop? && j == 0 then PropThere(Hole, e.nameoff, e.val, r)
      else
        match NthProp(r, if e.Prop? then j - 1 else j)
        case NoProp => NoProp
        case PropThere(c, off, val, q) => PropThere(AfterEntry(e, c), off, val, q)
  }

  lemma {:induction false} AlikeKid(x: Items, y: Items, k: nat)
    requires Alike(x, y)
    ensures SameFound(Kid(x, k), Kid(y, k))
    decreases x
  {
    hide HeadSize, Plug;
    match x
    case Done =>
    case Flat(_, r) => AlikeKid(r, y.rest, k);
    case Node(_, b, r) =>
      if k > 0 {
        AlikeSize(b, y.body);
        AlikeKid(r, y.rest, k - 1);
      }
  }

  lemma {:induction false} AlikeNth(x: Items, y: Items, j: nat)
    requires Alike(x, y)
    ensures SameProp(NthProp(x, j), NthProp(y, j))
    decreases x
  {
    hide Plug;
    if x.Flat? && !(x.e.Prop? && j == 0) {
      AlikeNth(x.rest, y.rest, if x.e.Prop? then j - 1 else j);
    }
  }

  lemma {:induction false} AlikeProp(x: Items, y: Items, t: bytes, name: bytes)
    requires Alike(x, y)
    ensures SameProp(PropByName(x, t, name), PropByName(y, t, name))
    decreases x
  {
    hide Plug, Str;
    if x.Flat? && !(x.e.Prop? && Str(t, x.e.nameoff) == Some(name)) {
      AlikeProp(x.rest, y.rest, t, name);
    }
  }

  // ---------- The same on trees ----------

  /** The content of the k-th child. */
  function Pick(f: Tree, k: nat): Tree {
    match f
    case Nil => Nil
    case Attr(_, _, r) => Pick(r, k)
    case Sub(_, b, r) => if k == 0 then b else Pick(r, k - 1)
  }

  function PutKid(f: Tree, k: nat, g: Tree): Tree {
    match f
    case Nil => Nil
    case Attr(n, v, r) => Attr(n, v, PutKid(r, k, g))
    case Sub(n, b, r) => if k == 0 then Sub(n, g, r) else Sub(n, b, PutKid(r, k - 1, g))
  }

  /** What is left of the properties behind the first `j`. */
  function Onward(f: Tree, j: nat): Tree {
    if f.Attr? && j > 0 then Onward(f.rest, j - 1) else f
  }

  /** The children from the k-th on. */
  function Later(f: Tree, k: nat): Tree {
    match f
    case Nil => Nil
    case Attr(_, _, r) => Later(r, k)
    case Sub(_, _, r) => if k == 0 then f else Later(r, k - 1)
  }

  /** The number of the first child that answers to the name. */
  function KidIndex(f: Tree, name: bytes): Option<nat> {
    match f
    case Nil => None
    case Attr(_, _, r) => KidIndex(r, name)
    case Sub(n, _, r) =>
      if Matches(n, name) then Some(0)
      else
        var k := KidIndex(r, name);
        if k.Some? then Some(k.value + 1) else None
  }

  lemma {:induction false} MeanKid(it: Items, k: nat, t: bytes)
    ensures var f := Kid(it, k);
      && (f.There? <==> k < |Order(Mean(it, t))|)
      && (f.There? ==>
           && Pick(Mean(it, t), k) == Mean(f.body, t)
           && Later(Mean(it, t), k) == Sub(f.name, Mean(f.body, t), Mean(f.rest, t))
           && forall b :: Mean(Plug(f.c, Node(f.name, b, f.rest)), t) == PutKid(Mean(it, t), k, Mean(b, t)))
      && (f.Missing? ==> Later(Mean(it, t), k) == Nil)
    decreases it
  {
    hide NameOf;
    match it
    case Done =>
    case Flat(_, r) => MeanKid(r, k, t);
    case Node(_, b, r) =>
      if k > 0 {
        MeanKid(r, k - 1, t);
      }
  }

  lemma {:induction false} MeanNth(it: Items, j: nat, t: bytes)
    ensures var f := NthProp(it, j);
      if f.PropThere? then Onward(Mean(it, t), j) == Attr(NameOf(t, f.nameoff), f.val, Mean(f.rest, t))
      else !Onward(Mean(it, t), j).Attr?
    decreases it
  {
    hide NameOf, Plug;
    if it.Flat? && !(it.e.Prop? && j == 0) {
      MeanNth(it.rest, if it.e.Prop? then j - 1 else j, t);
    }
  }

  lemma {:induction false} NthNamed(it: Items, j: nat, t: bytes)
    requires Named(it, t) && NthProp(it, j).PropThere?
    ensures Str(t, NthProp(it, j).nameoff) == Some(NameOf(t, NthProp(it, j).nameoff))
    decreases it
  {
    hide Str, Plug;
    if it.Flat? && !(it.e.Prop? && j == 0) {
      NthNamed(it.rest, if it.e.Prop? then j - 1 else j, t);
    }
  }

  /** Looking a child up by name is taking the one of that number. */
  lemma {:induction false} KidByName(it: Items, t: bytes, name: bytes)
    ensures var k := KidIndex(Mean(it, t), name);
            ChildByName(it, name) == if k.Some? then Kid(it, k.value) else Missing
    decreases it
  {
    hide NameOf, Plug, Matches;
    match it
    case Done =>
    case Flat(_, r) => KidByName(r, t, name);
    case Node(_, _, r) => KidByName(r, t, name);
  }

  lemma {:induction false} IndexIs(f: Tree, name: bytes, g: Tree)
    ensures var k := KidIndex(f, name);
      && (k.Some? ==> k.value < |Order(f)|)
      && GetChild(f, name) == (if k.Some? then Some(Pick(f, k.value)) else None)
      && (k.Some? ==> ReplaceChild(f, name, g) == PutKid(f, k.value, g))
    decreases f
  {
    hide Matches;
    match f
    case Nil =>
    case Attr(_, _, r) => IndexIs(r, name, g);
    case Sub(_, _, r) => IndexIs(r, name, g);
  }

  /** The number depends on the names of the children only. */
  lemma {:induction false} IndexOfNames(f: Tree, g: Tree, name: bytes)
    requires Order(f) == Order(g)
    ensures KidIndex(f, name) == KidIndex(g, name)
    decreases f, g
  {
    hide Matches;
    if f.Attr? {
      IndexOfNames(f.rest, g, name);
    } else if g.Attr? {
      IndexOfNames(f, g.rest, name);
    } else if f.Sub? && g.Sub? {
      assert Order(f) == [f.name] + Order(f.rest) && Order(g) == [g.name] + Order(g.rest);
      assert Order(f)[0] == f.name && Order(g)[0] == g.name && Order(f)[1..] == Order(f.rest) && Order(g)[1..] == Order(g.rest);
      IndexOfNames(f.rest, g.rest, name);
    } else {
      assert Order(f) == [] || Order(g) == [];
      assert f.Nil? == g.Nil?;
    }
  }

  lemma {:induction false} PutKidPick(f: Tree, k: nat, g: Tree, i: nat)
    ensures Order(PutKid(f, k, g)) == Order(f)
    ensures Pick(PutKid(f, k, g), i) == if i == k && k < |Order(f)| then g else Pick(f, i)
    ensures forall n :: GetAttr(PutKid(f, k, g), n) == GetAttr(f, n)
    ensures forall h :: PutKid(PutKid(f, k, h), k, g) == PutKid(f, k, g)
    decreases f
  {
    match f
    case Nil =>
    case Attr(_, _, r) => PutKidPick(r, k, g, i);
    case Sub(_, b, r) =>
      if k > 0 {
        PutKidPick(r, k - 1, g, if i > 0 then i - 1 else 0);
      }
  }

  lemma {:induction false} PickBeside(f: Tree, name: bytes, v: bytes, k: nat)
    ensures Pick(ReplaceAttr(f, name, v), k) == Pick(f, k)
    decreases f
  {
    if f.Attr? {
      PickBeside(f.rest, name, v, k);
    }
  }

  // ---------- Positions ----------

  /** The node at a position below the first node of `top`. */
  function Spot(top: Items, pos: seq<nat>): Found
    decreases |pos|
  {
    if !top.Node? then Missing
    else if pos == [] then There(Hole, top.name, top.body, top.rest)
    else
      match Spot(top, pos[..|pos| - 1])
      case Missing => Missing
      case There(c, n, b, r) =>
        match Kid(b, pos[|pos| - 1])
        case Missing => Missing
        case There(d, m, e, q) => There(Compose(c, Inside(n, d, r)), m, e, q)
  }

  /** The content of the node at a position, empty when there is none. */
  function TreeAt(f: Tree, pos: seq<nat>): Tree
    decreases |pos|
  {
    if pos == [] then f else Pick(TreeAt(f, pos[..|pos| - 1]), pos[|pos| - 1])
  }

  predicate HasPos(f: Tree, pos: seq<nat>)
    decreases |pos|
  {
    pos == [] || (HasPos(f, pos[..|pos| - 1]) && pos[|pos| - 1] < |Order(TreeAt(f, pos[..|pos| - 1]))|)
  }

  /** The node at a position gets the content `g`. */
  function Plant(f: Tree, pos: seq<nat>, g: Tree): Tree
    decreases |pos|
  {
    if pos == [] then g
    else
      var up := pos[..|pos| - 1];
      Plant(f, up, PutKid(TreeAt(f, up), pos[|pos| - 1], g))
  }

  lemma Extended(pos: seq<nat>, k: nat)
    ensures (pos + [k])[..|pos + [k]| - 1] == pos && (pos + [k])[|pos + [k]| - 1] == k
  {
  }

  lemma {:induction false} SpotPlace(top: Items, pos: seq<nat>)
    requires Spot(top, pos).There?
    ensures var f := Spot(top, pos);
      && top == Plug(f.c, Node(f.name, f.body, f.rest))
      && forall b :: var x := Plug(f.c, Node(f.name, b, f.rest)); x.Node? && x.name == top.name && x.rest == top.rest
    decreases |pos|
  {
    hide Kid;
    if pos != [] {
      var up := pos[..|pos| - 1];
      SpotPlace(top, up);
      var f := Spot(top, up);
      var g := Kid(f.body, pos[|pos| - 1]);
      forall b
        ensures Plug(Spot(top, pos).c, Node(g.name, b, g.rest)) == Plug(f.c, Node(f.name, Plug(g.c, Node(g.name, b, g.rest)), f.rest))
      {
        ComposePlug(f.c, Inside(f.name, g.c, f.rest), Node(g.name, b, g.rest));
      }
    }
  }

  lemma {:induction false} AlikeSpot(x: Items, y: Items, pos: seq<nat>)
    requires Alike(x, y)
    ensures SameFound(Spot(x, pos), Spot(y, pos))
    decreases |pos|
  {
    hide Kid, HeadSize, Plug;
    if x.Node? && pos != [] {
      var up := pos[..|pos| - 1];
      AlikeSpot(x, y, up);
      var f, g := Spot(x, up), Spot(y, up);
      if f.There? {
        AlikeKid(f.body, g.body, pos[|pos| - 1]);
        var d, e := Kid(f.body, pos[|pos| - 1]), Kid(g.body, pos[|pos| - 1]);
        if d.There? {
          ComposePlug(f.c, Inside(f.name, d.c, f.rest), Done);
          ComposePlug(g.c, Inside(g.name, e.c, g.rest), Done);
        }
      }
    }
  }

  /** The node at a position means what the tree has there, and changing the one changes the other. */
  lemma {:induction false} MeanSpot(top: Items, pos: seq<nat>, t: bytes, b: Items)
    requires top.Node?
    ensures var f := Spot(top, pos);
      && (f.There? <==> HasPos(Mean(top.body, t), pos))
      && (f.There? ==>
           && TreeAt(Mean(top.body, t), pos) == Mean(f.body, t)
           && var x := Plug(f.c, Node(f.name, b, f.rest));
              x.Node? && Mean(x.body, t) == Plant(Mean(top.body, t), pos, Mean(b, t)))
    decreases |pos|
  {
    hide Kid, Mean, Order;
    if pos != [] {
      var up, k := pos[..|pos| - 1], pos[|pos| - 1];
      MeanSpot(top, up, t, b);
      var f := Spot(top, up);
      if f.There? {
        MeanKid(f.body, k, t);
        var g := Kid(f.body, k);
        if g.There? {
          ComposePlug(f.c, Inside(f.name, g.c, f.rest), Node(g.name, b, g.rest));
          MeanSpot(top, up, t, Plug(g.c, Node(g.name, b, g.rest)));
        }
      }
    }
  }

  /** What was put at a position is there, and was put there once. */
  lemma {:induction false} PlantedHere(f: Tree, pos: seq<nat>, g: Tree, h: Tree)
    requires HasPos(f, pos)
    ensures HasPos(Plant(f, pos, g), pos) && TreeAt(Plant(f, pos, g), pos) == g
    ensures Plant(Plant(f, pos, g), pos, h) == Plant(f, pos, h)
    ensures Plant(f, pos, TreeAt(f, pos)) == f
    decreases |pos|
  {
    hide PutKid, Pick, Order;
    if pos != [] {
      var up, k := pos[..|pos| - 1], pos[|pos| - 1];
      var x := TreeAt(f, up);
      PutKidPick(x, k, g, k);
      PutKidPick(x, k, h, k);
      PutKidSame(x, k);
      PlantedHere(f, up, PutKid(x, k, g), PutKid(x, k, h));
    }
  }

  lemma {:induction false} PutKidSame(f: Tree, k: nat)
    ensures PutKid(f, k, Pick(f, k)) == f
    decreases f
  {
    match f
    case Nil =>
    case Attr(_, _, r) => PutKidSame(r, k);
    case Sub(_, _, r) => if k > 0 { PutKidSame(r, k - 1); }
  }

  /** What lies below another child does not change. */
  lemma {:induction false} PlantedApart(f: Tree, pos: seq<nat>, g: Tree, other: seq<nat>)
    requires HasPos(f, pos) && other != [] && pos != [] && pos[0] != other[0]
    ensures TreeAt(Plant(f, pos, g), other) == TreeAt(f, other) && (HasPos(f, other) ==> HasPos(Plant(f, pos, g), other))
    ensures Order(Plant(f, pos, g)) == Order(f)
    decreases |pos|
  {
    hide PutKid, Pick, Order;
    var up, k := pos[..|pos| - 1], pos[|pos| - 1];
    if up == [] {
      assert Plant(f, pos, g) == PutKid(f, k, g);
      forall i: nat
        ensures i != k ==> Pick(PutKid(f, k, g), i) == Pick(f, i)
      {
        PutKidPick(f, k, g, i);
      }
      PutKidPick(f, k, g, k);
      KidsApart(f, PutKid(f, k, g), other, k);
    } else {
      PlantedApart(f, up, PutKid(TreeAt(f, up), k, g), other);
    }
  }

  /** Two trees with the same children but for the k-th. */
  ghost predicate SameBut(f: Tree, g: Tree, k: int) {
    Order(g) == Order(f) && forall i: nat :: i != k ==> Pick(g, i) == Pick(f, i)
  }

  lemma {:induction false} KidsApart(f: Tree, g: Tree, other: seq<nat>, k: int)
    requires other != [] && other[0] != k && SameBut(f, g, k)
    ensures TreeAt(g, other) == TreeAt(f, other) && (HasPos(f, other) ==> HasPos(g, other))
    decreases |other|
  {
    hide Pick, Order;
    var up := other[..|other| - 1];
    if up != [] {
      KidsApart(f, g, up, k);
    } else {
      assert TreeAt(f, up) == f && TreeAt(g, up) == g;
    }
  }
}
