/**
 Paths and ancestors: `fdt_get_path` and `fdt_supernode_atdepth_offset` walk the nodes in
 pre-order, and what they report is the inverse of `fdt_path_offset` and of entering a child.
 */
module Paths {
  import opened Options
  import opened Bytes
  import opened Structure
  import opened Walk
  import opened Read
  import opened Blob
  import opened Core

  // ---------- The stack of names in the path buffer ----------

  /** How many bytes the names take in the buffer, each with its slash. */
  function Room(names: seq<bytes>): nat {
    if names == [] then 0 else |names[0]| + 1 + Room(names[1..])
  }

  function Buf(names: seq<bytes>): (b: bytes)
    ensures |b| == Room(names)
  {
    if names == [] then [] else names[0] + [SLASH] + Buf(names[1..])
  }

  /** The names of the first `depth` levels. */
  function Upto(names: seq<bytes>, depth: nat): (r: seq<bytes>)
    ensures |r| <= depth && |r| <= |names|
  {
    if |names| > depth then names[..depth] else names
  }

  /** A node at `depth` drops the names of its elder relatives and adds its own if there is room. */
  function Visit(names: seq<bytes>, depth: nat, name: bytes, room: int): (r: seq<bytes>)
    ensures |r| <= depth + 1 && Upto(r, depth) == Upto(names, depth)
  {
    var st := Upto(names, depth);
    if |st| >= depth && Room(st) + |name| + 1 <= room then st + [name] else st
  }

  /** The path in the buffer: without the last slash, unless it is the root's. */
  function PathBytes(names: seq<bytes>): bytes {
    var b := Buf(names);
    if |b| > 1 then b[..|b| - 1] else b
  }

  /** The loop of `fdt_get_path` over the nodes still to visit. */
  function PathFold(s: bytes, list: seq<(int, int)>, target: int, names: seq<bytes>, room: int): (r: (int, seq<bytes>))
    requires forall i :: 0 <= i < |list| ==> list[i].1 >= 0 && NextTag(s, list[i].0).0 == BEGIN_NODE
    decreases |list|
  {
    if list == [] || list[0].0 > target then (-ERR_BADOFFSET, [])
    else
      var (o, depth) := list[0];
      var next := Visit(names, depth, NameAt(s, o), room);
      if o == target then (if |next| < depth + 1 then (-ERR_NOSPACE, []) else (0, next))
      else PathFold(s, list[1..], target, next, room)
  }

  /** Nodes of the block, at their depths. */
  predicate Nodes(s: bytes, list: seq<(int, int)>) {
    forall i :: 0 <= i < |list| ==> list[i].1 >= 0 && NextTag(s, list[i].0).0 == BEGIN_NODE
  }

  lemma {:induction false} PreorderNodes(s: bytes, it: Items, o: int, depth: int, rest: seq<(int, int)>)
    requires Holds(s, o, it) && o % 4 == 0 && depth >= 0 && Nodes(s, rest)
    ensures Nodes(s, Preorder(it, o, depth, rest))
    decreases it
  {
    hide Holds, EntryAt, HeadAt, TagAt, EntrySize, HeadSize, NextTag, Size;
    match it
    case Done =>
    case Flat(e, r) =>
      OpenFlat(s, o, e, r);
      PreorderNodes(s, r, o + EntrySize(e), depth, rest);
    case Node(name, body, r) =>
      OpenNode(s, o, name, body, r);
      ScanHead(s, o, name, depth);
      PreorderNodes(s, r, After(o, name, body), depth, rest);
      PreorderNodes(s, body, o + HeadSize(name), depth + 1, Preorder(r, After(o, name, body), depth, rest));
  }

  /** The verdict on the target at `depth`. */
  function Verdict(names: seq<bytes>, depth: nat): (int, seq<bytes>) {
    if |names| < depth + 1 then (-ERR_NOSPACE, []) else (0, names)
  }

  /** One node of the list is visited. */
  lemma FoldNode(s: bytes, o: int, depth: nat, list: seq<(int, int)>, target: int, names: seq<bytes>, room: int)
    requires Nodes(s, list) && NextTag(s, o).0 == BEGIN_NODE && o <= target
    ensures Nodes(s, [(o, depth)] + list)
    ensures var next := Visit(names, depth, NameAt(s, o), room);
      PathFold(s, [(o, depth)] + list, target, names, room) ==
        if o == target then Verdict(next, depth) else PathFold(s, list, target, next, room)
  {
    hide NextTag, Visit, NameAt;
    assert ([(o, depth)] + list)[1..] == list;
    assert ([(o, depth)] + list)[0] == (o, depth);
  }

  lemma PreorderNode(name: bytes, body: Items, r: Items, o: int, depth: int, rest: seq<(int, int)>)
    ensures Preorder(Node(name, body, r), o, depth, rest) ==
            [(o, depth + 1)] + Preorder(body, o + HeadSize(name), depth + 1, Preorder(r, After(o, name, body), depth, rest))
  {
    hide HeadSize;
  }

  /** Nodes before the target leave the names of the levels above them alone. */
  lemma {:induction false} FoldItems(s: bytes, it: Items, o: int, depth: nat, rest: seq<(int, int)>, target: int, names: seq<bytes>, room: int)
    returns (next: seq<bytes>)
    requires Holds(s, o, it) && o % 4 == 0 && Nodes(s, rest) && o + Size(it) <= target
    ensures Nodes(s, Preorder(it, o, depth, rest))
    ensures PathFold(s, Preorder(it, o, depth, rest), target, names, room) == PathFold(s, rest, target, next, room)
    ensures Upto(next, depth + 1) == Upto(names, depth + 1)
    decreases it
  {
    hide Holds, EntryAt, HeadAt, TagAt, EntrySize, HeadSize, NextTag, Size, NameAt, PathFold, Visit, Upto, Nodes;
    PreorderNodes(s, it, o, depth, rest);
    match it
    case Done => next := names;
    case Flat(e, r) =>
      OpenFlat(s, o, e, r);
      next := FoldItems(s, r, o + EntrySize(e), depth, rest, target, names, room);
    case Node(name, body, r) =>
      OpenNode(s, o, name, body, r);
      ScanHead(s, o, name, depth);
      var siblings := Preorder(r, After(o, name, body), depth, rest);
      PreorderNodes(s, r, After(o, name, body), depth, rest);
      PreorderNodes(s, body, o + HeadSize(name), depth + 1, siblings);
      PreorderNode(name, body, r, o, depth, rest);
      hide Preorder;
      NodeBounds(s, o, name, body, r, target);
      FoldNode(s, o, depth + 1, Preorder(body, o + HeadSize(name), depth + 1, siblings), target, names, room);
      var n1 := Visit(names, depth + 1, name, room);
      var n2 := FoldItems(s, body, o + HeadSize(name), depth + 1, siblings, target, n1, room);
      next := FoldItems(s, r, After(o, name, body), depth, rest, target, n2, room);
      UptoLess(n2, n1, depth + 2, depth + 1);
  }

  lemma NodeBounds(s: bytes, o: int, name: bytes, body: Items, r: Items, target: int)
    requires o + Size(Node(name, body, r)) <= target
    ensures o < target && o + HeadSize(name) + Size(body) <= target && After(o, name, body) + Size(r) <= target
  {
    hide HeadSize, Size;
    NodeSize(name, body, r);
  }

  lemma UptoLess(x: seq<bytes>, y: seq<bytes>, m: nat, n: nat)
    requires Upto(x, m) == Upto(y, m) && n <= m
    ensures Upto(x, n) == Upto(y, n)
  {
    assert Upto(Upto(x, m), n) == Upto(x, n);
    assert Upto(Upto(y, m), n) == Upto(y, n);
  }

  /** The names of the nodes around the open place, outermost first. */
  function Chain(c: Ctx): seq<bytes> {
    match c
    case Hole => []
    case AfterEntry(_, k) => Chain(k)
    case AfterNode(_, _, k) => Chain(k)
    case Inside(name, k, _) => [name] + Chain(k)
  }

  /** The names that visiting a chain of ancestors leaves. */
  function Grow(names: seq<bytes>, depth: nat, chain: seq<bytes>, room: int): seq<bytes>
    decreases |chain|
  {
    if chain == [] then names else Grow(Visit(names, depth, chain[0], room), depth + 1, chain[1..], room)
  }

  lemma VisitUpto(x: seq<bytes>, y: seq<bytes>, depth: nat, name: bytes, room: int)
    requires Upto(x, depth) == Upto(y, depth)
    ensures Visit(x, depth, name, room) == Visit(y, depth, name, room)
  {
  }

  lemma GrowUpto(x: seq<bytes>, y: seq<bytes>, depth: nat, chain: seq<bytes>, room: int)
    requires Upto(x, depth) == Upto(y, depth) && chain != []
    ensures Grow(x, depth, chain, room) == Grow(y, depth, chain, room)
  {
    VisitUpto(x, y, depth, chain[0], room);
  }

  lemma OffBehind(m: bytes, d: Items, k: Ctx)
    ensures Off(AfterNode(m, d, k)) == HeadSize(m) + Size(d) + TAGSIZE + Off(k) && HeadSize(m) > 0
    ensures Chain(AfterNode(m, d, k)) == Chain(k)
  {
    hide Size;
  }

  lemma OffInside(m: bytes, k: Ctx, q: Items)
    ensures Off(Inside(m, k, q)) == HeadSize(m) + Off(k) && HeadSize(m) > 0
  {
  }

  lemma GrowOne(names: seq<bytes>, depth: nat, m: bytes, chain: seq<bytes>, room: int)
    ensures Grow(names, depth, [m] + chain, room) == Grow(Visit(names, depth, m, room), depth + 1, chain, room)
    ensures Grow(names, depth, [], room) == names
  {
    hide Visit;
    assert ([m] + chain)[1..] == chain;
  }

  /** Walking to a node visits its ancestors; everything else on the way is forgotten. */
  lemma {:induction false} FoldCtx(s: bytes, c: Ctx, n: bytes, b: Items, r: Items, o: int, depth: nat, rest: seq<(int, int)>,
                                   names: seq<bytes>, room: int)
    requires Holds(s, o, Plug(c, Node(n, b, r))) && o % 4 == 0 && Nodes(s, rest)
    ensures var list := Preorder(Plug(c, Node(n, b, r)), o, depth, rest);
      && Nodes(s, list)
      && PathFold(s, list, o + Off(c), names, room) ==
           Verdict(Grow(names, depth + 1, Chain(c) + [n], room), depth + 1 + |Chain(c)|)
    decreases c
  {
    hide Holds, EntryAt, HeadAt, TagAt, EntrySize, HeadSize, NextTag, Size, NameAt, Visit, PathFold, Nodes, Upto, Verdict, Grow;
    var x := Node(n, b, r);
    PreorderNodes(s, Plug(c, x), o, depth, rest);
    match c
    case Hole =>
      OpenNode(s, o, n, b, r);
      ScanHead(s, o, n, depth);
      PreorderNodes(s, r, After(o, n, b), depth, rest);
      PreorderNodes(s, b, o + HeadSize(n), depth + 1, Preorder(r, After(o, n, b), depth, rest));
      PreorderNode(n, b, r, o, depth, rest);
      FoldNode(s, o, depth + 1, Preorder(b, o + HeadSize(n), depth + 1, Preorder(r, After(o, n, b), depth, rest)), o, names, room);
      assert Chain(c) + [n] == [n] + [];
      GrowOne(names, depth + 1, n, [], room);
      GrowOne(Visit(names, depth + 1, n, room), depth + 2, n, [], room);
    case AfterEntry(e, k) =>
      OpenFlat(s, o, e, Plug(k, x));
      FoldCtx(s, k, n, b, r, o + EntrySize(e), depth, rest, names, room);
    case AfterNode(m, d, k) =>
      OpenNode(s, o, m, d, Plug(k, x));
      ScanHead(s, o, m, depth);
      var siblings := Preorder(Plug(k, x), After(o, m, d), depth, rest);
      PreorderNodes(s, Plug(k, x), After(o, m, d), depth, rest);
      PreorderNodes(s, d, o + HeadSize(m), depth + 1, siblings);
      PreorderNode(m, d, Plug(k, x), o, depth, rest);
      hide Preorder;
      OffBehind(m, d, k);
      FoldNode(s, o, depth + 1, Preorder(d, o + HeadSize(m), depth + 1, siblings), o + Off(c), names, room);
      var n1 := Visit(names, depth + 1, m, room);
      var n2 := FoldItems(s, d, o + HeadSize(m), depth + 1, siblings, o + Off(c), n1, room);
      FoldCtx(s, k, n, b, r, After(o, m, d), depth, rest, n2, room);
      UptoLess(n2, n1, depth + 2, depth + 1);
      GrowUpto(n2, names, depth + 1, Chain(k) + [n], room);
    case Inside(m, k, q) =>
      OpenNode(s, o, m, Plug(k, x), q);
      ScanHead(s, o, m, depth);
      var siblings := Preorder(q, After(o, m, Plug(k, x)), depth, rest);
      PreorderNodes(s, q, After(o, m, Plug(k, x)), depth, rest);
      PreorderNodes(s, Plug(k, x), o + HeadSize(m), depth + 1, siblings);
      PreorderNode(m, Plug(k, x), q, o, depth, rest);
      hide Preorder;
      OffInside(m, k, q);
      FoldNode(s, o, depth + 1, Preorder(Plug(k, x), o + HeadSize(m), depth + 1, siblings), o + Off(c), names, room);
      var n1 := Visit(names, depth + 1, m, room);
      FoldCtx(s, k, n, b, r, o + HeadSize(m), depth + 1, siblings, n1, room);
      assert Chain(c) + [n] == [m] + (Chain(k) + [n]);
      GrowOne(names, depth + 1, m, Chain(k) + [n], room);
  }

  lemma {:induction false} RoomApp(x: seq<bytes>, y: seq<bytes>)
    ensures Room(x + y) == Room(x) + Room(y) && Buf(x + y) == Buf(x) + Buf(y)
    decreases |x|
  {
    if x == [] {
      assert x + y == y;
    } else {
      assert (x + y)[1..] == x[1..] + y;
      RoomApp(x[1..], y);
    }
  }

  /** Once a name did not fit, no deeper one is added. */
  lemma {:induction false} GrowStuck(names: seq<bytes>, depth: nat, chain: seq<bytes>, room: int)
    requires |names| < depth
    ensures Grow(names, depth, chain, room) == names
    decreases |chain|
  {
    if chain != [] {
      GrowStuck(names, depth + 1, chain[1..], room);
    }
  }

  /** The whole chain ends up in the buffer exactly if there is room for all of it. */
  lemma {:induction false} GrowFits(names: seq<bytes>, depth: nat, chain: seq<bytes>, room: int)
    requires |names| == depth && Room(names) <= room
    ensures var g := Grow(names, depth, chain, room);
            if Room(names + chain) <= room then g == names + chain else |g| < depth + |chain|
    decreases |chain|
  {
    if chain == [] {
      assert names + chain == names;
    } else {
      RoomApp(names, chain);
      var more := names + [chain[0]];
      RoomApp(names, [chain[0]]);
      assert [chain[0]] + chain[1..] == chain && more + chain[1..] == names + chain;
      RoomApp(more, chain[1..]);
      if Room(more) <= room {
        GrowFits(more, depth + 1, chain[1..], room);
      } else {
        GrowStuck(names, depth + 1, chain[1..], room);
      }
    }
  }

  /** The nodes of a block whose root is `n` with content `b`. */
  function Visits(n: bytes, b: Items): seq<(int, int)> {
    [(0, 0)] + Preorder(b, HeadSize(n), 0, [])
  }

  lemma VisitsNodes(s: bytes, n: bytes, b: Items, r: Items)
    requires Holds(s, 0, Node(n, b, r))
    ensures Nodes(s, Visits(n, b)) && NextTag(s, 0) == (BEGIN_NODE, HeadSize(n)) && NameAt(s, 0) == n
    ensures Holds(s, HeadSize(n), b) && HeadSize(n) % 4 == 0
  {
    hide Holds, HeadAt, TagAt, HeadSize, NextTag, Size, NameAt;
    OpenNode(s, 0, n, b, r);
    ScanHead(s, 0, n, 0);
    PreorderNodes(s, b, HeadSize(n), 0, []);
  }

  /** The walk to a node leaves the names from the root down to it, or there is no room for them all. */
  lemma FoldOk(s: bytes, root: bytes, c: Ctx, n: bytes, b: Items, r: Items, more: Items, room: int)
    requires Holds(s, 0, Node(root, Plug(c, Node(n, b, r)), more))
    ensures var list, names := Visits(root, Plug(c, Node(n, b, r))), [root] + Chain(c) + [n];
      && Nodes(s, list)
      && PathFold(s, list, HeadSize(root) + Off(c), [], room) == if Room(names) <= room then (0, names) else (-ERR_NOSPACE, [])
  {
    hide Holds, HeadAt, TagAt, HeadSize, NextTag, Size, NameAt, PathFold, Preorder, Room, Visit, Grow, Plug, Chain;
    var x := Plug(c, Node(n, b, r));
    VisitsNodes(s, root, x, more);
    PreorderNodes(s, x, HeadSize(root), 0, []);
    RootFirst(root);
    FoldNode(s, 0, 0, Preorder(x, HeadSize(root), 0, []), HeadSize(root) + Off(c), [], room);
    FoldCtx(s, c, n, b, r, HeadSize(root), 0, [], Visit([], 0, root, room), room);
    var chain := Chain(c) + [n];
    assert [root] + Chain(c) + [n] == [root] + chain;
    GrowOne([], 0, root, chain, room);
    GrownAll(root, chain, room);
  }

  /** From an empty buffer the whole chain is added, or the target's name is missing. */
  lemma GrownAll(root: bytes, chain: seq<bytes>, room: int)
    ensures Verdict(Grow(Visit([], 0, root, room), 1, chain, room), |chain|) ==
              if Room([root] + chain) <= room then (0, [root] + chain) else (-ERR_NOSPACE, [])
  {
    hide Grow, Visit, Room;
    GrowOne([], 0, root, chain, room);
    assert [] + ([root] + chain) == [root] + chain;
    if room >= 0 {
      NoRoom();
      GrowFits([], 0, [root] + chain, room);
    } else {
      NothingFits(root, chain, room);
    }
  }

  lemma RootFirst(root: bytes)
    ensures HeadSize(root) > 0
  {
  }

  lemma NoRoom()
    ensures Room([]) == 0
  {
  }

  lemma NothingFits(root: bytes, chain: seq<bytes>, room: int)
    requires room < 0
    ensures Grow(Visit([], 0, root, room), 1, chain, room) == [] && Room([root] + chain) > room
  {
    GrowStuck([], 1, chain, room);
  }

  // ---------- The inverse ----------

  /** A name that can stand as one component of a path. */
  predicate Plain(name: bytes) {
    name != [] && SLASH !in name
  }

  predicate AllPlain(names: seq<bytes>) {
    forall i :: 0 <= i < |names| ==> Plain(names[i])
  }

  /** The name of the outermost node on the way to a node `n` at the open place. */
  function Top(c: Ctx, n: bytes): bytes {
    match c
    case Hole => n
    case AfterEntry(_, k) => Top(k, n)
    case AfterNode(_, _, k) => Top(k, n)
    case Inside(m, _, _) => m
  }

  /** On no level does an elder sibling answer to the name that leads on. */
  predicate NoElder(c: Ctx, n: bytes) {
    match c
    case Hole => true
    case AfterEntry(_, k) => NoElder(k, n)
    case AfterNode(m, _, k) => !Matches(m, Top(k, n)) && NoElder(k, n)
    case Inside(_, k, _) => NoElder(k, n)
  }

  /** The context of the outermost node around the open place, and what is inside it. */
  function Outer(c: Ctx): (r: (Ctx, bytes, Ctx, Items))
    requires Chain(c) != []
    ensures c == Compose(r.0, Inside(r.1, r.2, r.3)) && Chain(r.0) == []
    ensures Chain(c) == [r.1] + Chain(r.2)
  {
    match c
    case AfterEntry(e, k) => var (p, m, d, q) := Outer(k); (AfterEntry(e, p), m, d, q)
    case AfterNode(n, b, k) => var (p, m, d, q) := Outer(k); (AfterNode(n, b, p), m, d, q)
    case Inside(name, k, r) => (Hole, name, k, r)
  }

  lemma {:induction false} NoElderOuter(p: Ctx, m: bytes, d: Ctx, q: Items, n: bytes)
    requires Chain(p) == []
    ensures NoElder(Compose(p, Inside(m, d, q)), n) <==> NoElder(p, m) && NoElder(d, n)
    ensures Top(Compose(p, Inside(m, d, q)), n) == m == Top(p, m)
    decreases p
  {
    hide Matches;
    match p
    case Hole =>
    case AfterEntry(_, k) => NoElderOuter(k, m, d, q, n);
    case AfterNode(_, _, k) => NoElderOuter(k, m, d, q, n);
  }

  lemma {:induction false} TopHere(c: Ctx, n: bytes)
    requires Chain(c) == []
    ensures Top(c, n) == n
    decreases c
  {
    match c
    case Hole =>
    case AfterEntry(_, k) => TopHere(k, n);
    case AfterNode(_, _, k) => TopHere(k, n);
  }

  /** A child is found by its own name, or an elder one that answers to it is. */
  lemma {:induction false} ChildItself(c: Ctx, n: bytes, b: Items, r: Items)
    requires Chain(c) == []
    ensures var f := ChildByName(Plug(c, Node(n, b, r)), n);
            if NoElder(c, n) then f == There(c, n, b, r)
            else f.There? && Off(f.c) + Size(Node(f.name, f.body, Done)) <= Off(c)
    decreases c
  {
    match c
    case Hole =>
    case AfterEntry(e, k) => ChildItself(k, n, b, r);
    case AfterNode(m, d, k) =>
      TopHere(k, n);
      if !Matches(m, n) {
        ChildItself(k, n, b, r);
      }
  }

  /** A path leads to the node it starts from, or to one inside it. */
  lemma {:induction false} ByPathWithin(c: Ctx, n: bytes, b: Items, r: Items, path: bytes)
    ensures var f := ByPath(c, n, b, r, path);
            f.There? ==> Off(c) <= Off(f.c) < Off(c) + Size(Node(n, b, Done))
    decreases |path|
  {
    hide ChildByName, Size, Plug;
    NodeSize(n, b, Done);
    if path == [] {
    } else if path[0] == SLASH {
      ByPathWithin(c, n, b, r, path[1..]);
    } else {
      var q := NextSlash(path, 0);
      var f := ChildByName(b, path[..q]);
      if f.There? {
        ComposePlug(c, Inside(n, f.c, r), Done);
        ChildSize(b, path[..q]);
        ByPathWithin(Compose(c, Inside(n, f.c, r)), f.name, f.body, f.rest, path[q..]);
      }
    }
  }

  lemma ChildSize(b: Items, name: bytes)
    requires ChildByName(b, name).There?
    ensures var f := ChildByName(b, name); Off(f.c) + Size(Node(f.name, f.body, Done)) <= Size(b)
  {
    hide ChildByName, Plug;
    var f := ChildByName(b, name);
    PlugSize(f.c, Node(f.name, f.body, f.rest));
  }

  /** Each name with a slash in front. */
  function Slashed(names: seq<bytes>): bytes {
    if names == [] then [] else [SLASH] + names[0] + Slashed(names[1..])
  }

  /** A component ends where the next slash is. */
  lemma {:induction false} NextComponent(name: bytes, rest: bytes, i: nat)
    requires SLASH !in name && (rest == [] || rest[0] == SLASH) && i <= |name|
    ensures NextSlash(name + rest, i) == |name|
    decreases |name| - i
  {
    if i < |name| {
      assert (name + rest)[i] == name[i];
      NextComponent(name, rest, i + 1);
    }
  }

  lemma SlashedCons(name: bytes, names: seq<bytes>)
    ensures Slashed([name] + names) == [SLASH] + (name + Slashed(names))
  {
    assert ([name] + names)[1..] == names;
  }

  /** One component of a path is followed. */
  lemma PathStep(up: Ctx, root: bytes, x: Items, more: Items, name: bytes, rest: bytes)
    requires Plain(name) && (rest == [] || rest[0] == SLASH)
    ensures var f := ChildByName(x, name);
            ByPath(up, root, x, more, [SLASH] + (name + rest)) ==
              if f.Missing? then Missing else ByPath(Compose(up, Inside(root, f.c, more)), f.name, f.body, f.rest, rest)
  {
    hide ChildByName;
    var path := name + rest;
    assert ([SLASH] + path)[1..] == path;
    NextComponent(name, rest, 0);
    assert path[..|name|] == name && path[|name|..] == rest;
  }

  lemma ComposeAssoc(c: Ctx, d: Ctx, e: Ctx)
    ensures Compose(Compose(c, d), e) == Compose(c, Compose(d, e))
  {
  }

  /**
   Following the names of the nodes around a node, and its own, leads to it when no elder
   sibling answers on the way, and nowhere or to a node further in front otherwise.
   */
  lemma {:induction false} ByPathReturns(up: Ctx, root: bytes, more: Items, c: Ctx, n: bytes, b: Items, r: Items)
    requires AllPlain(Chain(c) + [n])
    ensures var f := ByPath(up, root, Plug(c, Node(n, b, r)), more, Slashed(Chain(c) + [n]));
            if NoElder(c, n) then f == There(Compose(up, Inside(root, c, more)), n, b, r)
            else f.There? ==> Off(f.c) < Off(up) + HeadSize(root) + Off(c)
    decreases |Chain(c)|
  {
    hide ChildByName, Matches, ByPath, NoElder, Slashed, Plug, Size, HeadSize, Plain;
    var x := Node(n, b, r);
    if Chain(c) == [] {
      ChildItself(c, n, b, r);
      NoSlashes();
      assert Chain(c) + [n] == [n] + [];
      PlainTail(n, []);
      SlashedCons(n, []);
      PathStep(up, root, Plug(c, x), more, n, []);
      var f := ChildByName(Plug(c, x), n);
      ByPathHere(Compose(up, Inside(root, f.c, more)), f.name, f.body, f.rest);
      ComposePlug(up, Inside(root, f.c, more), Done);
      NodeSize(f.name, f.body, Done);
    } else {
      var (p, m, d, q) := Outer(c);
      var rest := Slashed(Chain(d) + [n]);
      assert Chain(c) + [n] == [m] + (Chain(d) + [n]);
      PlainTail(m, Chain(d) + [n]);
      ComposePlug(p, Inside(m, d, q), x);
      NoElderOuter(p, m, d, q, n);
      ChildItself(p, m, Plug(d, x), q);
      SlashedCons(m, Chain(d) + [n]);
      SlashedStart(Chain(d) + [n]);
      PathStep(up, root, Plug(c, x), more, m, rest);
      PlugInside(m, d, x, q);
      var f := ChildByName(Plug(c, x), m);
      ComposePlug(up, Inside(root, f.c, more), Done);
      if NoElder(p, m) {
        ByPathReturns(Compose(up, Inside(root, p, more)), m, q, d, n, b, r);
        ComposeAssoc(up, Inside(root, p, more), Inside(m, d, q));
        assert Compose(Inside(root, p, more), Inside(m, d, q)) == Inside(root, c, more);
      } else {
        ByPathWithin(Compose(up, Inside(root, f.c, more)), f.name, f.body, f.rest, rest);
      }
    }
  }

  lemma PlugInside(m: bytes, d: Ctx, x: Items, q: Items)
    ensures Plug(Inside(m, d, q), x) == Node(m, Plug(d, x), q)
  {
  }

  lemma PlainTail(m: bytes, names: seq<bytes>)
    requires AllPlain([m] + names)
    ensures Plain(m) && AllPlain(names)
  {
    hide Plain;
    var all := [m] + names;
    assert all[0] == m;
    forall i | 0 <= i < |names|
      ensures Plain(names[i])
    {
      assert all[i + 1] == names[i];
    }
  }

  lemma NoSlashes()
    ensures Slashed([]) == []
  {
  }

  lemma SlashedStart(names: seq<bytes>)
    requires names != []
    ensures Slashed(names) != [] && Slashed(names)[0] == SLASH
  {
  }

  lemma ByPathHere(c: Ctx, n: bytes, b: Items, r: Items)
    ensures ByPath(c, n, b, r, []) == There(c, n, b, r)
  {
  }

  /** The path bytes of a root without a name. */
  lemma {:induction false} PathSlashed(names: seq<bytes>)
    requires names != []
    ensures Buf([[]] + names) == Slashed(names) + [SLASH]
    decreases |names|
  {
    assert ([[]] + names)[1..] == names;
    if |names| > 1 {
      PathSlashed(names[1..]);
      assert ([[]] + names[1..])[1..] == names[1..];
      assert Buf([[]] + names[1..]) == [SLASH] + Buf(names[1..]);
      assert Buf([[]] + names) == [SLASH] + names[0] + ([SLASH] + Buf(names[1..]));
    } else {
      assert names[1..] == [];
    }
  }

  /** A node "a" behind its sibling "a@1": the path "/a" leads to the sibling. */
  lemma ElderAnswers()
    ensures var a, a1 := [0x61], [0x61, AT, 0x31];
            var c := AfterNode(a1, Done, Hole);
      && AllPlain(Chain(c) + [a]) && !NoElder(c, a)
      && ByPath(Hole, [], Plug(c, Node(a, Done, Done)), Done, [SLASH] + a) ==
           There(Inside([], Hole, Done), a1, Done, Node(a, Done, Done))
  {
    var a, a1 := [0x61], [0x61, AT, 0x31];
    var c := AfterNode(a1, Done, Hole);
    assert Matches(a1, a);
    assert a + [] == a;
    PathStep(Hole, [], Plug(c, Node(a, Done, Done)), Done, a, []);
    ByPathHere(Inside([], Hole, Done), a1, Done, Node(a, Done, Done));
  }

  // ---------- Ancestors ----------

  /** The loop of `fdt_supernode_atdepth_offset`: the last node at depth `sd` up to the target, and the target's depth. */
  function SuperFold(list: seq<(int, int)>, target: int, sd: int, found: int): (int, int)
    decreases |list|
  {
    if list == [] || list[0].0 > target then (-ERR_BADOFFSET, 0)
    else
      var (o, depth) := list[0];
      var next := if depth == sd then o else found;
      if o == target then (if sd > depth then -ERR_NOTFOUND else next, depth)
      else SuperFold(list[1..], target, sd, next)
  }

  /** `fdt_parent_offset`: the depth first, then the last node one level up. */
  function ParentFold(list: seq<(int, int)>, target: int): int {
    var (err, depth) := SuperFold(list, target, 0, -ERR_INTERNAL);
    if err != 0 then (if err < 0 then err else -ERR_INTERNAL)
    else if depth - 1 < 0 then -ERR_NOTFOUND
    else SuperFold(list, target, depth - 1, -ERR_INTERNAL).0
  }

  lemma SuperNode(o: int, depth: int, list: seq<(int, int)>, target: int, sd: int, found: int)
    requires o <= target
    ensures var next := if depth == sd then o else found;
      SuperFold([(o, depth)] + list, target, sd, found) ==
        if o == target then (if sd > depth then -ERR_NOTFOUND else next, depth) else SuperFold(list, target, sd, next)
  {
    assert ([(o, depth)] + list)[1..] == list && ([(o, depth)] + list)[0] == (o, depth);
  }

  /** Nodes at `depth + 1` and below, before the target, matter only to deeper searches. */
  lemma {:induction false} SuperItems(s: bytes, it: Items, o: int, depth: nat, rest: seq<(int, int)>, target: int, sd: int, found: int)
    returns (next: int)
    requires Holds(s, o, it) && o % 4 == 0 && o + Size(it) <= target
    ensures SuperFold(Preorder(it, o, depth, rest), target, sd, found) == SuperFold(rest, target, sd, next)
    ensures sd <= depth ==> next == found
    decreases it
  {
    hide Holds, EntryAt, HeadAt, TagAt, EntrySize, HeadSize, NextTag, Size, SuperFold;
    match it
    case Done => next := found;
    case Flat(e, r) =>
      OpenFlat(s, o, e, r);
      next := SuperItems(s, r, o + EntrySize(e), depth, rest, target, sd, found);
    case Node(name, body, r) =>
      OpenNode(s, o, name, body, r);
      NodeBounds(s, o, name, body, r, target);
      PreorderNode(name, body, r, o, depth, rest);
      var siblings := Preorder(r, After(o, name, body), depth, rest);
      SuperNode(o, depth + 1, Preorder(body, o + HeadSize(name), depth + 1, siblings), target, sd, found);
      next := SuperItems(s, body, o + HeadSize(name), depth + 1, siblings, target, sd, if depth + 1 == sd then o else found);
      next := SuperItems(s, r, After(o, name, body), depth, rest, target, sd, next);
  }

  /** The offset of the `k`-th node around the open place, counted from the outside; the open place comes last. */
  function Ancestor(c: Ctx, o: int, k: nat): int
    requires k <= |Chain(c)|
  {
    match c
    case Hole => o
    case AfterEntry(e, d) => Ancestor(d, o + EntrySize(e), k)
    case AfterNode(m, b, d) => Ancestor(d, After(o, m, b), k)
    case Inside(m, d, _) => if k == 0 then o else Ancestor(d, o + HeadSize(m), k - 1)
  }

  /** Searching for a level on the way to a node finds the node's ancestor there. */
  lemma {:induction false} SuperCtx(s: bytes, c: Ctx, n: bytes, b: Items, r: Items, o: int, depth: nat, rest: seq<(int, int)>, sd: int, found: int)
    requires Holds(s, o, Plug(c, Node(n, b, r))) && o % 4 == 0
    ensures var last := depth + 1 + |Chain(c)|;
      SuperFold(Preorder(Plug(c, Node(n, b, r)), o, depth, rest), o + Off(c), sd, found) ==
        (if sd > last then -ERR_NOTFOUND else if sd <= depth then found else Ancestor(c, o, sd - depth - 1), last)
    decreases c
  {
    hide Holds, EntryAt, HeadAt, TagAt, EntrySize, HeadSize, NextTag, Size, SuperFold;
    var x := Node(n, b, r);
    match c
    case Hole =>
      PreorderNode(n, b, r, o, depth, rest);
      SuperNode(o, depth + 1, Preorder(b, o + HeadSize(n), depth + 1, Preorder(r, After(o, n, b), depth, rest)), o, sd, found);
    case AfterEntry(e, k) =>
      OpenFlat(s, o, e, Plug(k, x));
      SuperCtx(s, k, n, b, r, o + EntrySize(e), depth, rest, sd, found);
    case AfterNode(m, d, k) =>
      OpenNode(s, o, m, d, Plug(k, x));
      PreorderNode(m, d, Plug(k, x), o, depth, rest);
      OffBehind(m, d, k);
      var siblings := Preorder(Plug(k, x), After(o, m, d), depth, rest);
      SuperNode(o, depth + 1, Preorder(d, o + HeadSize(m), depth + 1, siblings), o + Off(c), sd, found);
      var f := SuperItems(s, d, o + HeadSize(m), depth + 1, siblings, o + Off(c), sd, if depth + 1 == sd then o else found);
      SuperCtx(s, k, n, b, r, After(o, m, d), depth, rest, sd, f);
    case Inside(m, k, q) =>
      OpenNode(s, o, m, Plug(k, x), q);
      PreorderNode(m, Plug(k, x), q, o, depth, rest);
      OffInside(m, k, q);
      var siblings := Preorder(q, After(o, m, Plug(k, x)), depth, rest);
      SuperNode(o, depth + 1, Preorder(Plug(k, x), o + HeadSize(m), depth + 1, siblings), o + Off(c), sd, found);
      SuperCtx(s, k, n, b, r, o + HeadSize(m), depth + 1, siblings, sd, if depth + 1 == sd then o else found);
  }

  /** The innermost node around the open place. */
  function Enclosing(c: Ctx, o: int, outer: int): int {
    match c
    case Hole => outer
    case AfterEntry(e, d) => Enclosing(d, o + EntrySize(e), outer)
    case AfterNode(m, b, d) => Enclosing(d, After(o, m, b), outer)
    case Inside(m, d, _) => Enclosing(d, o + HeadSize(m), o)
  }

  lemma {:induction false} EnclosingIs(c: Ctx, o: int, outer: int)
    ensures Enclosing(c, o, outer) == if |Chain(c)| == 0 then outer else Ancestor(c, o, |Chain(c)| - 1)
    decreases c
  {
    match c
    case Hole =>
    case AfterEntry(e, d) => EnclosingIs(d, o + EntrySize(e), outer);
    case AfterNode(m, b, d) => EnclosingIs(d, After(o, m, b), outer);
    case Inside(m, d, _) => EnclosingIs(d, o + HeadSize(m), o);
  }

  lemma ParentFoldOk(s: bytes, root: bytes, c: Ctx, n: bytes, b: Items, r: Items, more: Items)
    requires Holds(s, 0, Node(root, Plug(c, Node(n, b, r)), more))
    ensures ParentFold(Visits(root, Plug(c, Node(n, b, r))), HeadSize(root) + Off(c)) == Enclosing(c, HeadSize(root), 0)
  {
    hide Holds, HeadSize, Preorder, SuperFold;
    var x := Plug(c, Node(n, b, r));
    VisitsNodes(s, root, x, more);
    RootFirst(root);
    var list := Preorder(x, HeadSize(root), 0, []);
    var target := HeadSize(root) + Off(c);
    var d := 1 + |Chain(c)|;
    SuperNode(0, 0, list, target, 0, -ERR_INTERNAL);
    SuperCtx(s, c, n, b, r, HeadSize(root), 0, [], 0, 0);
    SuperNode(0, 0, list, target, d - 1, -ERR_INTERNAL);
    SuperCtx(s, c, n, b, r, HeadSize(root), 0, [], d - 1, if d - 1 == 0 then 0 else -ERR_INTERNAL);
    EnclosingIs(c, HeadSize(root), 0);
  }

  lemma RootParent(root: bytes, b: Items)
    ensures ParentFold(Visits(root, b), 0) == -ERR_NOTFOUND
  {
    hide Preorder;
    SuperNode(0, 0, Preorder(b, HeadSize(root), 0, []), 0, 0, -ERR_INTERNAL);
  }

  /** Where each direct child stands among the items. */
  lemma {:induction false} ChildPlace(it: Items, o: int, i: nat) returns (c: Ctx, n: bytes, b: Items, r: Items)
    requires i < |ChildOffsets(it, o)|
    ensures it == Plug(c, Node(n, b, r)) && ChildOffsets(it, o)[i] == o + Off(c) && Chain(c) == []
    decreases it
  {
    match it
    case Flat(e, k) =>
      c, n, b, r := ChildPlace(k, o + EntrySize(e), i);
      c := AfterEntry(e, c);
    case Node(m, d, k) =>
      if i == 0 {
        c, n, b, r := Hole, m, d, k;
      } else {
        c, n, b, r := ChildPlace(k, After(o, m, d), i - 1);
        c := AfterNode(m, d, c);
      }
  }

  lemma {:induction false} EnclosingInner(c: Ctx, m: bytes, k: Ctx, q: Items, o: int, outer: int)
    requires Chain(k) == []
    ensures Enclosing(Compose(c, Inside(m, k, q)), o, outer) == o + Off(c)
    ensures Off(Compose(c, Inside(m, k, q))) == Off(c) + HeadSize(m) + Off(k)
    decreases c
  {
    hide HeadSize, Size;
    match c
    case Hole => EnclosingIs(k, o + HeadSize(m), o);
    case AfterEntry(e, d) => EnclosingInner(d, m, k, q, o + EntrySize(e), outer);
    case AfterNode(x, b, d) => EnclosingInner(d, m, k, q, After(o, x, b), outer);
    case Inside(x, d, _) => EnclosingInner(d, m, k, q, o + HeadSize(x), o);
  }
}
