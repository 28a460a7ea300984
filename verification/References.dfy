/**
 The references of an overlay to its own phandles (fdt_overlay.c), moved along with these:
 what the lists in `__local_fixups__` make of a tree when they stay as they are. `Fixups` has
 the code, which reads each list from the blob that it changes.
 */
module References {
  import opened Options
  import opened Bytes
  import opened Blob
  import opened Buffer
  import opened Walk
  import opened Read
  import opened Meaning
  import opened Merging
  import opened Phandles

  // ---------- References in a property ----------

  /** The word at `p` increased, in 32 bits. */
  function Bumped(val: bytes, p: int, delta: u32): (r: bytes)
    requires 0 <= p && p + 4 <= |val|
    ensures |r| == |val|
  {
    Put(val, p, Enc32(Wrap(U32(val, p) + delta)))
  }

  /** The `j`-th word of a list of places. */
  function Cell(fix: bytes, j: nat): u32
    requires 4 * j + 4 <= |fix|
  {
    U32(fix, 4 * j)
  }

  /** The places in a value that `fix` lists, from its `i`-th word on, increased one after the other. */
  function BumpAll(val: bytes, fix: bytes, i: nat, delta: u32): Option<bytes>
    decreases |fix| - 4 * i
  {
    if 4 * i + 4 > |fix| then Some(val)
    else if Cell(fix, i) + 4 > |val| then None
    else BumpAll(Bumped(val, Cell(fix, i), delta), fix, i + 1, delta)
  }

  /** It fails exactly when one of the places does not lie in the value. */
  lemma {:induction false} BumpsIff(val: bytes, fix: bytes, i: nat, delta: u32)
    ensures BumpAll(val, fix, i, delta).Some? <==>
            forall j: nat {:trigger Cell(fix, j)} :: i <= j && 4 * j + 4 <= |fix| ==> Cell(fix, j) + 4 <= |val|
    decreases |fix| - 4 * i
  {
    hide Bumped, Cell;
    if 4 * i + 4 <= |fix| && Cell(fix, i) + 4 <= |val| {
      BumpsIff(Bumped(val, Cell(fix, i), delta), fix, i + 1, delta);
    }
  }

  /** The places do not overlap. */
  ghost predicate Apart(fix: bytes) {
    forall i: nat, j: nat {:trigger Cell(fix, i), Cell(fix, j)} :: i < j && 4 * j + 4 <= |fix| ==>
      Cell(fix, i) + 4 <= Cell(fix, j) || Cell(fix, j) + 4 <= Cell(fix, i)
  }

  /** Byte `k` belongs to a place listed from the `i`-th word on. */
  ghost predicate Covers(fix: bytes, i: nat, k: int) {
    exists j: nat {:trigger Cell(fix, j)} :: i <= j && 4 * j + 4 <= |fix| && Cell(fix, j) <= k < Cell(fix, j) + 4
  }

  lemma BumpedWord(val: bytes, p: int, delta: u32, q: int)
    requires 0 <= p && p + 4 <= |val| && 0 <= q && q + 4 <= |val|
    ensures q == p ==> U32(Bumped(val, p, delta), q) == Wrap(U32(val, p) + delta)
    ensures q + 4 <= p || p + 4 <= q ==> U32(Bumped(val, p, delta), q) == U32(val, q)
    ensures forall k :: 0 <= k < |val| && !(p <= k < p + 4) ==> Bumped(val, p, delta)[k] == val[k]
  {
    hide Be32, Enc32;
    if q == p || q + 4 <= p || p + 4 <= q {
      PutWord(val, p, Wrap(U32(val, p) + delta), q);
    }
  }

  /** Each listed reference grows by `delta`, every other byte stays. */
  lemma {:induction false} BumpedRest(val: bytes, fix: bytes, i: nat, delta: u32)
    requires BumpAll(val, fix, i, delta).Some? && Apart(fix)
    ensures var r := BumpAll(val, fix, i, delta).value;
      && |r| == |val|
      && (forall k :: 0 <= k < |val| && !Covers(fix, i, k) ==> r[k] == val[k])
      && (forall j: nat {:trigger Cell(fix, j)} :: i <= j && 4 * j + 4 <= |fix| ==>
            var p := Cell(fix, j);
            p + 4 <= |val| && U32(r, p) == Wrap(U32(val, p) + delta))
    decreases |fix| - 4 * i
  {
    hide Be32, Bumped, U32, Cell;
    if 4 * i + 4 <= |fix| {
      var p := Cell(fix, i);
      var next := Bumped(val, p, delta);
      BumpedRest(next, fix, i + 1, delta);
      var r := BumpAll(val, fix, i, delta).value;
      BumpedWord(val, p, delta, p);
      forall k: int | p <= k < p + 4
        ensures !Covers(fix, i + 1, k) && Covers(fix, i, k)
      {
      }
      forall k | 0 <= k < |val| && !Covers(fix, i, k)
        ensures r[k] == val[k]
      {
        assert !Covers(fix, i + 1, k);
      }
      SameWord(r, next, p);
      forall j: nat | i < j && 4 * j + 4 <= |fix|
        ensures var q := Cell(fix, j); q + 4 <= |val| && U32(r, q) == Wrap(U32(val, q) + delta)
      {
        BumpedWord(val, p, delta, Cell(fix, j));
      }
    }
  }

  lemma SameWord(r: bytes, s: bytes, p: int)
    requires |r| == |s| && 0 <= p && p + 4 <= |r| && forall k :: p <= k < p + 4 ==> r[k] == s[k]
    ensures U32(r, p) == U32(s, p)
  {
    hide Be32;
    assert r[p..p + 4] == s[p..p + 4];
  }

  /** One word at place 0 of a value of four bytes. */
  lemma OneCell(v: u32, delta: u32)
    ensures BumpAll(Enc32(v), Enc32(0), 0, delta) == Some(Enc32(Wrap(v + delta)))
    ensures Bumped(Enc32(v), 0, delta) == Enc32(Wrap(v + delta))
  {
    hide Enc32, Be32;
    DecodeEncode32(v);
    DecodeEncode32(0);
    WholeValue(Enc32(v), Enc32(Wrap(v + delta)));
    assert Enc32(v)[0..4] == Enc32(v) && Enc32(0)[0..4] == Enc32(0);
    assert BumpAll(Bumped(Enc32(v), 0, delta), Enc32(0), 1, delta) == Some(Bumped(Enc32(v), 0, delta));
  }

  lemma {:induction false} ReplacedTwice(f: Tree, name: bytes, v: bytes, w: bytes)
    ensures ReplaceAttr(ReplaceAttr(f, name, v), name, w) == ReplaceAttr(f, name, w)
    ensures GetAttr(f, name) == Some(v) ==> ReplaceAttr(f, name, v) == f
    decreases f
  {
    if f.Attr? && f.name != name {
      ReplacedTwice(f.rest, name, v, w);
    }
  }

  // ---------- References in a whole tree ----------

  /** The properties that `fix` lists, one after the other. */
  function UpdateAttrs(tree: Tree, fix: Tree, delta: u32): Option<Tree>
    decreases fix
  {
    match fix
    case Attr(n, places, r) =>
      var val := GetAttr(tree, n);
      if |places| % 4 != 0 || val.None? then None
      else
        (match BumpAll(val.value, places, 0, delta)
         case None => None
         case Some(v) => UpdateAttrs(ReplaceAttr(tree, n, v), r, delta))
    case _ => Some(tree)
  }

  /** The children, one after the other. */
  function UpdateKids(tree: Tree, fix: Tree, delta: u32): Option<Tree>
    decreases fix, 0
  {
    match fix
    case Nil => Some(tree)
    case Attr(_, _, r) => UpdateKids(tree, r, delta)
    case Sub(n, b, r) =>
      var child := GetChild(tree, n);
      if child.None? then None
      else
        match UpdateRefs(child.value, b, delta)
        case None => None
        case Some(c) => UpdateKids(ReplaceChild(tree, n, c), r, delta)
  }

  /** The references that `fix` lists, in the node with content `tree`; `None` when a list does not fit it. */
  function UpdateRefs(tree: Tree, fix: Tree, delta: u32): Option<Tree>
    decreases fix, 1
  {
    match UpdateAttrs(tree, fix, delta)
    case None => None
    case Some(g) => UpdateKids(g, fix, delta)
  }

  // ---------- What becomes of each property ----------

  /** The name occurs at most once among the properties in front of the first child. */
  predicate Once(f: Tree, name: bytes) {
    f.Attr? ==> if f.name == name then GetAttr(f.rest, name).None? else Once(f.rest, name)
  }

  /** What a listed property becomes. */
  function Updated(val: Option<bytes>, places: Option<bytes>, delta: u32): Option<bytes> {
    if val.None? || places.None? then val else BumpAll(val.value, places.value, 0, delta)
  }

  lemma {:induction false} AttrsUpdated(tree: Tree, fix: Tree, delta: u32, name: bytes)
    requires UpdateAttrs(tree, fix, delta).Some?
    ensures var g := UpdateAttrs(tree, fix, delta).value;
      && (Once(fix, name) ==> GetAttr(g, name) == Updated(GetAttr(tree, name), GetAttr(fix, name), delta))
      && (GetAttr(fix, name).Some? ==> GetAttr(tree, name).Some?) && GetAttr(g, name).Some? == GetAttr(tree, name).Some?
      && Order(g) == Order(tree) && forall q :: Own(g, q) == Own(tree, q)
    decreases fix
  {
    hide BumpAll;
    match fix
    case Attr(n, places, r) =>
      var v := BumpAll(GetAttr(tree, n).value, places, 0, delta).value;
      AttrsUpdated(ReplaceAttr(tree, n, v), r, delta, name);
      GetReplaced(tree, n, v, name);
      OrderOfReplaced(tree, n, v);
      AbsentOnce(r, name);
    case _ =>
  }

  lemma {:induction false} AbsentOnce(f: Tree, name: bytes)
    ensures GetAttr(f, name).None? ==> Once(f, name)
    decreases f
  {
    if f.Attr? {
      AbsentOnce(f.rest, name);
    }
  }

  /** In `kids`, `q` stands at most once and leads to itself, and no other name leads to it. */
  predicate Sole(names: seq<bytes>, kids: seq<bytes>, q: bytes) {
    kids == [] ||
    if kids[0] == q then Leads(names, q) && q !in kids[1..] && Sole(names, kids[1..], q)
    else FirstAnswer(names, kids[0]) != Some(q) && Sole(names, kids[1..], q)
  }

  lemma {:induction false} KidsUpdated(tree: Tree, fix: Tree, delta: u32, q: bytes)
    requires UpdateKids(tree, fix, delta).Some? && Sole(Order(tree), Order(fix), q)
    ensures var g := UpdateKids(tree, fix, delta).value;
      if q in Order(fix) then UpdateRefs(Own(tree, q), Own(fix, q), delta) == Some(Own(g, q)) else Own(g, q) == Own(tree, q)
    decreases fix
  {
    hide UpdateRefs, Leads, FirstAnswer;
    match fix
    case Nil =>
    case Attr(_, _, r) => KidsUpdated(tree, r, delta, q);
    case Sub(n, b, r) =>
      assert Order(fix) == [n] + Order(r) && Order(fix)[0] == n && Order(fix)[1..] == Order(r);
      var c := UpdateRefs(GetChild(tree, n).value, b, delta).value;
      ChildAnswered(tree, n);
      if n == q {
        ReplacedOwn(tree, n, c, q);
      } else {
        NotReplaced(tree, n, c, q);
      }
      OrderOfReplacement(tree, n, c);
      KidsUpdated(ReplaceChild(tree, n, c), r, delta, q);
  }

  lemma {:induction false} KidsBeside(tree: Tree, fix: Tree, delta: u32, name: bytes)
    requires UpdateKids(tree, fix, delta).Some?
    ensures var g := UpdateKids(tree, fix, delta).value; GetAttr(g, name) == GetAttr(tree, name) && Order(g) == Order(tree)
    decreases fix
  {
    hide UpdateRefs;
    match fix
    case Nil =>
    case Attr(_, _, r) => KidsBeside(tree, r, delta, name);
    case Sub(n, b, r) =>
      var c := UpdateRefs(GetChild(tree, n).value, b, delta).value;
      AttrsBesideChild(tree, n, c, name);
      OrderOfReplacement(tree, n, c);
      KidsBeside(ReplaceChild(tree, n, c), r, delta, name);
  }

  /** Along the path each name is the only one in the lists that leads to its node, and the property is listed at most once. */
  predicate Listed(tree: Tree, fix: Tree, path: seq<bytes>, name: bytes)
    decreases |path|
  {
    if path == [] then Once(fix, name)
    else Sole(Order(tree), Order(fix), path[0]) && Listed(Own(tree, path[0]), Own(fix, path[0]), path[1..], name)
  }

  /**
   A property at a path becomes what the list for it makes of it: with `BumpedRest`, every
   listed reference has grown by `delta` and nothing else has changed.
   */
  lemma {:induction false} RefsAt(tree: Tree, fix: Tree, delta: u32, path: seq<bytes>, name: bytes)
    requires UpdateRefs(tree, fix, delta).Some? && Listed(tree, fix, path, name)
    ensures GetAttr(At(UpdateRefs(tree, fix, delta).value, path), name) ==
              Updated(GetAttr(At(tree, path), name), GetAttr(At(fix, path), name), delta)
    ensures GetAttr(At(fix, path), name).Some? ==>
              GetAttr(At(tree, path), name).Some? && GetAttr(At(UpdateRefs(tree, fix, delta).value, path), name).Some?
    decreases |path|
  {
    hide UpdateAttrs, UpdateKids, Once, Sole, Updated, Order, Own, GetAttr;
    var g := UpdateAttrs(tree, fix, delta).value;
    AttrsUpdated(tree, fix, delta, name);
    if path == [] {
      KidsBeside(g, fix, delta, name);
    } else {
      var q := path[0];
      KidsUpdated(g, fix, delta, q);
      var kid := Own(UpdateRefs(tree, fix, delta).value, q);
      if q in Order(fix) {
        RefsAt(Own(tree, q), Own(fix, q), delta, path[1..], name);
      } else {
        NotListed(fix, q);
        NothingListed(path[1..], name);
        assert Updated(GetAttr(At(kid, path[1..]), name), None, delta) == GetAttr(At(kid, path[1..]), name) by {
          NoUpdate(GetAttr(At(kid, path[1..]), name), delta);
        }
      }
    }
  }

  lemma NoUpdate(val: Option<bytes>, delta: u32)
    ensures Updated(val, None, delta) == val
  {
  }

  lemma {:induction false} NotListed(fix: Tree, q: bytes)
    requires q !in Order(fix)
    ensures Own(fix, q) == Nil
    decreases fix
  {
    match fix
    case Nil =>
    case Attr(_, _, r) => NotListed(r, q);
    case Sub(n, _, r) =>
      assert Order(fix) == [n] + Order(r) && Order(fix)[0] == n;
      assert forall i :: 0 <= i < |Order(r)| ==> Order(r)[i] == Order(fix)[i + 1];
      NotListed(r, q);
  }

  lemma {:induction false} NothingListed(path: seq<bytes>, name: bytes)
    ensures GetAttr(At(Nil, path), name) == None
    decreases |path|
  {
    if path != [] {
      assert Own(Nil, path[0]) == Nil;
      NothingListed(path[1..], name);
    }
  }
}
