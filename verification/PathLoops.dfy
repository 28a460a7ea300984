/**
 The loops of `fdt_get_path`, `fdt_supernode_atdepth_offset` and `fdt_parent_offset` for any
 block and any target, and what they come to on an encoded tree.
 */
module PathLoops {
  import opened Options
  import opened Bytes
  import opened Structure
  import opened Walk
  import opened Read
  import opened Blob
  import opened Core
  import opened Paths

  /** The answer of a loop that has gone past the target, or stopped with an error. */
  function Missed(o: int): (e: int)
    ensures e < 0
  {
    if o == -ERR_NOTFOUND || o >= 0 then -ERR_BADOFFSET
    else if o == -ERR_BADOFFSET then -ERR_BADSTRUCTURE
    else o
  }

  // ---------- The path buffer ----------

  /** What is left in front when the loop looks for a slash in front of `k`; it runs off the buffer when there is none. */
  function CutAt(text: bytes, k: int): (r: Option<bytes>)
    requires k <= |text|
    ensures r.Some? ==> 0 < |r.value| <= k && r.value <= text
    decreases if k < 0 then 0 else k
  {
    if k <= 0 then None
    else if text[k - 1] == SLASH then Some(text[..k])
    else CutAt(text, k - 1)
  }

  /** Takes components off the text until `depth` of `pdepth` are left. */
  function PopTo(text: bytes, pdepth: int, depth: int): (r: Option<bytes>)
    ensures r.Some? ==> r.value <= text
    decreases pdepth - depth
  {
    if pdepth <= depth then Some(text)
    else
      var t := CutAt(text, |text| - 1);
      if t.None? then None else PopTo(t.value, pdepth - 1, depth)
  }

  /** The path that is handed out: without the last slash, unless it is all there is. */
  function Trimmed(text: bytes): bytes {
    if |text| > 1 then text[..|text| - 1] else text
  }

  /** The loop of `fdt_get_path` from node `o` on, the buffer holding `pdepth` components. */
  function PathLoop(s: bytes, o: int, depth: int, text: bytes, pdepth: int, target: int, room: int): (int, bytes)
    decreases if o < 0 || o > target then 0 else target - o + 1
  {
    if o < 0 || o > target then (Missed(o), [])
    else
      var t := PopTo(text, pdepth, depth);
      var pd := if pdepth > depth then depth else pdepth;
      if t.None? then (-ASTRAY, [])
      else if pd >= depth && CheckNode(s, o) < 0 then (CheckNode(s, o), [])
      else
        var fits := pd >= depth && |t.value| + |NameAt(s, o)| + 1 <= room;
        var next := if fits then t.value + NameAt(s, o) + [SLASH] else t.value;
        var pd' := if fits then pd + 1 else pd;
        if o == target then (if pd' < depth + 1 then (-ERR_NOSPACE, []) else (0, Trimmed(next)))
        else
          var (r, d) := NextNode(s, o, depth);
          PathLoop(s, r, d, next, pd', target, room)
  }

  /** `fdt_get_path`: 0 and the path of the node at `target`, or an error. */
  function GetPath(s: bytes, target: int, room: int): (int, bytes) {
    if room < 2 then (-ERR_NOSPACE, []) else PathLoop(s, 0, 0, [], 0, target, room)
  }

  // ---------- The buffer holds names ----------

  predicate NoSlash(names: seq<bytes>) {
    forall i :: 0 <= i < |names| ==> SLASH !in names[i]
  }

  lemma LastName(names: seq<bytes>)
    requires names != []
    ensures var l := |names| - 1;
      Buf(names) == Buf(names[..l]) + names[l] + [SLASH] && Room(names) == Room(names[..l]) + |names[l]| + 1
  {
    hide Room, Buf;
    var l := |names| - 1;
    assert names == names[..l] + [names[l]];
    RoomApp(names[..l], [names[l]]);
    OneName(names[l]);
    assert Buf(names[..l]) + (names[l] + [SLASH]) == Buf(names[..l]) + names[l] + [SLASH];
  }

  lemma OneName(name: bytes)
    ensures Buf([name]) == name + [SLASH] && Room([name]) == |name| + 1
  {
    var one: seq<bytes> := [name];
    assert one[1..] == [];
  }

  lemma {:induction false} CutScan(text: bytes, k: int, j: int)
    requires 0 <= j <= k <= |text| && (forall i :: j <= i < k ==> text[i] != SLASH) && (j == 0 || text[j - 1] == SLASH)
    ensures CutAt(text, k) == if j == 0 then None else Some(text[..j])
    decreases k
  {
    if k > j {
      CutScan(text, k - 1, j);
    }
  }

  /** Cutting takes off the last name, and finds nothing in front of the first one. */
  lemma CutName(names: seq<bytes>)
    requires names != [] && NoSlash(names)
    ensures var l := |names| - 1;
            CutAt(Buf(names), |Buf(names)| - 1) == if l == 0 then None else Some(Buf(names[..l]))
  {
    hide Room, Buf, CutAt;
    var l := |names| - 1;
    var kept, text := names[..l], Buf(names);
    LastName(names);
    var j := |Buf(kept)|;
    assert text == Buf(kept) + (names[l] + [SLASH]);
    if l > 0 {
      LastName(kept);
      assert text[j - 1] == Buf(kept)[j - 1];
    } else {
      NoText();
    }
    forall i | j <= i < |text| - 1
      ensures text[i] != SLASH
    {
      assert text[i] == names[l][i - j];
    }
    CutScan(text, |text| - 1, j);
    assert text[..j] == Buf(kept);
  }

  lemma NoText()
    ensures Buf([]) == []
  {
  }

  /** Popping leaves the names of the levels above. */
  lemma {:induction false} PopNames(names: seq<bytes>, depth: nat)
    requires NoSlash(names) && (depth >= 1 || names == [])
    ensures PopTo(Buf(names), |names|, depth) == Some(Buf(Upto(names, depth)))
    decreases |names|
  {
    hide Buf, CutAt;
    if |names| > depth {
      CutName(names);
      var l := |names| - 1;
      PopNames(names[..l], depth);
      assert names[..l][..depth] == names[..depth];
    }
  }

  /** Popping beyond the root's name runs off the buffer. */
  lemma {:induction false} PopTooFar(names: seq<bytes>)
    requires NoSlash(names)
    ensures PopTo(Buf(names), |names|, -1) == None
    decreases |names|
  {
    hide Buf, CutAt;
    if names == [] {
      NoText();
      NothingToCut();
    } else {
      CutName(names);
      if |names| > 1 {
        PopTooFar(names[..|names| - 1]);
      }
    }
  }

  lemma NothingToCut()
    ensures CutAt([], -1) == None
  {
  }

  // ---------- The walk over the nodes ----------

  /** Where repeated `fdt_next_node` calls stop. */
  function TrailEnd(s: bytes, o: int, depth: int): (int, int)
    decreases |s| - o
  {
    var (r, d) := Scan(s, o, depth);
    if r < 0 || d < 0 then (r, d) else TrailEnd(s, NextTag(s, r).1, d)
  }

  lemma {:induction false} TrailEndItems(s: bytes, o: int, depth: int, it: Items)
    requires Holds(s, o, it) && o % 4 == 0 && depth >= 0
    ensures TrailEnd(s, o, depth) == TrailEnd(s, o + Size(it), depth)
    decreases it
  {
    hide Holds, EntryAt, HeadAt, TagAt, EntrySize, HeadSize, Scan, NextTag, Size;
    match it
    case Done => NoItems();
    case Flat(e, r) =>
      OpenFlat(s, o, e, r);
      ScanEntry(s, o, e, depth);
      TrailEndItems(s, o + EntrySize(e), depth, r);
    case Node(name, body, r) =>
      OpenNode(s, o, name, body, r);
      ScanHead(s, o, name, depth);
      TrailEndItems(s, o + HeadSize(name), depth + 1, body);
      ScanEnd(s, o + HeadSize(name) + Size(body), depth + 1);
      TrailEndItems(s, After(o, name, body), depth, r);
  }

  /** `list` is the node at `o` and the nodes the walk still has to report, up to the end of the root at `end`. */
  ghost predicate Walking(s: bytes, list: seq<(int, int)>, o: int, depth: int, end: int) {
    && Nodes(s, list) && list != [] && list[0] == (o, depth) && o % 4 == 0 && 0 <= o <= |s|
    && list[1..] == Trail(s, NextTag(s, o).1, depth) && TrailEnd(s, NextTag(s, o).1, depth) == (end, -1)
  }

  lemma WalkStarts(s: bytes, n: bytes, b: Items, r: Items)
    requires Holds(s, 0, Node(n, b, r))
    ensures Walking(s, Visits(n, b), 0, 0, After(0, n, b))
  {
    hide Holds, HeadAt, TagAt, HeadSize, NextTag, Size, Preorder;
    VisitsNodes(s, n, b, r);
    OpenNode(s, 0, n, b, r);
    TrailItems(s, HeadSize(n), 0, b);
    TrailEndItems(s, HeadSize(n), 0, b);
    ScanEnd(s, HeadSize(n) + Size(b), 0);
    assert Visits(n, b)[1..] == Preorder(b, HeadSize(n), 0, []);
  }

  /** `fdt_next_node` moves to the next node of the list, or past the end of the root. */
  lemma WalkStep(s: bytes, list: seq<(int, int)>, o: int, depth: int, end: int)
    requires Walking(s, list, o, depth, end)
    ensures var (r, d) := NextNode(s, o, depth);
      if |list| > 1 then Walking(s, list[1..], r, d, end) else r == end && d == -1
  {
    hide NextTag, Scan;
    assert CheckNode(s, o) == NextTag(s, o).1;
    ScanWithin(s, NextTag(s, o).1, depth);
    if |list| > 1 {
      assert list[1..][0] == NextNode(s, o, depth);
      assert forall i :: 0 <= i < |list[1..]| ==> list[1..][i] == list[i + 1];
    }
  }

  lemma ScanWithin(s: bytes, o: int, depth: int)
    ensures var (r, d) := Scan(s, o, depth); r >= 0 && d >= 0 ==> r <= |s|
    ensures Scan(s, o, depth).0 >= 0 && o % 4 == 0 ==> Scan(s, o, depth).0 % 4 == 0
  {
    hide Scan;
    var (r, d) := Scan(s, o, depth);
    if r >= 0 && d >= 0 {
      TagInBlock(s, r);
    }
  }

  /** No name of the nodes contains a slash. */
  predicate SlashFree(s: bytes, list: seq<(int, int)>)
    requires Nodes(s, list)
  {
    forall i :: 0 <= i < |list| ==> SLASH !in NameAt(s, list[i].0)
  }

  lemma WalkNonempty(s: bytes, list: seq<(int, int)>, o: int, depth: int, end: int)
    requires Walking(s, list, o, depth, end)
    ensures list != [] && 0 <= o && list[0] == (o, depth)
  {
  }

  lemma WalkHead(s: bytes, list: seq<(int, int)>, o: int, depth: int, end: int)
    requires Walking(s, list, o, depth, end) && SlashFree(s, list) && |s| <= INT_MAX
    ensures 0 <= o <= INT_MAX && depth >= 0 && CheckNode(s, o) >= 0 && NextTag(s, o).0 == BEGIN_NODE && SLASH !in NameAt(s, o)
    ensures Nodes(s, list) && list != [] && list[0] == (o, depth) && Nodes(s, list[1..]) && SlashFree(s, list[1..])
  {
    hide NextTag, NameAt;
    assert forall i :: 0 <= i < |list[1..]| ==> list[1..][i] == list[i + 1];
  }

  /** Nodes below the root. */
  predicate Deep(list: seq<(int, int)>) {
    forall i :: 0 <= i < |list| ==> list[i].1 >= 1
  }

  lemma {:induction false} PreorderDeep(it: Items, o: int, depth: nat, rest: seq<(int, int)>)
    requires Deep(rest)
    ensures Deep(Preorder(it, o, depth, rest))
    decreases it
  {
    match it
    case Done =>
    case Flat(e, r) => PreorderDeep(r, o + EntrySize(e), depth, rest);
    case Node(name, body, r) =>
      PreorderDeep(r, After(o, name, body), depth, rest);
      PreorderDeep(body, o + HeadSize(name), depth + 1, Preorder(r, After(o, name, body), depth, rest));
  }

  lemma VisitsDeep(n: bytes, b: Items)
    ensures Visits(n, b)[1..] == Preorder(b, HeadSize(n), 0, []) && Deep(Visits(n, b)[1..])
  {
    hide Preorder;
    PreorderDeep(b, HeadSize(n), 0, []);
    assert Visits(n, b)[1..] == Preorder(b, HeadSize(n), 0, []);
  }

  lemma DeepHead(list: seq<(int, int)>)
    requires list != []
    ensures Deep(list) ==> list[0].1 >= 1 && Deep(list[1..])
  {
  }

  /** What the fold does at the head of the list. */
  lemma FoldOne(s: bytes, list: seq<(int, int)>, target: int, o: int, depth: nat, room: int)
    requires Nodes(s, list) && list != [] && list[0] == (o, depth) && o <= target
    requires Nodes(s, list[1..])
    ensures forall names {:trigger Visit(names, depth, NameAt(s, o), room)} :: var next := Visit(names, depth, NameAt(s, o), room);
      PathFold(s, list, target, names, room) ==
        if o == target then Verdict(next, depth) else PathFold(s, list[1..], target, next, room)
  {
    hide NextTag, NameAt, Visit;
  }

  lemma FoldPast(s: bytes, list: seq<(int, int)>, target: int, o: int, names: seq<bytes>, room: int)
    requires Nodes(s, list) && o > target && (list != [] ==> list[0].0 == o)
    ensures PathFold(s, list, target, names, room) == (-ERR_BADOFFSET, [])
  {
  }

  /** One turn of the loop on a buffer that holds names. */
  lemma LoopTurn(s: bytes, o: int, depth: nat, names: seq<bytes>, target: int, room: int)
    requires NoSlash(names) && (depth >= 1 || names == []) && 0 <= o <= target && CheckNode(s, o) >= 0 && SLASH !in NameAt(s, o)
    ensures var next := Visit(names, depth, NameAt(s, o), room);
      && NoSlash(next)
      && PathLoop(s, o, depth, Buf(names), |names|, target, room) ==
           if o == target then (if |next| < depth + 1 then (-ERR_NOSPACE, []) else (0, Trimmed(Buf(next))))
           else PathLoop(s, NextNode(s, o, depth).0, NextNode(s, o, depth).1, Buf(next), |next|, target, room)
  {
    hide Buf, Room, NameAt, NextTag, PopTo, Trimmed, NextNode;
    PopNames(names, depth);
    var st := Upto(names, depth);
    LastName(st + [NameAt(s, o)]);
    assert (st + [NameAt(s, o)])[..|st|] == st;
  }

  /** The loop past the end of the root, which has no parent. */
  lemma LoopOutside(s: bytes, end: int, names: seq<bytes>, target: int, room: int)
    requires NoSlash(names) && 0 <= end <= target
    ensures PathLoop(s, end, -1, Buf(names), |names|, target, room) == (-ASTRAY, [])
  {
    hide Buf, PopTo;
    PopTooFar(names);
  }

  lemma LoopPast(s: bytes, o: int, depth: int, text: bytes, pdepth: int, target: int, room: int)
    requires o > target && o >= 0
    ensures PathLoop(s, o, depth, text, pdepth, target, room) == (-ERR_BADOFFSET, [])
  {
  }

  lemma {:induction false} ScanDown(s: bytes, o: int, depth: int)
    requires depth >= 0 && Scan(s, o, depth).1 < 0
    ensures Scan(s, o, depth).0 > o
    decreases |s| - o
  {
    hide NextTag;
    var (tag, next) := NextTag(s, o);
    if tag == END_NODE && depth >= 1 {
      ScanDown(s, next, depth - 1);
    } else if tag == PROP || tag == NOP {
      ScanDown(s, next, depth);
    }
  }

  /** The nodes of the walk lie in front of the end of the root. */
  lemma {:induction false} WalkBefore(s: bytes, list: seq<(int, int)>, o: int, depth: int, end: int)
    requires Walking(s, list, o, depth, end)
    ensures 0 <= o < end
    decreases |list|
  {
    hide NextTag, Scan, Trail, TrailEnd;
    WalkStep(s, list, o, depth, end);
    assert CheckNode(s, o) == NextTag(s, o).1 > o && depth >= 0;
    var (r, d) := NextNode(s, o, depth);
    if |list| > 1 {
      WalkBefore(s, list[1..], r, d, end);
    } else {
      ScanDown(s, NextTag(s, o).1, depth);
    }
  }

  /** On encoded nodes the loop is the fold over them; past the end of the root it goes astray. */
  lemma {:induction false} LoopIsFold(s: bytes, list: seq<(int, int)>, o: int, depth: int, end: int, names: seq<bytes>, target: int, room: int)
    requires Walking(s, list, o, depth, end) && SlashFree(s, list) && NoSlash(names) && |s| <= INT_MAX
    requires Deep(list) || (depth == 0 && names == [] && Deep(list[1..]))
    ensures PathLoop(s, o, depth, Buf(names), |names|, target, room) ==
      if o <= target && target >= end then (-ASTRAY, [])
      else var (e, ns) := PathFold(s, list, target, names, room); (e, if e == 0 then PathBytes(ns) else [])
    decreases |list|
  {
    hide Buf, NextTag, NameAt, PathFold, PathLoop, Visit, Walking, SlashFree, NextNode, Deep, Nodes, Room;
    WalkHead(s, list, o, depth, end);
    WalkBefore(s, list, o, depth, end);
    DeepHead(list);
    if o > target {
      LoopPast(s, o, depth, Buf(names), |names|, target, room);
      FoldPast(s, list, target, o, names, room);
    } else {
      WalkStep(s, list, o, depth, end);
      LoopTurn(s, o, depth, names, target, room);
      FoldOne(s, list, target, o, depth, room);
      var next := Visit(names, depth, NameAt(s, o), room);
      if o != target {
        var (r, d) := NextNode(s, o, depth);
        if |list| > 1 {
          WalkBefore(s, list[1..], r, d, end);
          LoopIsFold(s, list[1..], r, d, end, next, target, room);
        } else if target >= end {
          LoopOutside(s, end, next, target, room);
        } else {
          LoopPast(s, r, d, Buf(next), |next|, target, room);
          FoldPast(s, list[1..], target, r, next, room);
        }
      }
    }
  }

  /**
   `fdt_get_path` on the nodes of a tree: the path of a node, NOSPACE exactly when the names
   from the root down to it do not all fit with their slashes.
   */
  lemma GetPathOk(s: bytes, root: bytes, c: Ctx, n: bytes, b: Items, r: Items, more: Items, room: int)
    requires Holds(s, 0, Node(root, Plug(c, Node(n, b, r)), more)) && |s| <= INT_MAX
    requires var list := Visits(root, Plug(c, Node(n, b, r))); Nodes(s, list) && SlashFree(s, list)
    ensures var names := [root] + Chain(c) + [n];
            GetPath(s, HeadSize(root) + Off(c), room) ==
              if 2 <= room && Room(names) <= room then (0, PathBytes(names)) else (-ERR_NOSPACE, [])
  {
    hide Holds, Buf, HeadSize, NextTag, NameAt, PathFold, PathLoop, Walking, SlashFree, Deep, Visits, Nodes, After, Size;
    var x := Plug(c, Node(n, b, r));
    FoldOk(s, root, c, n, b, r, more, room);
    NoText();
    WalkStarts(s, root, x, more);
    VisitsDeep(root, x);
    NodeInside(s, root, c, n, b, r, more);
    if room >= 2 {
      LoopIsFold(s, Visits(root, x), 0, 0, After(0, root, x), [], HeadSize(root) + Off(c), room);
    }
  }

  lemma NodeInside(s: bytes, root: bytes, c: Ctx, n: bytes, b: Items, r: Items, more: Items)
    ensures 0 <= HeadSize(root) + Off(c) < After(0, root, Plug(c, Node(n, b, r)))
  {
    hide HeadSize, Plug, Size;
    PlugSize(c, Node(n, b, r));
  }

  /** An offset behind the root: `fdt_get_path` reads in front of its buffer, where the header file promises BADOFFSET. */
  lemma GetPathOutside(s: bytes, root: bytes, b: Items, more: Items, target: int, room: int)
    requires Holds(s, 0, Node(root, b, more)) && |s| <= INT_MAX && room >= 2
    requires Nodes(s, Visits(root, b)) && SlashFree(s, Visits(root, b))
    ensures GetPath(s, target, room).0 == -ASTRAY <==> target >= After(0, root, b)
  {
    hide Holds, Buf, HeadSize, NextTag, NameAt, PathFold, PathLoop, Walking, SlashFree, Deep, Visits, Nodes;
    NoText();
    WalkStarts(s, root, b, more);
    VisitsDeep(root, b);
    LoopIsFold(s, Visits(root, b), 0, 0, After(0, root, b), [], target, room);
    FoldErrors(s, Visits(root, b), target, [], room);
  }

  lemma {:induction false} FoldErrors(s: bytes, list: seq<(int, int)>, target: int, names: seq<bytes>, room: int)
    requires Nodes(s, list)
    ensures PathFold(s, list, target, names, room).0 in {0, -ERR_NOSPACE, -ERR_BADOFFSET}
    decreases |list|
  {
    hide NextTag, NameAt, Visit;
    if list != [] && list[0].0 < target {
      FoldErrors(s, list[1..], target, Visit(names, list[0].1, NameAt(s, list[0].0), room), room);
    }
  }

  /**
   Under a root without a name, `fdt_path_offset` leads the path that `fdt_get_path` builds
   for a node back to that node exactly when on no level an elder sibling answers to the
   name on the path.
   */
  lemma PathRoundTrip(s: bytes, c: Ctx, n: bytes, b: Items, r: Items, more: Items, room: int)
    requires Holds(s, 0, Node([], Plug(c, Node(n, b, r)), more)) && AllPlain(Chain(c) + [n]) && |s| <= INT_MAX
    requires var list := Visits([], Plug(c, Node(n, b, r))); Nodes(s, list) && SlashFree(s, list)
    ensures var o := Off(Inside([], c, more));
            var (err, path) := GetPath(s, o, room);
            err == 0 ==> (PathFrom(s, 0, path) == o <==> NoElder(c, n))
  {
    hide Holds, HeadSize, NextTag, Preorder, NameAt, NoElder, AllPlain, PathFrom, ByPath, Visits, GetPath, Nodes, SlashFree, Room;
    GetPathOk(s, [], c, n, b, r, more, room);
    var chain := Chain(c) + [n];
    assert [[]] + Chain(c) + [n] == [[]] + chain;
    PathSlashed(chain);
    var p := Slashed(chain);
    assert (p + [SLASH])[..|p|] == p;
    ByPathReturns(Hole, [], more, c, n, b, r);
    PathOk(s, Hole, [], Plug(c, Node(n, b, r)), more, p);
  }

  /** The root's path is a slash and leads back to the root. */
  lemma RootRoundTrip(s: bytes, b: Items, more: Items, room: int)
    requires Holds(s, 0, Node([], b, more)) && room >= 2
    ensures GetPath(s, 0, room) == (0, [SLASH]) && PathFrom(s, 0, [SLASH]) == 0
  {
    hide Holds, HeadSize, NextTag, NameAt;
    VisitsNodes(s, [], b, more);
    assert CheckNode(s, 0) == HeadSize([]) by {
      OpenNode(s, 0, [], b, more);
      ScanHead(s, 0, [], 0);
    }
    assert [] + [] + [SLASH] == [SLASH];
    assert [SLASH][1..] == [];
  }

  // ---------- Ancestors ----------

  /** The loop of `fdt_supernode_atdepth_offset` from node `o` on: the answer and the depth of the target. */
  function SuperLoop(s: bytes, o: int, depth: int, target: int, sd: int, found: int): (int, int)
    decreases if o < 0 || o > target then 0 else target - o + 1
  {
    if o < 0 || o > target then (Missed(o), 0)
    else
      var next := if depth == sd then o else found;
      if o == target then (if sd > depth then -ERR_NOTFOUND else next, depth)
      else
        var (r, d) := NextNode(s, o, depth);
        SuperLoop(s, r, d, target, sd, next)
  }

  /** `fdt_supernode_atdepth_offset`. */
  function Supernode(s: bytes, target: int, sd: int): (int, int) {
    if sd < 0 then (-ERR_NOTFOUND, 0) else SuperLoop(s, 0, 0, target, sd, -ERR_INTERNAL)
  }

  /** `fdt_parent_offset`: the depth first, then the last node one level up. */
  function Parent(s: bytes, target: int): int {
    var (err, depth) := Supernode(s, target, 0);
    if err != 0 then (if err < 0 then err else -ERR_INTERNAL)
    else Supernode(s, target, depth - 1).0
  }

  lemma SuperTurn(s: bytes, list: seq<(int, int)>, o: int, depth: int, target: int, sd: int, found: int)
    requires list != [] && list[0] == (o, depth) && 0 <= o <= target
    ensures var next := if depth == sd then o else found;
      if o == target then SuperLoop(s, o, depth, target, sd, found) == SuperFold(list, target, sd, found)
      else && SuperLoop(s, o, depth, target, sd, found) == SuperLoop(s, NextNode(s, o, depth).0, NextNode(s, o, depth).1, target, sd, next)
           && SuperFold(list, target, sd, found) == SuperFold(list[1..], target, sd, next)
  {
    hide NextNode;
  }

  lemma SuperPast(list: seq<(int, int)>, target: int, o: int, sd: int, found: int)
    requires o > target && (list != [] ==> list[0].0 == o)
    ensures SuperFold(list, target, sd, found) == (-ERR_BADOFFSET, 0)
  {
  }

  lemma SuperLoopPast(s: bytes, o: int, depth: int, target: int, sd: int, found: int)
    requires 0 <= o && o > target
    ensures SuperLoop(s, o, depth, target, sd, found) == (-ERR_BADOFFSET, 0)
  {
  }

  /** On encoded nodes the loop is the fold over them, for every target in front of the end of the root. */
  lemma {:induction false} SuperIsFold(s: bytes, list: seq<(int, int)>, o: int, depth: int, end: int, target: int, sd: int, found: int)
    requires Walking(s, list, o, depth, end) && target < end
    ensures SuperLoop(s, o, depth, target, sd, found) == SuperFold(list, target, sd, found)
    decreases |list|
  {
    hide NextTag, SuperLoop, SuperFold, Walking, NextNode;
    WalkNonempty(s, list, o, depth, end);
    if o > target {
      SuperPast(list, target, o, sd, found);
      SuperLoopPast(s, o, depth, target, sd, found);
    } else {
      SuperTurn(s, list, o, depth, target, sd, found);
      WalkStep(s, list, o, depth, end);
      if o != target {
        var (r, d) := NextNode(s, o, depth);
        var next := if depth == sd then o else found;
        if |list| > 1 {
          SuperIsFold(s, list[1..], r, d, end, target, sd, next);
        } else {
          SuperPast(list[1..], target, r, sd, next);
          SuperLoopPast(s, r, d, target, sd, next);
        }
      }
    }
  }

  lemma ParentIsFold(s: bytes, root: bytes, b: Items, more: Items, target: int)
    requires Holds(s, 0, Node(root, b, more)) && target < After(0, root, b)
    ensures Parent(s, target) == ParentFold(Visits(root, b), target)
  {
    hide Holds, Visits, SuperFold, SuperLoop, After, Walking;
    WalkStarts(s, root, b, more);
    var (err, depth) := Supernode(s, target, 0);
    SuperIsFold(s, Visits(root, b), 0, 0, After(0, root, b), target, 0, -ERR_INTERNAL);
    SuperIsFold(s, Visits(root, b), 0, 0, After(0, root, b), target, depth - 1, -ERR_INTERNAL);
  }

  /** `fdt_parent_offset` of a node is the node it stands in; the root has none. */
  lemma ParentOk(s: bytes, root: bytes, c: Ctx, n: bytes, b: Items, r: Items, more: Items)
    requires Holds(s, 0, Node(root, Plug(c, Node(n, b, r)), more))
    ensures Parent(s, HeadSize(root) + Off(c)) == Enclosing(c, HeadSize(root), 0)
    ensures Parent(s, 0) == -ERR_NOTFOUND
  {
    hide Holds, HeadSize, Preorder, ParentFold, Parent, Visits;
    var x := Plug(c, Node(n, b, r));
    NodeInside(s, root, c, n, b, r, more);
    ParentIsFold(s, root, x, more, HeadSize(root) + Off(c));
    ParentIsFold(s, root, x, more, 0);
    ParentFoldOk(s, root, c, n, b, r, more);
    RootParent(root, x);
  }

  lemma ParentBelow(s: bytes, root: bytes, c: Ctx, m: bytes, body: Items, q: Items, more: Items, i: nat)
    requires var o := HeadSize(root) + Off(c); i < |ChildOffsets(body, o + HeadSize(m))|
    requires Holds(s, 0, Node(root, Plug(c, Node(m, body, q)), more))
    ensures var o := HeadSize(root) + Off(c);
            Parent(s, ChildOffsets(body, o + HeadSize(m))[i]) == o
  {
    hide Holds, HeadSize, Preorder, Parent, Visits;
    var o := HeadSize(root) + Off(c);
    var k, n, b, r := ChildPlace(body, o + HeadSize(m), i);
    ComposePlug(c, Inside(m, k, q), Node(n, b, r));
    ParentOk(s, root, Compose(c, Inside(m, k, q)), n, b, r, more);
    EnclosingInner(c, m, k, q, HeadSize(root), 0);
  }

  lemma ParentRoot(s: bytes, m: bytes, body: Items, q: Items, i: nat)
    requires i < |ChildOffsets(body, HeadSize(m))|
    requires Holds(s, 0, Node(m, body, q))
    ensures Parent(s, ChildOffsets(body, HeadSize(m))[i]) == 0
  {
    hide Holds, HeadSize, Preorder, Parent, Visits;
    var k, n, b, r := ChildPlace(body, HeadSize(m), i);
    ParentOk(s, m, k, n, b, r, q);
    EnclosingIs(k, HeadSize(m), 0);
  }

  /**
   The parent of every child that first and next subnode report for a node, the root or one
   below it, is that node.
   */
  lemma ParentOfChild(s: bytes, up: Ctx, m: bytes, body: Items, q: Items, child: int)
    requires up.Hole? || up.Inside?
    requires Holds(s, 0, Plug(up, Node(m, body, q))) && child in Siblings(s, FirstSubnode(s, Off(up)))
    ensures Parent(s, child) == Off(up)
  {
    hide Holds, HeadSize, Preorder, Parent, Siblings, FirstSubnode, Visits;
    HoldsInner(s, 0, up, Node(m, body, q));
    OffAligned(up);
    SubnodesEnumerateChildren(s, Off(up), m, body, q);
    var kids := ChildOffsets(body, Off(up) + HeadSize(m));
    var i :| 0 <= i < |kids| && kids[i] == child;
    if up.Hole? {
      ParentRoot(s, m, body, q, i);
    } else {
      ParentBelow(s, up.name, up.k, m, body, q, up.rest, i);
    }
  }

  // ---------- The loops on a blob ----------

  /** Looks back for the slash in front of `k`. */
  method ReadCut(buf: array<byte>, p: int, ghost text: bytes) returns (p': int)
    requires 0 <= p <= buf.Length && buf[..p] == text
    ensures var t := CutAt(text, p - 1); if t.None? then p' == -1 else 0 < p' <= p && p' == |t.value| && buf[..p'] == t.value
  {
    p' := p - 1;
    while true
      invariant -1 <= p' < p && (p' == -1 ==> p == 0)
      invariant CutAt(text, p - 1) == CutAt(text, p')
      decreases p'
    {
      if p' <= 0 {
        return -1;
      }
      assert buf[p' - 1] == text[p' - 1];
      if buf[p' - 1] == SLASH {
        assert text[..p'] == buf[..p'];
        return;
      }
      p' := p' - 1;
    }
  }

  /** The popping loop of `fdt_get_path`; -1 when it runs off the buffer. */
  method ReadPop(buf: array<byte>, p: int, pdepth: int, depth: int) returns (p': int)
    requires 0 <= p <= buf.Length
    ensures var t := PopTo(buf[..p], pdepth, depth); if t.None? then p' == -1 else 0 <= p' <= p && p' == |t.value| && buf[..p'] == t.value
  {
    hide CutAt;
    p' := p;
    var pd := pdepth;
    while pd > depth
      invariant 0 <= p' <= p && PopTo(buf[..p], pdepth, depth) == PopTo(buf[..p'], pd, depth)
      decreases pd - depth
    {
      p' := ReadCut(buf, p', buf[..p']);
      if p' < 0 {
        return;
      }
      pd := pd - 1;
    }
  }

  /** Writes a name and its slash behind the text in the buffer. */
  method Append(buf: array<byte>, p: int, name: bytes) returns (p': int)
    requires 0 <= p && p + |name| + 1 <= buf.Length
    modifies buf
    ensures p' == p + |name| + 1 && buf[..p'] == old(buf[..p]) + name + [SLASH]
  {
    ghost var b := buf[..];
    forall k | 0 <= k < |name| {
      buf[p + k] := name[k];
    }
    p' := p + |name|;
    buf[p'] := SLASH;
    p' := p' + 1;
    assert buf[..p] == b[..p];
    assert buf[..p'] == buf[..p] + name + [SLASH];
  }

  /** Terminates the path, in the place of its last slash unless that is all there is. */
  method Terminate(buf: array<byte>, p: int)
    requires 0 < p <= buf.Length && buf.Length >= 2
    modifies buf
    ensures var path := Trimmed(old(buf[..p])); |path| < buf.Length && buf[..|path| + 1] == path + [0]
  {
    ghost var b := buf[..];
    var q := if p > 1 then p - 1 else p;
    buf[q] := 0;
    assert buf[..q] == b[..q] == b[..p][..q];
    assert buf[..q + 1] == buf[..q] + [0];
  }

  /** `fdt_get_path`: the buffer holds the path, terminated. */
  method ReadPath(fdt: array<byte>, target: int, buf: array<byte>) returns (err: int)
    requires fdt != buf && Framed(fdt[..]) && target <= INT_MAX
    modifies buf
    ensures fdt[..] == old(fdt[..])
    ensures var (e, path) := GetPath(StructOf(fdt[..]), target, buf.Length);
            err == e && (e == 0 ==> |path| < buf.Length && buf[..|path| + 1] == path + [0])
  {
    hide Hdr, NextNode, NextTag, NameAt, PopTo, Trimmed;
    ghost var s := StructOf(fdt[..]);
    if buf.Length < 2 {
      return -ERR_NOSPACE;
    }
    var o, depth, pdepth, p := 0, 0, 0, 0;
    while 0 <= o <= target
      invariant fdt[..] == old(fdt[..]) && 0 <= p <= buf.Length
      invariant PathLoop(s, 0, 0, [], 0, target, buf.Length) == PathLoop(s, o, depth, buf[..p], pdepth, target, buf.Length)
      decreases if o < 0 then 0 else target - o + 1
    {
      p := ReadPop(buf, p, pdepth, depth);
      if p < 0 {
        return -ASTRAY;
      }
      if pdepth > depth {
        pdepth := depth;
      }
      if pdepth >= depth {
        var e, name := ReadName(fdt, o);
        if e < 0 {
          return e;
        }
        if p + |name| + 1 <= buf.Length {
          p := Append(buf, p, name);
          pdepth := pdepth + 1;
        }
      }
      if o == target {
        if pdepth < depth + 1 {
          return -ERR_NOSPACE;
        }
        Terminate(buf, p);
        return 0;
      }
      o, depth := ReadNextNode(fdt, o, depth);
    }
    err := Missed(o);
  }

  /** `fdt_supernode_atdepth_offset`, with the depth of the node. */
  method ReadSupernode(fdt: array<byte>, target: int, sd: int) returns (err: int, depth: int)
    requires Framed(fdt[..]) && target <= INT_MAX
    ensures (err, depth) == Supernode(StructOf(fdt[..]), target, sd)
  {
    hide Hdr, NextNode;
    ghost var s := StructOf(fdt[..]);
    depth := 0;
    if sd < 0 {
      return -ERR_NOTFOUND, 0;
    }
    var o, found := 0, -ERR_INTERNAL;
    while 0 <= o <= target
      invariant SuperLoop(s, 0, 0, target, sd, -ERR_INTERNAL) == SuperLoop(s, o, depth, target, sd, found)
      decreases if o < 0 then 0 else target - o + 1
    {
      if depth == sd {
        found := o;
      }
      if o == target {
        return if sd > depth then -ERR_NOTFOUND else found, depth;
      }
      o, depth := ReadNextNode(fdt, o, depth);
    }
    return Missed(o), 0;
  }

  /** `fdt_parent_offset`, through `fdt_node_depth`. */
  method ReadParent(fdt: array<byte>, target: int) returns (parent: int)
    requires Framed(fdt[..]) && target <= INT_MAX
    ensures parent == Parent(StructOf(fdt[..]), target)
  {
    hide Hdr, Supernode;
    var err, depth := ReadSupernode(fdt, target, 0);
    if err != 0 {
      return if err < 0 then err else -ERR_INTERNAL;
    }
    parent, depth := ReadSupernode(fdt, target, depth - 1);
  }
}
