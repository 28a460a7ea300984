/**
 The token reader and tree walker of fdt.c, as functions of the structure block.

 A block is the byte sequence `s` found at `off_dt_struct`, `size_dt_struct` bytes long.
 The loops that compute these functions on a blob are in `Core`.
 */
module Walk {
  import opened Bytes
  import opened Structure

  const ERR_NOTFOUND: int := 1
  const ERR_EXISTS: int := 2
  const ERR_NOSPACE: int := 3
  const ERR_BADOFFSET: int := 4
  const ERR_BADPATH: int := 5
  const ERR_BADPHANDLE: int := 6
  const ERR_BADSTATE: int := 7
  const ERR_TRUNCATED: int := 8
  const ERR_BADMAGIC: int := 9
  const ERR_BADVERSION: int := 10
  const ERR_BADSTRUCTURE: int := 11
  const ERR_BADLAYOUT: int := 12
  const ERR_INTERNAL: int := 13
  const ERR_BADVALUE: int := 15
  const ERR_BADOVERLAY: int := 16
  const ERR_NOPHANDLES: int := 17
  const ERR_BADFLAGS: int := 18

  /** Stands for no answer at all: the code goes round for ever, or reads behind the block. */
  const ASTRAY: int := 1000

  /** What the code adds to the offset of a property: header and length, computed in 32 bits. */
  function Skip32(len: u32): (n: u32)
    ensures n == if len < 0x1_0000_0000 - 12 then 12 + len else len - (0x1_0000_0000 - 12)
  {
    (12 + len) % 0x1_0000_0000
  }

  /** Where the token after the one at `o` starts, before alignment; -1 when it is cut short. */
  function TokenEnd(s: bytes, o: int): (e: int)
    requires 0 <= o && o + TAGSIZE <= |s|
    ensures e == -1 || e >= o
    ensures e == -1 || U32(s, o) == PROP || e >= o + TAGSIZE
  {
    var tag := U32(s, o);
    if tag == BEGIN_NODE then
      var k := FindNul(s, o + TAGSIZE);
      if k == -1 then -1 else k + 1
    else if tag == PROP then
      if o + 8 > |s| then -1 else o + Skip32(U32(s, o + 4))
    else if tag == END || tag == END_NODE || tag == NOP then
      o + TAGSIZE
    else
      -1
  }

  /** `fdt_next_tag`: the tag at `o` and the offset of the next one, or END and a negative error. */
  function NextTag(s: bytes, o: int): (r: (u32, int))
    ensures r.1 >= 0 ==> 0 <= o <= r.1 && o + TAGSIZE <= |s| && r.0 == U32(s, o)
    ensures r.1 >= 0 && r.0 != PROP ==> o < r.1
    ensures r.0 == PROP ==> o + 8 <= |s|
    ensures r.0 != END ==> r.1 >= 0 && r.0 in {BEGIN_NODE, END_NODE, PROP, NOP}
    ensures o % 4 == 0 && r.1 >= 0 ==> r.1 % 4 == 0
  {
    if o < 0 || o + TAGSIZE > |s| then (END, -ERR_TRUNCATED)
    else
      var e := TokenEnd(s, o);
      if e == -1 || e > |s| then (END, -ERR_BADSTRUCTURE)
      else (U32(s, o), Align(e))
  }

  /** `fdt_next_node` from tag offset `o` on: the next node and the depth there. */
  function Scan(s: bytes, o: int, depth: int): (r: (int, int))
    ensures r.0 >= 0 ==> r.0 >= o
    ensures r.0 >= 0 && r.1 >= 0 ==> NextTag(s, r.0).0 == BEGIN_NODE
    ensures r.0 >= 0 && o % 4 == 0 ==> r.0 % 4 == 0
    decreases |s| - o
  {
    var (tag, next) := NextTag(s, o);
    if tag == BEGIN_NODE then (o, depth + 1)
    else if tag == END_NODE then
      if depth - 1 < 0 then (next, depth - 1) else Scan(s, next, depth - 1)
    else if tag == PROP || tag == NOP then (if next == o then (-ASTRAY, depth) else Scan(s, next, depth))
    else (if next >= 0 then -ERR_NOTFOUND else next, depth)
  }

  /** `fdt_check_node_offset_`. */
  function CheckNode(s: bytes, o: int): (r: int)
    ensures r >= 0 ==> 0 <= o < r && o % 4 == 0 && r % 4 == 0
  {
    if o < 0 || o % TAGSIZE != 0 || NextTag(s, o).0 != BEGIN_NODE then -ERR_BADOFFSET
    else NextTag(s, o).1
  }

  function NextNode(s: bytes, o: int, depth: int): (r: (int, int))
    ensures r.0 >= 0 ==> r.0 > o
  {
    if o >= 0 then
      var start := CheckNode(s, o);
      if start < 0 then (start, depth) else Scan(s, start, depth)
    else Scan(s, 0, depth)
  }

  /** The nodes that repeated `fdt_next_node` calls report, with their depths, until it stops. */
  function Trail(s: bytes, o: int, depth: int): seq<(int, int)>
    decreases |s| - o
  {
    var (r, d) := Scan(s, o, depth);
    if r < 0 || d < 0 then []
    else [(r, d)] + Trail(s, NextTag(s, r).1, d)
  }

  /** `fdt_first_subnode`. */
  function FirstSubnode(s: bytes, o: int): int {
    var (r, d) := NextNode(s, o, 0);
    if r == -ASTRAY then r else if r < 0 || d != 1 then -ERR_NOTFOUND else r
  }

  /** The loop of `fdt_next_subnode`. */
  function NextSubnodeFrom(s: bytes, o: int, depth: int): int
    decreases |s| - o
  {
    var (r, d) := NextNode(s, o, depth);
    if r == -ASTRAY then r
    else if r < 0 || d < 1 then -ERR_NOTFOUND
    else if d > 1 then NextSubnodeFrom(s, r, d)
    else r
  }

  function NextSubnode(s: bytes, o: int): int {
    NextSubnodeFrom(s, o, 1)
  }

  /** `fdt_node_end_offset_`, at an arbitrary depth. */
  function NodeEndFrom(s: bytes, o: int, depth: int): int
    decreases |s| - o
  {
    if o < 0 || depth < 0 then o
    else
      var (r, d) := NextNode(s, o, depth);
      if r < 0 then r else NodeEndFrom(s, r, d)
  }

  function NodeEnd(s: bytes, o: int): int {
    NodeEndFrom(s, o, 0)
  }

  /** The name of the node at `o`. */
  function NameAt(s: bytes, o: int): (name: bytes)
    requires NextTag(s, o).0 == BEGIN_NODE
  {
    s[o + TAGSIZE..FindNul(s, o + TAGSIZE)]
  }

  const AT: byte := 0x40

  /** `fdt_nodename_eq_`: a name without a unit address also matches a node that has one. */
  predicate Matches(nodename: bytes, name: bytes) {
    && |name| <= |nodename|
    && nodename[..|name|] == name
    && (|nodename| == |name| || (AT !in name && nodename[|name|] == AT))
  }

  /** A node answers to its own name, and to its name without the unit address behind an at sign. */
  lemma MatchesIff(nodename: bytes, name: bytes)
    ensures Matches(nodename, name) <==>
            nodename == name || (AT !in name && |name| < |nodename| && nodename[..|name| + 1] == name + [AT])
  {
    if |name| < |nodename| {
      assert nodename[..|name| + 1] == nodename[..|name|] + [nodename[|name|]];
    } else if |name| == |nodename| {
      assert nodename[..|name|] == nodename;
    }
  }

  /** The loop of `fdt_subnode_offset_namelen`. */
  function SubnodeFrom(s: bytes, o: int, depth: int, name: bytes): int
    decreases |s| - o
  {
    if depth < 0 then -ERR_NOTFOUND
    else if o < 0 then o
    else if depth == 1 && NextTag(s, o).0 == BEGIN_NODE && Matches(NameAt(s, o), name) then o
    else
      var (r, d) := NextNode(s, o, depth);
      if r < 0 then (if d < 0 then -ERR_NOTFOUND else r) else SubnodeFrom(s, r, d, name)
  }

  function SubnodeOffset(s: bytes, o: int, name: bytes): int {
    SubnodeFrom(s, o, 0, name)
  }

  // ---------- The length of a property in 32 bits ----------

  /** `fdt_next_tag` as it would be without a width limit. */
  function WideTag(s: bytes, o: int): (r: (u32, int)) {
    if o >= 0 && o + 8 <= |s| && U32(s, o) == PROP then
      var e := o + 12 + U32(s, o + 4);
      if e > |s| then (END, -ERR_BADSTRUCTURE) else (PROP, Align(e))
    else NextTag(s, o)
  }

  /** A property whose length wraps the addition and lands inside the block. */
  predicate Wraps(s: bytes, o: int) {
    o >= 0 && o + 8 <= |s| && U32(s, o) == PROP && U32(s, o + 4) >= 0x1_0000_0000 - 12 && o + Skip32(U32(s, o + 4)) <= |s|
  }

  /** The code reads a tag as if it had no width limit exactly when the length does not wrap into the block. */
  lemma NextTagExact(s: bytes, o: int)
    requires |s| <= INT_MAX
    ensures NextTag(s, o) == WideTag(s, o) <==> !Wraps(s, o)
  {
    if o >= 0 && o + 8 <= |s| && U32(s, o) == PROP {
      assert TokenEnd(s, o) == o + Skip32(U32(s, o + 4));
    }
  }

  /** A tag that is read moves the offset on, except for the one length that adds up to nothing. */
  lemma TagAdvances(s: bytes, o: int)
    requires o % 4 == 0 && NextTag(s, o).1 >= 0
    ensures NextTag(s, o).1 > o <==> !(NextTag(s, o).0 == PROP && U32(s, o + 4) == 0xFFFF_FFF4)
  {
    if U32(s, o) == PROP {
      var n := Skip32(U32(s, o + 4));
      assert n == 0 <==> U32(s, o + 4) == 0xFFFF_FFF4;
      AlignShift(o, n);
    }
  }

  // ---------- The reader on encoded items ----------

  lemma ReadTag(s: bytes, o: int, tag: u32)
    requires TagAt(s, o, tag) && tag in {NOP, END_NODE, END}
    requires o % 4 == 0
    ensures NextTag(s, o) == (tag, o + TAGSIZE)
  {
  }

  lemma ReadEntry(s: bytes, o: int, e: Entry)
    requires EntryAt(s, o, e) && o % 4 == 0
    ensures NextTag(s, o) == (if e.Nop? then NOP else PROP, o + EntrySize(e))
  {
    if e.Prop? {
      assert TokenEnd(s, o) == o + 12 + |e.val|;
      AlignShift(o + 12, |e.val|);
    } else {
      ReadTag(s, o, NOP);
    }
  }

  lemma ReadHead(s: bytes, o: int, name: bytes)
    requires HeadAt(s, o, name) && o % 4 == 0
    ensures NextTag(s, o) == (BEGIN_NODE, o + HeadSize(name))
  {
    CStrNul(s, o + TAGSIZE, name);
    assert TokenEnd(s, o) == o + TAGSIZE + |name| + 1;
    AlignShift(o + TAGSIZE, |name| + 1);
  }

  lemma AlignShift(a: nat, n: nat)
    requires a % 4 == 0
    ensures Align(a + n) == a + Align(n)
  {
  }

  lemma ScanEntry(s: bytes, o: int, e: Entry, depth: int)
    requires EntryAt(s, o, e) && o % 4 == 0
    ensures Scan(s, o, depth) == Scan(s, o + EntrySize(e), depth)
    ensures (o + EntrySize(e)) % 4 == 0
  {
    hide EntryAt, EntrySize, NextTag;
    ReadEntry(s, o, e);
    EntryAligned(e);
  }

  lemma ScanHead(s: bytes, o: int, name: bytes, depth: int)
    requires HeadAt(s, o, name) && o % 4 == 0
    ensures Scan(s, o, depth) == (o, depth + 1)
    ensures CheckNode(s, o) == o + HeadSize(name)
    ensures NextTag(s, o) == (BEGIN_NODE, o + HeadSize(name))
    ensures NameAt(s, o) == name
    ensures (o + HeadSize(name)) % 4 == 0
  {
    ReadHead(s, o, name);
    CStrNul(s, o + TAGSIZE, name);
    HeadAligned(name);
  }

  lemma ScanEnd(s: bytes, o: int, depth: int)
    requires TagAt(s, o, END_NODE) && o % 4 == 0
    ensures Scan(s, o, depth) == if depth < 1 then (o + TAGSIZE, depth - 1) else Scan(s, o + TAGSIZE, depth - 1)
  {
    ReadTag(s, o, END_NODE);
  }

  /** The offset right behind a node, past its END_NODE tag. */
  function After(o: int, name: bytes, body: Items): int {
    o + HeadSize(name) + Size(body) + TAGSIZE
  }

  /** What the tags of an encoded node are, and that each part stands at an aligned offset. */
  lemma OpenNode(s: bytes, o: int, name: bytes, body: Items, r: Items)
    requires Holds(s, o, Node(name, body, r)) && o % 4 == 0
    ensures HeadAt(s, o, name)
    ensures Holds(s, o + HeadSize(name), body) && (o + HeadSize(name)) % 4 == 0
    ensures TagAt(s, o + HeadSize(name) + Size(body), END_NODE) && (o + HeadSize(name) + Size(body)) % 4 == 0
    ensures Holds(s, After(o, name, body), r) && After(o, name, body) % 4 == 0
    ensures o + Size(Node(name, body, r)) == After(o, name, body) + Size(r)
  {
    hide Holds, HeadAt, TagAt, HeadSize, Size;
    NodeSize(name, body, r);
    HoldsNode(s, o, name, body, r);
    HeadAligned(name);
    SizeAligned(body);
    AlignedSum(o, HeadSize(name));
    AlignedSum(o + HeadSize(name), Size(body));
    AlignedSum(o + HeadSize(name) + Size(body), TAGSIZE);
  }

  lemma OpenFlat(s: bytes, o: int, e: Entry, r: Items)
    requires Holds(s, o, Flat(e, r)) && o % 4 == 0
    ensures EntryAt(s, o, e)
    ensures Holds(s, o + EntrySize(e), r) && (o + EntrySize(e)) % 4 == 0
    ensures Size(Flat(e, r)) == EntrySize(e) + Size(r)
  {
    hide Holds, EntryAt, EntrySize, Size;
    FlatSize(e, r);
    HoldsFlat(s, o, e, r);
    EntryAligned(e);
  }

  // ---------- Pre-order ----------

  /** Offset and depth of every node of the items, parents before children; then `then`. */
  function Preorder(it: Items, o: int, depth: int, rest: seq<(int, int)>): seq<(int, int)> {
    match it
    case Done => rest
    case Flat(e, r) => Preorder(r, o + EntrySize(e), depth, rest)
    case Node(name, body, r) =>
      var siblings := Preorder(r, After(o, name, body), depth, rest);
      [(o, depth + 1)] + Preorder(body, o + HeadSize(name), depth + 1, siblings)
  }

  lemma TrailEntry(s: bytes, o: int, e: Entry, depth: int)
    requires EntryAt(s, o, e) && o % 4 == 0
    ensures Trail(s, o, depth) == Trail(s, o + EntrySize(e), depth)
  {
    hide EntryAt, EntrySize, Scan, NextTag;
    ScanEntry(s, o, e, depth);
  }

  lemma TrailHead(s: bytes, o: int, name: bytes, depth: int)
    requires HeadAt(s, o, name) && o % 4 == 0 && depth >= 0
    ensures Trail(s, o, depth) == [(o, depth + 1)] + Trail(s, o + HeadSize(name), depth + 1)
  {
    hide HeadAt, HeadSize, Scan, NextTag;
    ScanHead(s, o, name, depth);
  }

  lemma TrailLeaves(s: bytes, o: int, depth: int)
    requires TagAt(s, o, END_NODE) && o % 4 == 0 && depth >= 0
    ensures Trail(s, o, depth + 1) == Trail(s, o + TAGSIZE, depth)
  {
    hide TagAt, Scan, NextTag;
    ScanEnd(s, o, depth + 1);
  }

  /** The walk reports the nodes of the items in pre-order and then goes on behind them. */
  lemma {:induction false} TrailItems(s: bytes, o: int, depth: int, it: Items)
    requires Holds(s, o, it) && o % 4 == 0 && depth >= 0
    ensures Trail(s, o, depth) == Preorder(it, o, depth, Trail(s, o + Size(it), depth))
    decreases it
  {
    hide Holds, EntryAt, HeadAt, TagAt, EntrySize, HeadSize, Trail, Size;
    HoldsFits(s, o, it);
    match it
    case Done => NoItems();
    case Flat(e, r) =>
      OpenFlat(s, o, e, r);
      TrailEntry(s, o, e, depth);
      TrailItems(s, o + EntrySize(e), depth, r);
    case Node(name, body, r) =>
      OpenNode(s, o, name, body, r);
      TrailHead(s, o, name, depth);
      TrailItems(s, o + HeadSize(name), depth + 1, body);
      TrailLeaves(s, o + HeadSize(name) + Size(body), depth);
      TrailItems(s, After(o, name, body), depth, r);
  }

  /**
   Iterating `fdt_next_node` from the start of a block visits exactly its nodes, in
   pre-order and with the right depths, and stops.
   */
  lemma WalkVisitsPreorder(s: bytes, it: Items)
    requires Block(s, it)
    ensures Trail(s, 0, 0) == Preorder(it, 0, 0, [])
    ensures Scan(s, Size(it), 0) == (-ERR_NOTFOUND, 0)
  {
    hide Holds, TagAt, NextTag, Preorder;
    TrailItems(s, 0, 0, it);
    SizeAligned(it);
    ReadTag(s, Size(it), END);
  }

  // ---------- Direct children ----------

  /** Offset of the first node among the items, or NOTFOUND. */
  function FirstNode(it: Items, o: int): (r: int)
    ensures r == -ERR_NOTFOUND || r >= o
  {
    match it
    case Done => -ERR_NOTFOUND
    case Flat(e, r) => FirstNode(r, o + EntrySize(e))
    case Node(_, _, _) => o
  }

  /** `NextSubnodeFrom` and its relatives, entered at a tag offset. */
  function NextSubnodeScan(s: bytes, o: int, depth: int): int {
    var (r, d) := Scan(s, o, depth);
    if r == -ASTRAY then r
    else if r < 0 || d < 1 then -ERR_NOTFOUND
    else if d > 1 then NextSubnodeFrom(s, r, d)
    else r
  }

  lemma SiblingScanEntry(s: bytes, o: int, e: Entry, depth: int)
    requires EntryAt(s, o, e) && o % 4 == 0
    ensures NextSubnodeScan(s, o, depth) == NextSubnodeScan(s, o + EntrySize(e), depth)
  {
    hide EntryAt, EntrySize, Scan, NextTag;
    ScanEntry(s, o, e, depth);
  }

  lemma SiblingScanHead(s: bytes, o: int, name: bytes, depth: int)
    requires HeadAt(s, o, name) && 0 <= o && o % 4 == 0 && depth >= 1
    ensures NextSubnodeScan(s, o, depth) == NextSubnodeScan(s, o + HeadSize(name), depth + 1)
  {
    hide HeadAt, HeadSize, Scan, NextTag;
    ScanHead(s, o, name, depth);
  }

  lemma SiblingScanEnd(s: bytes, o: int, depth: int)
    requires TagAt(s, o, END_NODE) && o % 4 == 0 && depth >= 1
    ensures NextSubnodeScan(s, o, depth + 1) == NextSubnodeScan(s, o + TAGSIZE, depth)
  {
    hide TagAt, Scan, NextTag;
    ScanEnd(s, o, depth + 1);
  }

  /** Looking for the next sibling skips everything below it. */
  lemma {:induction false} NextSubnodeSkips(s: bytes, o: int, depth: int, it: Items)
    requires Holds(s, o, it) && o % 4 == 0 && depth >= 1
    ensures NextSubnodeScan(s, o, depth) == NextSubnodeScan(s, o + Size(it), depth)
    decreases it
  {
    hide Holds, EntryAt, HeadAt, TagAt, EntrySize, HeadSize, Size, NextSubnodeScan;
    HoldsFits(s, o, it);
    match it
    case Done => NoItems();
    case Flat(e, r) =>
      OpenFlat(s, o, e, r);
      SiblingScanEntry(s, o, e, depth);
      NextSubnodeSkips(s, o + EntrySize(e), depth, r);
    case Node(name, body, r) =>
      OpenNode(s, o, name, body, r);
      SiblingScanHead(s, o, name, depth);
      NextSubnodeSkips(s, o + HeadSize(name), depth + 1, body);
      SiblingScanEnd(s, o + HeadSize(name) + Size(body), depth);
      NextSubnodeSkips(s, After(o, name, body), depth, r);
  }

  /** At child level the scan stops at the first child, or at the parent's end. */
  lemma {:induction false} ScanToChild(s: bytes, o: int, it: Items)
    requires Holds(s, o, it) && o % 4 == 0
    requires TagAt(s, o + Size(it), END_NODE)
    ensures FirstNode(it, o) >= 0 ==> Scan(s, o, 0) == (FirstNode(it, o), 1)
    ensures FirstNode(it, o) < 0 ==> Scan(s, o, 0) == (o + Size(it) + TAGSIZE, -1)
    decreases it
  {
    hide Holds, EntryAt, HeadAt, TagAt, EntrySize, HeadSize, Scan, NextTag, Size;
    match it
    case Done =>
      NoItems();
      ScanEnd(s, o, 0);
    case Flat(e, r) =>
      OpenFlat(s, o, e, r);
      ScanEntry(s, o, e, 0);
      ScanToChild(s, o + EntrySize(e), r);
    case Node(name, body, r) =>
      OpenNode(s, o, name, body, r);
      ScanHead(s, o, name, 0);
  }

  lemma FirstSubnodeOk(s: bytes, o: int, name: bytes, body: Items)
    requires Holds(s, o, Node(name, body, Done)) && o % 4 == 0
    ensures FirstSubnode(s, o) == FirstNode(body, o + HeadSize(name))
  {
    hide Holds, HeadAt, TagAt, HeadSize, Scan, NextTag, Size, FirstNode;
    HoldsFits(s, o, Node(name, body, Done));
    OpenNode(s, o, name, body, Done);
    ScanHead(s, o, name, 0);
    ScanToChild(s, o + HeadSize(name), body);
  }

  /** Behind a child comes the next one, if its parent has one more. */
  lemma NextSubnodeOk(s: bytes, o: int, name: bytes, body: Items, r: Items)
    requires Holds(s, o, Node(name, body, r)) && o % 4 == 0
    requires TagAt(s, After(o, name, body) + Size(r), END_NODE)
    ensures NextSubnode(s, o) == FirstNode(r, After(o, name, body))
  {
    hide Holds, HeadAt, TagAt, HeadSize, Scan, NextTag, Size, FirstNode;
    HoldsFits(s, o, Node(name, body, r));
    OpenNode(s, o, name, body, r);
    ScanHead(s, o, name, 1);
    assert NextSubnode(s, o) == NextSubnodeScan(s, o + HeadSize(name), 1);
    NextSubnodeSkips(s, o + HeadSize(name), 1, body);
    ScanEnd(s, o + HeadSize(name) + Size(body), 1);
    hide NextSubnode, NextSubnodeFrom;
    ScanToChild(s, After(o, name, body), r);
  }

  /** The offsets that `fdt_first_subnode` and then repeated `fdt_next_subnode` report. */
  function Siblings(s: bytes, o: int): seq<int>
    decreases if o < 0 then 0 else |s| - o + 1
  {
    if o < 0 then []
    else
      var next := NextSubnode(s, o);
      if o < next < |s| then [o] + Siblings(s, next) else [o]
  }

  function ChildOffsets(it: Items, o: int): seq<int> {
    match it
    case Done => []
    case Flat(e, r) => ChildOffsets(r, o + EntrySize(e))
    case Node(name, body, r) => [o] + ChildOffsets(r, After(o, name, body))
  }

  lemma {:induction false} SiblingsOk(s: bytes, o: int, it: Items)
    requires Holds(s, o, it) && o % 4 == 0
    requires TagAt(s, o + Size(it), END_NODE)
    ensures Siblings(s, FirstNode(it, o)) == ChildOffsets(it, o)
    decreases it
  {
    hide Holds, HeadAt, EntryAt, TagAt, HeadSize, EntrySize, NextSubnode, Size;
    HoldsFits(s, o, it);
    match it
    case Done => NoItems();
    case Flat(e, r) =>
      OpenFlat(s, o, e, r);
      SiblingsOk(s, o + EntrySize(e), r);
    case Node(name, body, r) =>
      OpenNode(s, o, name, body, r);
      NextSubnodeOk(s, o, name, body, r);
      FirstNodeFits(s, After(o, name, body), r);
      SiblingsOk(s, After(o, name, body), r);
  }

  lemma {:induction false} FirstNodeFits(s: bytes, o: int, it: Items)
    requires Holds(s, o, it)
    ensures FirstNode(it, o) < |s|
    decreases it
  {
    hide HeadAt, EntryAt, TagAt;
    match it
    case Done =>
    case Flat(e, r) => FirstNodeFits(s, o + EntrySize(e), r);
    case Node(name, body, r) =>
  }

  /** First and next subnode enumerate exactly the direct children, in order. */
  lemma SubnodesEnumerateChildren(s: bytes, o: int, name: bytes, body: Items, r: Items)
    requires Holds(s, o, Node(name, body, r)) && o % 4 == 0
    ensures Siblings(s, FirstSubnode(s, o)) == ChildOffsets(body, o + HeadSize(name))
  {
    hide Holds, HeadAt, TagAt, HeadSize, Scan, NextTag, Size, FirstNode, Siblings, ChildOffsets;
    HoldsFits(s, o, Node(name, body, r));
    OpenNode(s, o, name, body, r);
    ScanHead(s, o, name, 0);
    ScanToChild(s, o + HeadSize(name), body);
    SiblingsOk(s, o + HeadSize(name), body);
  }

  // ---------- Lookup of a child by name ----------

  datatype Found =
    | Missing
    | There(c: Ctx, name: bytes, body: Items, rest: Items)

  /** The first child that answers to `name`, with its place among the items. */
  function ChildByName(it: Items, name: bytes): (f: Found)
    ensures f.There? ==> it == Plug(f.c, Node(f.name, f.body, f.rest)) && Matches(f.name, name)
  {
    match it
    case Done => Missing
    case Flat(e, r) =>
      (match ChildByName(r, name)
       case Missing => Missing
       case There(c, n, b, k) => There(AfterEntry(e, c), n, b, k))
    case Node(n, b, r) =>
      if Matches(n, name) then There(Hole, n, b, r)
      else
        match ChildByName(r, name)
        case Missing => Missing
        case There(c, m, d, k) => There(AfterNode(n, b, c), m, d, k)
  }

  /** `SubnodeFrom`, entered at a tag offset. */
  function SubnodeScan(s: bytes, o: int, depth: int, name: bytes): int {
    var (r, d) := Scan(s, o, depth);
    if r < 0 then (if d < 0 then -ERR_NOTFOUND else r) else SubnodeFrom(s, r, d, name)
  }

  /** Nodes below child level are never compared. */
  lemma {:induction false} SubnodeSkips(s: bytes, o: int, depth: int, name: bytes, it: Items)
    requires Holds(s, o, it) && o % 4 == 0 && depth >= 1
    ensures SubnodeScan(s, o, depth, name) == SubnodeScan(s, o + Size(it), depth, name)
    decreases it
  {
    hide Holds, EntryAt, HeadAt, TagAt, EntrySize, HeadSize, Scan, NextTag, Matches, Size;
    HoldsFits(s, o, it);
    match it
    case Done => NoItems();
    case Flat(e, r) =>
      OpenFlat(s, o, e, r);
      ScanEntry(s, o, e, depth);
      SubnodeSkips(s, o + EntrySize(e), depth, name, r);
    case Node(n, body, r) =>
      OpenNode(s, o, n, body, r);
      ScanHead(s, o, n, depth);
      SubnodeSkips(s, o + HeadSize(n), depth + 1, name, body);
      ScanEnd(s, o + HeadSize(n) + Size(body), depth + 1);
      SubnodeSkips(s, After(o, n, body), depth, name, r);
  }

  lemma {:induction false} SubnodeFinds(s: bytes, o: int, name: bytes, it: Items)
    requires Holds(s, o, it) && o % 4 == 0
    requires TagAt(s, o + Size(it), END_NODE)
    ensures var f := ChildByName(it, name);
            SubnodeScan(s, o, 0, name) == if f.There? then o + Off(f.c) else -ERR_NOTFOUND
    decreases it
  {
    hide Holds, EntryAt, HeadAt, TagAt, EntrySize, HeadSize, Scan, NextTag, Matches, Plug, Size;
    HoldsFits(s, o, it);
    match it
    case Done =>
      NoItems();
      ScanEnd(s, o, 0);
    case Flat(e, r) =>
      OpenFlat(s, o, e, r);
      ScanEntry(s, o, e, 0);
      SubnodeFinds(s, o + EntrySize(e), name, r);
    case Node(n, body, r) =>
      OpenNode(s, o, n, body, r);
      ScanHead(s, o, n, 0);
      if !Matches(n, name) {
        SubnodeSkips(s, o + HeadSize(n), 1, name, body);
        ScanEnd(s, o + HeadSize(n) + Size(body), 1);
        SubnodeFinds(s, After(o, n, body), name, r);
      }
  }

  /** `fdt_subnode_offset` finds the first direct child that answers to the name, and only such a child. */
  lemma SubnodeOffsetOk(s: bytes, o: int, n: bytes, body: Items, r: Items, name: bytes)
    requires Holds(s, o, Node(n, body, r)) && o % 4 == 0
    ensures var f := ChildByName(body, name);
            SubnodeOffset(s, o, name) == if f.There? then o + HeadSize(n) + Off(f.c) else -ERR_NOTFOUND
  {
    hide Holds, HeadAt, TagAt, HeadSize, Scan, Matches, Plug, ChildByName, NameAt;
    HoldsFits(s, o, Node(n, body, r));
    OpenNode(s, o, n, body, r);
    ScanHead(s, o, n, 0);
    SubnodeFinds(s, o + HeadSize(n), name, body);
  }

  // ---------- The end of a node ----------

  function NodeEndScan(s: bytes, o: int, depth: int): int {
    var (r, d) := Scan(s, o, depth);
    if r < 0 then r else NodeEndFrom(s, r, d)
  }

  lemma {:induction false} NodeEndSkips(s: bytes, o: int, depth: int, it: Items)
    requires Holds(s, o, it) && o % 4 == 0 && depth >= 0
    ensures NodeEndScan(s, o, depth) == NodeEndScan(s, o + Size(it), depth)
    decreases it
  {
    hide Holds, EntryAt, HeadAt, TagAt, EntrySize, HeadSize, Scan, NextTag, Size;
    HoldsFits(s, o, it);
    match it
    case Done => NoItems();
    case Flat(e, r) =>
      OpenFlat(s, o, e, r);
      ScanEntry(s, o, e, depth);
      NodeEndSkips(s, o + EntrySize(e), depth, r);
    case Node(n, body, r) =>
      OpenNode(s, o, n, body, r);
      ScanHead(s, o, n, depth);
      NodeEndSkips(s, o + HeadSize(n), depth + 1, body);
      ScanEnd(s, o + HeadSize(n) + Size(body), depth + 1);
      NodeEndSkips(s, After(o, n, body), depth, r);
  }

  /** `fdt_node_end_offset_` returns the offset right behind the matching END_NODE tag. */
  lemma NodeEndOk(s: bytes, o: int, n: bytes, body: Items, r: Items)
    requires Holds(s, o, Node(n, body, r)) && o % 4 == 0
    ensures NodeEnd(s, o) == After(o, n, body)
  {
    hide Holds, HeadAt, TagAt, HeadSize, Scan, NextTag;
    HoldsFits(s, o, Node(n, body, r));
    OpenNode(s, o, n, body, r);
    ScanHead(s, o, n, 0);
    NodeEndSkips(s, o + HeadSize(n), 0, body);
    ScanEnd(s, o + HeadSize(n) + Size(body), 0);
  }
}
