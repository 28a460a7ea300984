/**
 The lookups of fdt_ro.c, as functions of the structure block `s` and the strings block `t`:
 strings, properties, phandles, paths.
 */
module Read {
  import opened Options
  import opened Bytes
  import opened Structure
  import opened Walk

  // ---------- Strings block (Devicetree Specification v0.3, section 5.5) ----------

  /** `fdt_get_string` on a finished blob. */
  function Str(t: bytes, off: int): Option<bytes> {
    if off < 0 || off >= |t| then None
    else
      var k := FindNul(t, off);
      if k == -1 then None else Some(t[off..k])
  }

  /** The error code when there is no string. */
  function StrError(t: bytes, off: int): int {
    if off < 0 || off >= |t| then -ERR_BADOFFSET else -ERR_TRUNCATED
  }

  lemma StrIs(t: bytes, off: int, name: bytes)
    requires CStr(t, off, name)
    ensures Str(t, off) == Some(name)
  {
    CStrNul(t, off, name);
  }

  /** Strings appended to the block change no string that was there. */
  lemma StrExtend(t: bytes, u: bytes, off: int)
    requires Str(t, off).Some? && t <= u
    ensures Str(u, off) == Str(t, off)
  {
    NulCStr(t, off);
    var name := t[off..FindNul(t, off)];
    assert u[..|t|] == t;
    assert u[off..off + |name|] == t[off..off + |name|];
    StrIs(u, off, name);
  }

  predicate StrHere(t: bytes, i: int, name: bytes) {
    0 <= i && i + |name| + 1 <= |t| && t[i..i + |name| + 1] == name + [0]
  }

  /** `fdt_find_string_`: the first place where the terminated string stands. */
  function FindString(t: bytes, i: int, name: bytes): (r: int)
    requires 0 <= i
    ensures r == -1 || (i <= r && StrHere(t, r, name))
    ensures forall j :: i <= j && (r == -1 || j < r) ==> !StrHere(t, j, name)
    decreases |t| - i
  {
    if i + |name| + 1 > |t| then -1
    else if StrHere(t, i, name) then i
    else FindString(t, i + 1, name)
  }

  lemma FoundString(t: bytes, i: int, name: bytes)
    requires 0 !in name && StrHere(t, i, name)
    ensures Str(t, i) == Some(name)
  {
    var w := t[i..i + |name| + 1];
    assert t[i..i + |name|] == w[..|name|];
    assert t[i + |name|] == w[|name|];
    StrIs(t, i, name);
  }

  // ---------- Properties ----------

  /** `nextprop_`. */
  function NextProp(s: bytes, o: int): (r: int)
    ensures r >= 0 ==> r >= o && NextTag(s, r).0 == PROP && (o % 4 == 0 ==> r % 4 == 0)
    decreases |s| - o
  {
    var (tag, next) := NextTag(s, o);
    if tag == END then (if next >= 0 then -ERR_BADSTRUCTURE else next)
    else if tag == PROP then o
    else if tag == NOP then NextProp(s, next)
    else -ERR_NOTFOUND
  }

  function FirstProperty(s: bytes, o: int): int {
    var start := CheckNode(s, o);
    if start < 0 then start else NextProp(s, start)
  }

  /** `fdt_check_prop_offset_`. */
  function CheckProp(s: bytes, o: int): (r: int)
    ensures r >= 0 ==> 0 <= o <= r && o % 4 == 0 && r % 4 == 0 && NextTag(s, o).0 == PROP
  {
    if o < 0 || o % TAGSIZE != 0 || NextTag(s, o).0 != PROP then -ERR_BADOFFSET
    else NextTag(s, o).1
  }

  function NextProperty(s: bytes, o: int): (r: int)
    ensures r >= 0 ==> r >= o && (r == o ==> CheckProp(s, o) == o)
  {
    var start := CheckProp(s, o);
    if start < 0 then start else NextProp(s, start)
  }

  /** The name offset of the property lies in the block. */
  predicate NameInBlock(s: bytes, o: int) {
    0 <= o && o + 12 <= |s|
  }

  function PropNameOff(s: bytes, o: int): u32
    requires NameInBlock(s, o)
  {
    U32(s, o + 8)
  }

  /** The value of the property; a length that wraps leaves none in the block. */
  function PropVal(s: bytes, o: int): (val: bytes)
    requires NameInBlock(s, o)
    ensures o + 12 + U32(s, o + 4) <= |s| ==> |val| == U32(s, o + 4)
  {
    if o + 12 + U32(s, o + 4) <= |s| then s[o + 12..o + 12 + U32(s, o + 4)] else []
  }

  /** The loop of `fdt_get_property_namelen_`, from property offset `o` on. */
  function PropertyFrom(s: bytes, t: bytes, o: int, name: bytes): int
    decreases |s| - o
  {
    if o < 0 then o
    else if CheckProp(s, o) < 0 then -ERR_INTERNAL
    else if !NameInBlock(s, o) then -ASTRAY
    else if Str(t, PropNameOff(s, o)) == Some(name) then o
    else
      var next := NextProperty(s, o);
      if next < 0 then next else if next == o then -ASTRAY else PropertyFrom(s, t, next, name)
  }

  /** Offset of the property `name` of the node at `o`, or a negative error. */
  function GetProperty(s: bytes, t: bytes, o: int, name: bytes): int {
    PropertyFrom(s, t, FirstProperty(s, o), name)
  }

  // ---------- Properties of encoded items ----------

  datatype FoundProp =
    | NoProp
    | PropThere(c: Ctx, nameoff: u32, val: bytes, rest: Items)

  /** The first property called `name` in front of the first child. */
  function PropByName(it: Items, t: bytes, name: bytes): (f: FoundProp)
    ensures f.PropThere? ==> it == Plug(f.c, Flat(Prop(f.nameoff, f.val), f.rest)) && Str(t, f.nameoff) == Some(name)
  {
    match it
    case Done => NoProp
    case Node(_, _, _) => NoProp
    case Flat(e, r) =>
      if e.Prop? && Str(t, e.nameoff) == Some(name) then PropThere(Hole, e.nameoff, e.val, r)
      else
        match PropByName(r, t, name)
        case NoProp => NoProp
        case PropThere(c, off, val, k) => PropThere(AfterEntry(e, c), off, val, k)
  }

  lemma ReadProp(s: bytes, o: int, nameoff: u32, val: bytes)
    requires EntryAt(s, o, Prop(nameoff, val)) && o % 4 == 0
    ensures NextTag(s, o) == (PROP, o + EntrySize(Prop(nameoff, val))) && NameInBlock(s, o)
    ensures PropNameOff(s, o) == nameoff
    ensures PropVal(s, o) == val
  {
    ReadEntry(s, o, Prop(nameoff, val));
  }

  /** `PropertyFrom`, entered at a tag offset. */
  function PropertyScan(s: bytes, t: bytes, o: int, name: bytes): int {
    PropertyFrom(s, t, NextProp(s, o), name)
  }

  lemma {:induction false} PropertyFinds(s: bytes, t: bytes, o: int, it: Items, name: bytes)
    requires Holds(s, o, it) && o % 4 == 0
    requires TagAt(s, o + Size(it), END_NODE)
    ensures var f := PropByName(it, t, name);
            PropertyScan(s, t, o, name) == if f.PropThere? then o + Off(f.c) else -ERR_NOTFOUND
    decreases it
  {
    hide Holds, EntryAt, HeadAt, TagAt, EntrySize, HeadSize, NextTag, Plug, Str, PropNameOff, Size;
    HoldsFits(s, o, it);
    match it
    case Done =>
      NoItems();
      ReadTag(s, o, END_NODE);
    case Node(n, body, r) =>
      OpenNode(s, o, n, body, r);
      ScanHead(s, o, n, 0);
    case Flat(e, r) =>
      OpenFlat(s, o, e, r);
      ReadEntry(s, o, e);
      if e.Prop? {
        ReadProp(s, o, e.nameoff, e.val);
      }
      PropertyFinds(s, t, o + EntrySize(e), r, name);
  }

  /** Property lookup finds the first property of that name among the node's properties, and only such a property. */
  lemma GetPropertyOk(s: bytes, t: bytes, o: int, n: bytes, body: Items, r: Items, name: bytes)
    requires Holds(s, o, Node(n, body, r)) && o % 4 == 0
    ensures var f := PropByName(body, t, name);
            GetProperty(s, t, o, name) == if f.PropThere? then o + HeadSize(n) + Off(f.c) else -ERR_NOTFOUND
  {
    hide Holds, HeadAt, TagAt, HeadSize, NextTag, Plug, Str, NextProp, PropertyFrom;
    HoldsFits(s, o, Node(n, body, r));
    OpenNode(s, o, n, body, r);
    ScanHead(s, o, n, 0);
    PropertyFinds(s, t, o + HeadSize(n), body, name);
  }

  // ---------- Phandles ----------

  /** "phandle" and "linux,phandle". */
  const PHANDLE: bytes := [0x70, 0x68, 0x61, 0x6e, 0x64, 0x6c, 0x65]
  const LINUX_PHANDLE: bytes := [0x6c, 0x69, 0x6e, 0x75, 0x78, 0x2c] + PHANDLE

  /** The value of a phandle property, -1 when there is none of four bytes. */
  function PhandleAt(s: bytes, t: bytes, o: int, name: bytes): (v: int)
    ensures v == -ASTRAY || v == -1 || 0 <= v < 0x1_0000_0000
  {
    var p := GetProperty(s, t, o, name);
    if p == -ASTRAY then p
    else if p >= 0 && NameInBlock(s, p) && |PropVal(s, p)| == 4 then Be32(PropVal(s, p))
    else -1
  }

  /** `fdt_get_phandle`: 0 when the node has none. */
  function GetPhandle(s: bytes, t: bytes, o: int): (v: int)
    ensures v == -ASTRAY || 0 <= v < 0x1_0000_0000
  {
    var p := PhandleAt(s, t, o, PHANDLE);
    if p != -1 then p
    else
      var q := PhandleAt(s, t, o, LINUX_PHANDLE);
      if q != -1 then q else 0
  }

  function PhandleProp(body: Items, t: bytes, name: bytes): Option<u32> {
    var f := PropByName(body, t, name);
    if f.PropThere? && |f.val| == 4 then Some(Be32(f.val)) else None
  }

  /** The phandle of a node with this content. */
  function PhandleOf(body: Items, t: bytes): u32 {
    var p := PhandleProp(body, t, PHANDLE);
    if p.Some? then p.value
    else
      var q := PhandleProp(body, t, LINUX_PHANDLE);
      if q.Some? then q.value else 0
  }

  /** The value read at a property that a lookup found. */
  lemma FoundVal(s: bytes, t: bytes, o: int, n: bytes, body: Items, r: Items, name: bytes)
    requires Holds(s, o, Node(n, body, r)) && o % 4 == 0
    requires PropByName(body, t, name).PropThere?
    ensures var f := PropByName(body, t, name);
            var p := o + HeadSize(n) + Off(f.c);
            && p % 4 == 0
            && NameInBlock(s, p) && PropVal(s, p) == f.val && PropNameOff(s, p) == f.nameoff
            && EntryAt(s, p, Prop(f.nameoff, f.val))
  {
    hide Holds, EntryAt, HeadAt, TagAt, HeadSize, NextTag, Plug, PropVal, PropNameOff, PropByName;
    var f := PropByName(body, t, name);
    OpenNode(s, o, n, body, r);
    OffAligned(f.c);
    AlignedSum(o + HeadSize(n), Off(f.c));
    HoldsInner(s, o + HeadSize(n), f.c, Flat(Prop(f.nameoff, f.val), f.rest));
    var p := o + HeadSize(n) + Off(f.c);
    OpenFlat(s, p, Prop(f.nameoff, f.val), f.rest);
    ReadProp(s, p, f.nameoff, f.val);
  }

  lemma GetPhandleOk(s: bytes, t: bytes, o: int, n: bytes, body: Items, r: Items)
    requires Holds(s, o, Node(n, body, r)) && o % 4 == 0
    ensures GetPhandle(s, t, o) == PhandleOf(body, t)
  {
    hide Holds, EntryAt, HeadSize, NextTag, PropVal, PropNameOff, PropByName, GetProperty, Plug, Be32;
    HoldsFits(s, o, Node(n, body, r));
    GetPropertyOk(s, t, o, n, body, r, PHANDLE);
    GetPropertyOk(s, t, o, n, body, r, LINUX_PHANDLE);
    if PropByName(body, t, PHANDLE).PropThere? {
      FoundVal(s, t, o, n, body, r, PHANDLE);
    }
    if PropByName(body, t, LINUX_PHANDLE).PropThere? {
      FoundVal(s, t, o, n, body, r, LINUX_PHANDLE);
    }
  }

  /** `fdt_next_node` without a depth: any next node, wherever it is. */
  function ScanAny(s: bytes, o: int): (r: int)
    ensures r >= 0 ==> r >= o && NextTag(s, r).0 == BEGIN_NODE && (o % 4 == 0 ==> r % 4 == 0)
    decreases |s| - o
  {
    var (tag, next) := NextTag(s, o);
    if tag == BEGIN_NODE then o
    else if tag == END_NODE || tag == PROP || tag == NOP then (if next == o then -ASTRAY else ScanAny(s, next))
    else if next >= 0 || next == -ERR_TRUNCATED then -ERR_NOTFOUND
    else next
  }

  /** The loop of `fdt_node_offset_by_phandle`, from tag offset `o` on. */
  function ByPhandleScan(s: bytes, t: bytes, o: int, phandle: u32): int
    decreases |s| - o
  {
    var r := ScanAny(s, o);
    if r < 0 then r
    else if GetPhandle(s, t, r) == -ASTRAY then -ASTRAY
    else if GetPhandle(s, t, r) == phandle then r
    else ByPhandleScan(s, t, NextTag(s, r).1, phandle)
  }

  function NodeByPhandle(s: bytes, t: bytes, phandle: u32): int {
    if phandle == 0 || phandle == 0xffff_ffff then -ERR_BADPHANDLE
    else ByPhandleScan(s, t, 0, phandle)
  }

  /** The loop of `fdt_find_max_phandle`: the largest phandle from `o` on, or the error that ended the walk. */
  function MaxPhandleScan(s: bytes, t: bytes, o: int, max: u32): (r: (int, u32))
    decreases |s| - o
  {
    var r := ScanAny(s, o);
    if r < 0 then (if r == -ERR_NOTFOUND then 0 else r, max)
    else
      var value := GetPhandle(s, t, r);
      if value == -ASTRAY then (value, max)
      else MaxPhandleScan(s, t, NextTag(s, r).1, if value > max then value else max)
  }

  /** The first node in pre-order that carries the phandle. */
  function ByPhandle(it: Items, t: bytes, phandle: u32): (f: Found)
    ensures f.There? ==> it == Plug(f.c, Node(f.name, f.body, f.rest)) && PhandleOf(f.body, t) == phandle
  {
    match it
    case Done => Missing
    case Flat(e, r) =>
      (match ByPhandle(r, t, phandle)
       case Missing => Missing
       case There(c, n, b, k) => There(AfterEntry(e, c), n, b, k))
    case Node(n, b, r) =>
      if PhandleOf(b, t) == phandle then There(Hole, n, b, r)
      else
        match ByPhandle(b, t, phandle)
        case There(c, m, d, k) => There(Inside(n, c, r), m, d, k)
        case Missing =>
          match ByPhandle(r, t, phandle)
          case Missing => Missing
          case There(c, m, d, k) => There(AfterNode(n, b, c), m, d, k)
  }

  lemma AnyEntry(s: bytes, o: int, e: Entry)
    requires EntryAt(s, o, e) && o % 4 == 0
    ensures ScanAny(s, o) == ScanAny(s, o + EntrySize(e))
  {
    hide EntryAt, EntrySize, NextTag;
    ReadEntry(s, o, e);
  }

  lemma AnyEnd(s: bytes, o: int)
    requires TagAt(s, o, END_NODE) && o % 4 == 0
    ensures ScanAny(s, o) == ScanAny(s, o + TAGSIZE)
  {
    ReadTag(s, o, END_NODE);
  }

  lemma AnyHead(s: bytes, o: int, name: bytes)
    requires HeadAt(s, o, name) && o % 4 == 0
    ensures ScanAny(s, o) == o && NextTag(s, o).1 == o + HeadSize(name)
  {
    ReadHead(s, o, name);
  }

  /** The phandle search visits the nodes of the items in pre-order. */
  lemma {:induction false} ByPhandleItems(s: bytes, t: bytes, o: int, it: Items, phandle: u32)
    requires Holds(s, o, it) && o % 4 == 0
    ensures var f := ByPhandle(it, t, phandle);
            ByPhandleScan(s, t, o, phandle) ==
            if f.There? then o + Off(f.c) else ByPhandleScan(s, t, o + Size(it), phandle)
    decreases it
  {
    hide Holds, EntryAt, HeadAt, TagAt, EntrySize, HeadSize, NextTag, ScanAny, GetPhandle, PhandleOf, Plug, Size;
    HoldsFits(s, o, it);
    match it
    case Done => NoItems();
    case Flat(e, r) =>
      OpenFlat(s, o, e, r);
      AnyEntry(s, o, e);
      ByPhandleItems(s, t, o + EntrySize(e), r, phandle);
    case Node(n, body, r) =>
      OpenNode(s, o, n, body, r);
      AnyHead(s, o, n);
      GetPhandleOk(s, t, o, n, body, r);
      if PhandleOf(body, t) != phandle {
        var start, end := o + HeadSize(n), o + HeadSize(n) + Size(body);
        assert ByPhandleScan(s, t, o, phandle) == ByPhandleScan(s, t, start, phandle);
        AnyEnd(s, end);
        assert ByPhandleScan(s, t, end, phandle) == ByPhandleScan(s, t, After(o, n, body), phandle);
        hide ByPhandleScan;
        ByPhandleItems(s, t, start, body, phandle);
        ByPhandleItems(s, t, After(o, n, body), r, phandle);
      }
  }

  /** Looking up a phandle finds the first node in pre-order that carries it, and only such a node. */
  lemma NodeByPhandleOk(s: bytes, t: bytes, it: Items, phandle: u32)
    requires Block(s, it)
    ensures var f := ByPhandle(it, t, phandle);
            NodeByPhandle(s, t, phandle) == if phandle == 0 || phandle == 0xffff_ffff then -ERR_BADPHANDLE
                                            else if f.There? then Off(f.c) else -ERR_NOTFOUND
  {
    hide Holds, TagAt, NextTag, ByPhandle, Plug;
    ByPhandleItems(s, t, 0, it, phandle);
    SizeAligned(it);
    ReadTag(s, Size(it), END);
  }

  /** The largest phandle of the nodes, at least `max`. */
  function MaxPhandle(it: Items, t: bytes, max: u32): u32 {
    match it
    case Done => max
    case Flat(_, r) => MaxPhandle(r, t, max)
    case Node(_, b, r) =>
      var own := PhandleOf(b, t);
      MaxPhandle(r, t, MaxPhandle(b, t, if own > max then own else max))
  }

  lemma {:induction false} MaxPhandleItems(s: bytes, t: bytes, o: int, it: Items, max: u32)
    requires Holds(s, o, it) && o % 4 == 0
    ensures MaxPhandleScan(s, t, o, max) == MaxPhandleScan(s, t, o + Size(it), MaxPhandle(it, t, max))
    decreases it
  {
    hide Holds, EntryAt, HeadAt, TagAt, EntrySize, HeadSize, NextTag, ScanAny, GetPhandle, PhandleOf, Size;
    HoldsFits(s, o, it);
    match it
    case Done => NoItems();
    case Flat(e, r) =>
      OpenFlat(s, o, e, r);
      AnyEntry(s, o, e);
      MaxPhandleItems(s, t, o + EntrySize(e), r, max);
    case Node(n, body, r) =>
      OpenNode(s, o, n, body, r);
      AnyHead(s, o, n);
      GetPhandleOk(s, t, o, n, body, r);
      var own := PhandleOf(body, t);
      var max1 := if own > max then own else max;
      MaxPhandleItems(s, t, o + HeadSize(n), body, max1);
      AnyEnd(s, o + HeadSize(n) + Size(body));
      MaxPhandleItems(s, t, After(o, n, body), r, MaxPhandle(body, t, max1));
  }

  /** The walk over all nodes ends without an error and has seen every phandle. */
  lemma MaxPhandleOk(s: bytes, t: bytes, it: Items)
    requires Block(s, it)
    ensures MaxPhandleScan(s, t, 0, 0) == (0, MaxPhandle(it, t, 0))
  {
    hide Holds, TagAt, NextTag, MaxPhandle;
    MaxPhandleItems(s, t, 0, it, 0);
    SizeAligned(it);
    ReadTag(s, Size(it), END);
  }

  // ---------- Paths ----------

  const SLASH: byte := 0x2f

  /** Index of the first slash at or after `i`, or the length. */
  function NextSlash(path: bytes, i: nat): (k: nat)
    requires i <= |path|
    ensures i <= k <= |path|
    ensures k < |path| ==> path[k] == SLASH
    ensures SLASH !in path[i..k]
    decreases |path| - i
  {
    if i == |path| || path[i] == SLASH then i
    else
      var k := NextSlash(path, i + 1);
      assert path[i..k] == [path[i]] + path[i + 1..k];
      k
  }

  /** The loop of `fdt_path_offset_namelen`, at node `o` with `path` left to follow. */
  function PathFrom(s: bytes, o: int, path: bytes): int
    decreases |path|
  {
    if path == [] then o
    else if path[0] == SLASH then PathFrom(s, o, path[1..])
    else
      var q := NextSlash(path, 0);
      var r := SubnodeOffset(s, o, path[..q]);
      if r < 0 then r else PathFrom(s, r, path[q..])
  }

  /** The node that a path leads to, from the node `n` with content `b` in context `c`. */
  function ByPath(c: Ctx, n: bytes, b: Items, r: Items, path: bytes): (f: Found)
    decreases |path|
  {
    if path == [] then There(c, n, b, r)
    else if path[0] == SLASH then ByPath(c, n, b, r, path[1..])
    else
      var q := NextSlash(path, 0);
      match ChildByName(b, path[..q])
      case Missing => Missing
      case There(d, m, e, k) => ByPath(Compose(c, Inside(n, d, r)), m, e, k, path[q..])
  }

  lemma {:induction false} ByPathPlace(c: Ctx, n: bytes, b: Items, r: Items, path: bytes)
    ensures var f := ByPath(c, n, b, r, path);
            f.There? ==> Plug(c, Node(n, b, r)) == Plug(f.c, Node(f.name, f.body, f.rest))
    decreases |path|
  {
    hide ChildByName;
    if path == [] {
    } else if path[0] == SLASH {
      ByPathPlace(c, n, b, r, path[1..]);
    } else {
      var q := NextSlash(path, 0);
      var f := ChildByName(b, path[..q]);
      if f.There? {
        ComposePlug(c, Inside(n, f.c, r), Node(f.name, f.body, f.rest));
        ByPathPlace(Compose(c, Inside(n, f.c, r)), f.name, f.body, f.rest, path[q..]);
      }
    }
  }

  /** Following a path component by component reaches the node it names, or reports NOTFOUND. */
  lemma {:induction false} PathOk(s: bytes, c: Ctx, n: bytes, b: Items, r: Items, path: bytes)
    requires Holds(s, 0, Plug(c, Node(n, b, r)))
    ensures var f := ByPath(c, n, b, r, path);
            PathFrom(s, Off(c), path) == if f.There? then Off(f.c) else -ERR_NOTFOUND
    decreases |path|
  {
    hide Holds, ChildByName, SubnodeOffset;
    if path == [] {
    } else if path[0] == SLASH {
      PathOk(s, c, n, b, r, path[1..]);
    } else {
      var q := NextSlash(path, 0);
      OffAligned(c);
      HoldsInner(s, 0, c, Node(n, b, r));
      SubnodeOffsetOk(s, Off(c), n, b, r, path[..q]);
      var f := ChildByName(b, path[..q]);
      if f.There? {
        ComposePlug(c, Inside(n, f.c, r), Node(f.name, f.body, f.rest));
        PathOk(s, Compose(c, Inside(n, f.c, r)), f.name, f.body, f.rest, path[q..]);
      }
    }
  }
}
