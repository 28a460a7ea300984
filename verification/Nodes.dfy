/** Renaming, adding and deleting nodes (fdt_rw.c). Ghost arguments as in `Edit`. */
module Nodes {
  import opened Options
  import opened Bytes
  import opened Structure
  import opened Blob
  import opened Buffer
  import opened Walk
  import opened Read
  import opened Meaning
  import opened Core
  import opened Edit

  // ---------- Renaming ----------

  /** A node head whose name was resized and overwritten. */
  lemma RenamedHead(s: bytes, t: bytes, p: int, n: bytes, name: bytes)
    requires HeadAt(s, p, n) && 0 !in name
    requires Spliced(s, t, p + 4, p + 4 + Align(|n| + 1), p + 4 + Align(|name| + 1))
    ensures var u := Put(t, p + 4, name + [0]);
            HeadAt(u, p, name) && Spliced(s, u, p, p + HeadSize(n), p + HeadSize(name))
  {
    hide Be32, Put, Same;
    var u := Put(t, p + 4, name + [0]);
    SamePart(s, 0, t, 0, p + 4, p, 4);
    assert t[p..p + 4] == s[p..p + 4];
    PutApart(t, p + 4, name + [0], p, p + 4);
    PutReads(t, p + 4, name + [0]);
    TerminatedName(u, p + 4, name);
    SplicedAround(s, t, p + 4, p + 4 + Align(|n| + 1), p + 4 + Align(|name| + 1), p, 0);
    PutKeepsSpliced(s, t, p, p + HeadSize(n), p + HeadSize(name), p + 4, name + [0]);
  }

  lemma HeadFields(s: bytes, p: int, n: bytes)
    requires HeadAt(s, p, n)
    ensures 0 <= p && p + HeadSize(n) <= |s| && HeadSize(n) == 4 + Align(|n| + 1)
  {
  }

  /** The tree after a node's name changed: content and siblings moved along. */
  lemma RenamedNode(b: bytes, d: bytes, s2: bytes, c: Ctx, n: bytes, body: Items, r: Items, name: bytes)
    requires Denotes(b, Plug(c, Node(n, body, r)))
    requires Edited(b, d, s2, StringsOf(b))
    requires HeadAt(s2, Off(c), name)
    requires Spliced(StructOf(b), s2, Off(c), Off(c) + HeadSize(n), Off(c) + HeadSize(name))
    ensures var t := StringsOf(b);
            Now(b, d, c, Node(name, body, r), Sub(name, Mean(body, t), Mean(r, t)))
  {
    hide Hdr, Block, Plug, Mean, Named, Spliced, HeadAt, TagAt, Holds, Now, Off, HeadSize, Edited;
    var s, t := StructOf(b), StringsOf(b);
    var o := Off(c);
    NodeParts(b, c, n, body, r);
    HoldsFits(s, o, Node(n, body, r));
    assert Size(Node(n, body, r)) == HeadSize(n) + Size(body) + 4 + Size(r);
    assert Size(Node(name, body, r)) == HeadSize(name) + Size(body) + 4 + Size(r);
    hide Size;
    RenamedMoves(s, s2, o, n, body, r, name);
    SplicedAround(s, s2, o, o + HeadSize(n), o + HeadSize(name), o, Size(body) + 4 + Size(r));
    ReplaceBlock(s, s2, c, Node(n, body, r), Node(name, body, r));
    EditedSize(b, d, s2, t);
    MeanNode(name, body, r, t);
    NowIntro(b, d, c, Node(n, body, r), Node(name, body, r), Sub(name, Mean(body, t), Mean(r, t)));
  }

  lemma RenamedMoves(s: bytes, s2: bytes, o: int, n: bytes, body: Items, r: Items, name: bytes)
    requires Holds(s, o, Node(n, body, r)) && o % 4 == 0
    requires Spliced(s, s2, o, o + HeadSize(n), o + HeadSize(name))
    requires HeadAt(s2, o, name)
    ensures Holds(s2, o, Node(name, body, r))
  {
    hide Holds, HeadAt, TagAt, HeadSize, Size, Same;
    var e, f := o + HeadSize(n), o + HeadSize(name);
    OpenNode(s, o, n, body, r);
    HoldsFits(s, e, body);
    HoldsFits(s, After(o, n, body), r);
    HoldsMove(s, e, s2, f, |s| - e, 0, body);
    TagMove(s, e, s2, f, |s| - e, Size(body), END_NODE);
    HoldsMove(s, e, s2, f, |s| - e, Size(body) + TAGSIZE, r);
    HoldsNode(s2, o, name, body, r);
  }

  /** Writes the new name where room was made for it. */
  method FillName(fdt: array<byte>, o: int, name: bytes, ghost b: bytes, ghost n: bytes)
    requires Ready(b) && HeadAt(StructOf(b), o, n) && 0 !in name
    requires Ready(fdt[..]) && Edited(b, fdt[..], StructOf(fdt[..]), StringsOf(b))
    requires Spliced(StructOf(b), StructOf(fdt[..]), o + 4, o + 4 + Align(|n| + 1), o + 4 + Align(|name| + 1))
    modifies fdt
    ensures Ready(fdt[..]) && Edited(b, fdt[..], StructOf(fdt[..]), StringsOf(b))
    ensures HeadAt(StructOf(fdt[..]), o, name)
    ensures Spliced(StructOf(b), StructOf(fdt[..]), o, o + HeadSize(n), o + HeadSize(name))
  {
    hide Hdr, Put, Edited, HeadAt, Spliced, HeadSize, Align;
    ghost var s, s2 := StructOf(b), StructOf(fdt[..]);
    SplicedFits(s, s2, o + 4, o + 4 + Align(|n| + 1), o + 4 + Align(|name| + 1));
    EditedSize(b, fdt[..], s2, StringsOf(b));
    WriteStruct(fdt, o + TAGSIZE, name + [0], b);
    RenamedHead(s, s2, o, n, name);
  }

  /** `fdt_set_name`. */
  method SetName(fdt: array<byte>, o: int, name: bytes, ghost c: Ctx, ghost n: bytes, ghost body: Items, ghost r: Items)
    returns (err: int)
    requires Wellformed(fdt[..]) && 0 !in name
    requires Ready(fdt[..]) ==> Denotes(fdt[..], Plug(c, Node(n, body, r))) && o == Off(c)
    modifies fdt
    ensures !Ready(old(fdt[..])) ==> err == RwProbe(Hdr(old(fdt[..]))) != 0 && fdt[..] == old(fdt[..])
    ensures Ready(old(fdt[..])) ==>
              err == if Align(|name| + 1) - Align(|n| + 1) > Slack(old(fdt[..])) then -ERR_NOSPACE else 0
    ensures Ready(old(fdt[..])) && err != 0 ==> Untouched(old(fdt[..]), fdt[..])
    ensures Ready(old(fdt[..])) && err == 0 ==>
      var t := StringsOf(old(fdt[..]));
      Now(old(fdt[..]), fdt[..], c, Node(name, body, r), Sub(name, Mean(body, t), Mean(r, t)))
  {
    hide Hdr, Put, Plug, Holds, Block, Mean, Named, Off, Now, Edited, Size, CheckHeader, RwProbe, HeadAt, TagAt, HeadSize, NextTag, Spliced, NameAt;
    ghost var b := fdt[..];
    ProbeAccepts(b);
    err := ProbeRw(fdt);
    if err != 0 {
      return;
    }
    ghost var s, t := StructOf(b), StringsOf(b);
    ghost var d1 := fdt[..];
    EditedSize(b, d1, s, t);
    SlackEdited(b, d1, s, t);
    NodeParts(d1, c, n, body, r);
    OpenNode(s, o, n, body, r);
    ScanHead(s, o, n, 0);
    HeadFields(s, o, n);
    var own;
    err, own := ReadName(fdt, o);
    if err != 0 {
      return;
    }
    err := SpliceStruct(fdt, o + TAGSIZE, Align(|own| + 1), Align(|name| + 1));
    if err != 0 {
      UntouchedAfter(b, d1, fdt[..]);
      return;
    }
    FillName(fdt, o, name, d1, n);
    RenamedNode(d1, fdt[..], StructOf(fdt[..]), c, n, body, r, name);
    NowAfter(b, d1, fdt[..], c, Node(name, body, r), Sub(name, Mean(body, t), Mean(r, t)));
  }

  // ---------- Adding ----------

  /** Skips the properties and NOP tags in front of the first child. */
  function SkipEntries(s: bytes, o: int): (r: int)
    ensures r == -ASTRAY || r >= o
    decreases |s| - o
  {
    var (tag, next) := NextTag(s, o);
    if tag == PROP || tag == NOP then (if next == o then -ASTRAY else SkipEntries(s, next)) else o
  }

  lemma {:induction false} SkipsToLeading(s: bytes, o: int, it: Items)
    requires Holds(s, o, it) && o % 4 == 0
    requires TagAt(s, o + Size(it), END_NODE)
    ensures SkipEntries(s, o) == o + Off(Leading(it).0)
    decreases it
  {
    hide Holds, EntryAt, HeadAt, TagAt, EntrySize, HeadSize, NextTag, Plug;
    HoldsFits(s, o, it);
    match it
    case Done => ReadTag(s, o, END_NODE);
    case Flat(e, r) =>
      OpenFlat(s, o, e, r);
      ReadEntry(s, o, e);
      SkipsToLeading(s, o + EntrySize(e), r);
    case Node(n, body, r) =>
      OpenNode(s, o, n, body, r);
      ScanHead(s, o, n, 0);
  }

  method ReadSkipEntries(fdt: array<byte>, o: int) returns (r: int)
    requires Ready(fdt[..]) && 0 <= o <= |StructOf(fdt[..])| + 3
    ensures r == SkipEntries(StructOf(fdt[..]), o)
  {
    hide Hdr, NextTag;
    ghost var s := StructOf(fdt[..]);
    r := o;
    while true
      invariant 0 <= r <= |s| + 3
      invariant SkipEntries(s, o) == SkipEntries(s, r)
      decreases |s| - r
    {
      var tag, next := ReadNextTag(fdt, r);
      if tag != PROP && tag != NOP {
        return;
      }
      TagInBlock(s, r);
      if next == r {
        return -ASTRAY;
      }
      r := next;
    }
  }

  function Zeros(n: nat): (z: bytes)
    ensures |z| == n
  {
    seq(n, _ => 0)
  }

  /** An empty node written into a gap. */
  lemma FreshNode(s: bytes, t: bytes, p: int, name: bytes)
    requires 0 !in name
    requires Spliced(s, t, p, p, p + HeadSize(name) + 4)
    ensures var u := Put(Put(Put(Put(t, p, Enc32(BEGIN_NODE)), p + 4, Zeros(Align(|name| + 1))), p + 4, name),
                         p + HeadSize(name), Enc32(END_NODE));
            && Holds(u, p, Node(name, Done, Done))
            && Spliced(s, u, p, p, p + Size(Node(name, Done, Done)))
  {
    hide Be32, Enc32, Put, Same, Zeros, Align;
    var z := Zeros(Align(|name| + 1));
    var h, f := HeadSize(name), p + HeadSize(name) + 4;
    var t1 := Put(t, p, Enc32(BEGIN_NODE));
    var t2 := Put(t1, p + 4, z);
    var t3 := Put(t2, p + 4, name);
    var u := Put(t3, p + h, Enc32(END_NODE));
    PutWord(t, p, BEGIN_NODE, p);
    PutApart(t1, p + 4, z, p, p + 4);
    PutApart(t2, p + 4, name, p, p + 4);
    PutWord(t3, p + h, END_NODE, p);
    PutWord(t3, p + h, END_NODE, p + h);
    PutReads(t2, p + 4, name);
    PutApart(t3, p + h, Enc32(END_NODE), p + 4, p + 4 + |name|);
    ZeroBehind(t1, t2, t3, u, p, name);
    PutKeepsSpliced(s, t, p, p, f, p, Enc32(BEGIN_NODE));
    PutKeepsSpliced(s, t1, p, p, f, p + 4, z);
    PutKeepsSpliced(s, t2, p, p, f, p + 4, name);
    PutKeepsSpliced(s, t3, p, p, f, p + h, Enc32(END_NODE));
    assert HeadAt(u, p, name) && TagAt(u, p + h, END_NODE);
    HoldsNothing(u, p + h);
    HoldsNothing(u, f);
    HoldsNode(u, p, name, Done, Done);
  }

  /** The byte behind the copied name is still the zero that was written before. */
  lemma ZeroBehind(t1: bytes, t2: bytes, t3: bytes, u: bytes, p: int, name: bytes)
    requires 0 <= p && p + HeadSize(name) + 4 <= |t1|
    requires t2 == Put(t1, p + 4, Zeros(Align(|name| + 1)))
    requires t3 == Put(t2, p + 4, name)
    requires u == Put(t3, p + HeadSize(name), Enc32(END_NODE))
    ensures u[p + 4 + |name|] == 0
  {
    var z := Zeros(Align(|name| + 1));
    PutReads(t1, p + 4, z);
    assert t2[p + 4 + |name|] == t2[p + 4..p + 4 + |z|][|name|] == 0;
  }

  /** Writes the tags and the name of an empty node. */
  method FillNode(fdt: array<byte>, at: int, name: bytes, ghost b: bytes)
    requires Ready(fdt[..]) && Edited(b, fdt[..], StructOf(fdt[..]), StringsOf(fdt[..]))
    requires 0 <= at && at + HeadSize(name) + TAGSIZE <= |StructOf(fdt[..])|
    modifies fdt
    ensures Ready(fdt[..]) && Edited(b, fdt[..], StructOf(fdt[..]), StringsOf(fdt[..]))
    ensures StructOf(fdt[..]) ==
            Put(Put(Put(Put(StructOf(old(fdt[..])), at, Enc32(BEGIN_NODE)), at + 4, Zeros(Align(|name| + 1))), at + 4, name),
                at + HeadSize(name), Enc32(END_NODE))
    ensures StringsOf(fdt[..]) == StringsOf(old(fdt[..]))
  {
    hide Hdr, Put, Enc32, Edited, StructOf, StringsOf, Ready, Zeros;
    WriteStruct(fdt, at, Enc32(BEGIN_NODE), b);
    WriteStruct(fdt, at + TAGSIZE, Zeros(Align(|name| + 1)), b);
    WriteStruct(fdt, at + TAGSIZE, name, b);
    WriteStruct(fdt, at + TAGSIZE + Align(|name| + 1), Enc32(END_NODE), b);
  }

  /** What an empty node takes. */
  function NodeCost(name: bytes): nat {
    TAGSIZE + Align(|name| + 1) + TAGSIZE
  }

  /** Writes an empty node at `at`. */
  method InsertNode(fdt: array<byte>, at: int, name: bytes) returns (err: int)
    requires Ready(fdt[..]) && 0 !in name
    requires 0 <= at <= Hdr(fdt[..]).sizeStruct
    modifies fdt
    ensures err == if NodeCost(name) > Slack(old(fdt[..])) then -ERR_NOSPACE else 0
    ensures err != 0 ==> fdt[..] == old(fdt[..])
    ensures err == 0 ==>
      var b, d := old(fdt[..]), fdt[..];
      && Ready(d) && Edited(b, d, StructOf(d), StringsOf(b)) && Slack(d) == Slack(b) - NodeCost(name)
      && Holds(StructOf(d), at, Node(name, Done, Done))
      && Spliced(StructOf(b), StructOf(d), at, at, at + Size(Node(name, Done, Done)))
  {
    hide Hdr, Put, Spliced, Holds, Size, Be32, Enc32, Edited, Zeros, Align;
    ghost var b := fdt[..];
    ghost var s, t := StructOf(b), StringsOf(b);
    var nodelen := TAGSIZE + Align(|name| + 1) + TAGSIZE;
    err := SpliceStruct(fdt, at, 0, nodelen);
    if err != 0 {
      return;
    }
    ghost var d1, s1 := fdt[..], StructOf(fdt[..]);
    SplicedFits(s, s1, at, at, at + nodelen);
    EditedSize(b, d1, s1, t);
    hide StructOf, StringsOf, Ready;
    FillNode(fdt, at, name, b);
    FreshNode(s, s1, at, name);
    SlackEdited(b, fdt[..], StructOf(fdt[..]), t);
  }

  /** The tree after an empty node was put behind the properties of a node. */
  lemma AddedNode(b: bytes, d: bytes, c: Ctx, n: bytes, body: Items, r: Items, name: bytes)
    requires Denotes(b, Plug(c, Node(n, body, r)))
    requires Ready(d) && Edited(b, d, StructOf(d), StringsOf(b))
    requires var p := Off(c) + HeadSize(n) + Off(Leading(body).0);
             && Holds(StructOf(d), p, Node(name, Done, Done))
             && Spliced(StructOf(b), StructOf(d), p, p, p + Size(Node(name, Done, Done)))
    ensures var t := StringsOf(b);
            var (k, x) := Leading(body);
            Now(b, d, c, Node(n, Plug(k, Node(name, Done, x)), r),
                Sub(n, InsertChild(Mean(body, t), name, Nil), Mean(r, t)))
  {
    hide Hdr, Block, Plug, Mean, Named, Spliced, Holds, Now, Off, Size, Append, Edited, Leading;
    var s, t, s2 := StructOf(b), StringsOf(b), StructOf(d);
    var (k, x) := Leading(body);
    var place := Compose(c, Inside(n, k, r));
    var body' := Plug(k, Node(name, Done, x));
    PlugDeep(c, n, k, r, x);
    PlugDeep(c, n, k, r, Node(name, Done, x));
    AppendNode(name, Done, x);
    HoldsFits(s2, Off(place), Node(name, Done, Done));
    ReplaceFront(s, s2, place, Done, Node(name, Done, Done), x);
    NodeParts(b, c, n, body, r);
    InsertChildMean(body, t, name, Done);
    InsertedNamed(k, x, t, name);
    MeanNode(n, body', r, t);
    EditedSize(b, d, s2, t);
    MeanDone(t);
    NowIntro(b, d, c, Node(n, body, r), Node(n, body', r), Sub(n, InsertChild(Mean(body, t), name, Nil), Mean(r, t)));
  }

  lemma MeanDone(t: bytes)
    ensures Mean(Done, t) == Nil && Named(Done, t)
  {
  }

  lemma InsertedNamed(k: Ctx, x: Items, t: bytes, name: bytes)
    requires Named(Plug(k, x), t)
    ensures Named(Plug(k, Node(name, Done, x)), t)
  {
    hide Str, Plug;
    MeanPlug(k, x, t);
    MeanPlug(k, Node(name, Done, x), t);
  }

  lemma PlugDeep(c: Ctx, n: bytes, k: Ctx, r: Items, x: Items)
    ensures var place := Compose(c, Inside(n, k, r));
            Plug(place, x) == Plug(c, Node(n, Plug(k, x), r)) && Off(place) == Off(c) + HeadSize(n) + Off(k)
  {
    ComposePlug(c, Inside(n, k, r), x);
  }

  lemma AppendNode(name: bytes, body: Items, x: Items)
    ensures Append(Node(name, body, Done), x) == Node(name, body, x) && Append(Done, x) == x
    ensures Size(Node(name, body, Done)) == HeadSize(name) + Size(body) + TAGSIZE && Size(Done) == 0
  {
  }

  /** Where a new child goes: behind the node's leading entries. */
  lemma BehindEntries(s: bytes, o: int, n: bytes, body: Items, r: Items)
    requires Holds(s, o, Node(n, body, r)) && o % 4 == 0
    ensures var at := o + HeadSize(n) + Off(Leading(body).0);
      && NextTag(s, o) == (BEGIN_NODE, o + HeadSize(n)) && 0 <= o + HeadSize(n) <= |s|
      && SkipEntries(s, o + HeadSize(n)) == at && 0 <= at <= |s|
  {
    hide Holds, HeadAt, TagAt, HeadSize, NextTag, Size, Off, Leading, SkipEntries;
    OpenNode(s, o, n, body, r);
    ScanHead(s, o, n, 0);
    HoldsFits(s, o + HeadSize(n), body);
    SkipsToLeading(s, o + HeadSize(n), body);
    LeadingFits(s, o + HeadSize(n), body);
  }

  /** `fdt_add_subnode` behind its probe. */
  method AddChild(fdt: array<byte>, o: int, name: bytes, ghost c: Ctx, ghost n: bytes, ghost body: Items, ghost r: Items)
    returns (at: int)
    requires Denotes(fdt[..], Plug(c, Node(n, body, r))) && o == Off(c)
    requires 0 !in name
    modifies fdt
    ensures var t := StringsOf(old(fdt[..]));
      && (at < 0 ==> fdt[..] == old(fdt[..]))
      && (at < 0 <==> GetChild(Mean(body, t), name).Some? || NodeCost(name) > Slack(old(fdt[..])))
      && (at < 0 ==> at == if GetChild(Mean(body, t), name).Some? then -ERR_EXISTS else -ERR_NOSPACE)
      && (at >= 0 ==>
           var (k, x) := Leading(body);
           && Ready(fdt[..]) && Slack(fdt[..]) == Slack(old(fdt[..])) - NodeCost(name)
           && at == Off(c) + HeadSize(n) + Off(k)
           && Now(old(fdt[..]), fdt[..], c, Node(n, Plug(k, Node(name, Done, x)), r),
                  Sub(n, InsertChild(Mean(body, t), name, Nil), Mean(r, t))))
  {
    hide Hdr, Put, Plug, Holds, Block, Mean, Named, Off, Now, Edited, Size, HeadAt, TagAt, HeadSize,
         NextTag, Spliced, ChildByName, SubnodeOffset, Leading, InsertChild, GetChild, SkipEntries;
    ghost var b := fdt[..];
    ghost var s, t := StructOf(b), StringsOf(b);
    NodeParts(b, c, n, body, r);
    SubnodeOffsetOk(s, o, n, body, r, name);
    ChildByNameMean(body, t, name);
    at := ReadSubnodeOffset(fdt, o, name);
    if at >= 0 {
      at := -ERR_EXISTS;
      return;
    } else if at != -ERR_NOTFOUND {
      return;
    }
    BehindEntries(s, o, n, body, r);
    var tag, next := ReadNextTag(fdt, o);
    at := ReadSkipEntries(fdt, next);
    var err := InsertNode(fdt, at, name);
    if err != 0 {
      at := err;
      return;
    }
    AddedNode(b, fdt[..], c, n, body, r, name);
  }

  /**
   `fdt_add_subnode`: the offset of a new, empty child in front of the other children, or EXISTS.
   */
  method AddSubnode(fdt: array<byte>, o: int, name: bytes, ghost c: Ctx, ghost n: bytes, ghost body: Items, ghost r: Items)
    returns (at: int)
    requires Wellformed(fdt[..]) && 0 !in name
    requires Ready(fdt[..]) ==> Denotes(fdt[..], Plug(c, Node(n, body, r))) && o == Off(c)
    modifies fdt
    ensures !Ready(old(fdt[..])) ==> at == RwProbe(Hdr(old(fdt[..]))) < 0 && fdt[..] == old(fdt[..])
    ensures Ready(old(fdt[..])) ==>
      var t := StringsOf(old(fdt[..]));
      && (at < 0 ==> Untouched(old(fdt[..]), fdt[..]))
      && (at < 0 <==> GetChild(Mean(body, t), name).Some? || NodeCost(name) > Slack(old(fdt[..])))
      && (at < 0 ==> at == if GetChild(Mean(body, t), name).Some? then -ERR_EXISTS else -ERR_NOSPACE)
      && (at >= 0 ==>
           var (k, x) := Leading(body);
           && Ready(fdt[..]) && Slack(fdt[..]) == Slack(old(fdt[..])) - NodeCost(name)
           && at == Off(c) + HeadSize(n) + Off(k)
           && Now(old(fdt[..]), fdt[..], c, Node(n, Plug(k, Node(name, Done, x)), r),
                  Sub(n, InsertChild(Mean(body, t), name, Nil), Mean(r, t))))
  {
    hide Hdr, Plug, Block, Mean, Named, Off, Now, Edited, CheckHeader, RwProbe, HeadSize, Leading, InsertChild, GetChild;
    ghost var b := fdt[..];
    ProbeAccepts(b);
    at := ProbeRw(fdt);
    if at != 0 {
      ProbeNegative(b);
      return;
    }
    ghost var d1 := fdt[..];
    EditedSize(b, d1, StructOf(b), StringsOf(b));
    SlackEdited(b, d1, StructOf(b), StringsOf(b));
    at := AddChild(fdt, o, name, c, n, body, r);
    if at < 0 {
      UntouchedAfter(b, d1, fdt[..]);
    } else {
      AddedNodeAfter(b, d1, fdt[..], c, n, body, r, name);
    }
  }

  lemma AddedNodeAfter(b: bytes, d: bytes, e: bytes, c: Ctx, n: bytes, body: Items, r: Items, name: bytes)
    requires Ready(b) && Ready(d) && Edited(b, d, StructOf(b), StringsOf(b))
    requires var t := StringsOf(d);
             var (k, x) := Leading(body);
             Now(d, e, c, Node(n, Plug(k, Node(name, Done, x)), r), Sub(n, InsertChild(Mean(body, t), name, Nil), Mean(r, t)))
    ensures var t := StringsOf(b);
            var (k, x) := Leading(body);
            Now(b, e, c, Node(n, Plug(k, Node(name, Done, x)), r), Sub(n, InsertChild(Mean(body, t), name, Nil), Mean(r, t)))
  {
    hide Hdr, Edited, Now, Plug, Mean, Leading;
    EditedSize(b, d, StructOf(b), StringsOf(b));
    var (k, x) := Leading(body);
    NowAfter(b, d, e, c, Node(n, Plug(k, Node(name, Done, x)), r),
             Sub(n, InsertChild(Mean(body, StringsOf(b)), name, Nil), Mean(r, StringsOf(b))));
  }

  lemma ProbeNegative(b: bytes)
    requires |b| >= HEADER
    ensures RwProbe(Hdr(b)) <= 0
  {
    hide U32;
  }

  lemma {:induction false} LeadingFits(s: bytes, o: int, it: Items)
    requires Holds(s, o, it)
    ensures o + Off(Leading(it).0) <= |s|
    decreases it
  {
    hide EntryAt, HeadAt, TagAt, Plug;
    if it.Flat? {
      LeadingFits(s, o + EntrySize(it.e), it.rest);
    }
  }

  // ---------- Deleting ----------

  /** The tree after a node was cut out, or overwritten by NOP tags. */
  lemma RemovedNode(b: bytes, d: bytes, s2: bytes, c: Ctx, n: bytes, body: Items, r: Items, y: Items)
    requires Denotes(b, Plug(c, Node(n, body, r)))
    requires Edited(b, d, s2, StringsOf(b))
    requires AllNops(y) && Holds(s2, Off(c), y)
    requires Spliced(StructOf(b), s2, Off(c), Off(c) + Size(Node(n, body, Done)), Off(c) + Size(y))
    ensures Now(b, d, c, Append(y, r), Mean(r, StringsOf(b)))
  {
    hide Hdr, Block, Plug, Mean, Named, Spliced, Holds, Now, Off, Size, Append, AllNops, Says;
    RemovedNodeBlock(StructOf(b), StringsOf(b), s2, c, n, body, r, y);
    SaysNow(b, d, s2, c, Append(y, r), Mean(r, StringsOf(b)));
  }

  /** The blocks after a node gave way to NOP tags, or to nothing. */
  lemma RemovedNodeBlock(s: bytes, t: bytes, s2: bytes, c: Ctx, n: bytes, body: Items, r: Items, y: Items)
    requires Block(s, Plug(c, Node(n, body, r))) && Named(Plug(c, Node(n, body, r)), t)
    requires AllNops(y) && Holds(s2, Off(c), y)
    requires Spliced(s, s2, Off(c), Off(c) + Size(Node(n, body, Done)), Off(c) + Size(y))
    ensures Says(s2, t, c, Append(y, r), Mean(r, t))
  {
    hide Block, Plug, Mean, Named, Spliced, Holds, Off, Size, Append, AllNops, Says;
    AppendNode(n, body, r);
    ReplaceFront(s, s2, c, Node(n, body, Done), y, r);
    BlockParts(s, t, c, n, body, r);
    MeanNops(y, r, t);
    SaysIntro(s2, t, c, Node(n, body, r), Append(y, r), Mean(r, t));
  }

  /** `fdt_del_node`. */
  method DelNode(fdt: array<byte>, o: int, ghost c: Ctx, ghost n: bytes, ghost body: Items, ghost r: Items)
    returns (err: int)
    requires Wellformed(fdt[..])
    requires Ready(fdt[..]) ==> Denotes(fdt[..], Plug(c, Node(n, body, r))) && o == Off(c)
    modifies fdt
    ensures !Ready(old(fdt[..])) ==> err == RwProbe(Hdr(old(fdt[..]))) != 0 && fdt[..] == old(fdt[..])
    ensures Ready(old(fdt[..])) ==> err == 0 && Now(old(fdt[..]), fdt[..], c, r, Mean(r, StringsOf(old(fdt[..]))))
  {
    hide Hdr, Put, Plug, Holds, Block, Mean, Named, Off, Now, Edited, Size, CheckHeader, RwProbe, Spliced, NodeEnd;
    ghost var b := fdt[..];
    ProbeAccepts(b);
    err := ProbeRw(fdt);
    if err != 0 {
      return;
    }
    ghost var s, t := StructOf(b), StringsOf(b);
    ghost var d1 := fdt[..];
    EditedSize(b, d1, s, t);
    NodeParts(d1, c, n, body, r);
    NodeEndOk(s, o, n, body, r);
    NodeExtent(s, o, n, body, r);
    var end := ReadNodeEnd(fdt, o);
    if end < 0 {
      return end;
    }
    err := SpliceStruct(fdt, o, end - o, 0);
    SplicedFits(s, StructOf(fdt[..]), o, end, o);
    HoldsNothing(StructOf(fdt[..]), o);
    RemovedNode(d1, fdt[..], StructOf(fdt[..]), c, n, body, r, Done);
    AppendNode(n, body, r);
    NowAfter(b, d1, fdt[..], c, r, Mean(r, t));
  }

  lemma NodeExtent(s: bytes, o: int, n: bytes, body: Items, r: Items)
    requires Holds(s, o, Node(n, body, r))
    ensures 0 <= o < After(o, n, body) <= |s|
    ensures After(o, n, body) == o + Size(Node(n, body, Done))
  {
    hide Holds;
    HoldsFits(s, o, Node(n, body, r));
  }
}
