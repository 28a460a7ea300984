/** Blobs spelled out byte by byte, and what they mean. */
module Literals {
  import opened Options
  import opened Bytes
  import opened Structure
  import opened Blob
  import opened Walk
  import opened Read
  import opened Meaning
  import opened Validate
  import opened Buffer
  import opened Writer
  import opened Finish
  import opened Edit
  import opened Aliases
  import opened Fragments
  import opened Renumbering

  /** A root without a name and without content. */
  const SMALLEST: bytes := [0, 0, 0, 1, 0, 0, 0, 0, 0, 0, 0, 2, 0, 0, 0, 9]

  /** A root with a NOP tag and the property at offset 0 of the strings, one byte 0x2a and its padding. */
  const SMALL: bytes :=
    [0, 0, 0, 1, 0, 0, 0, 0, 0, 0, 0, 4, 0, 0, 0, 3, 0, 0, 0, 1, 0, 0, 0, 0, 0x2a, 0, 0, 0, 0, 0, 0, 2, 0, 0, 0, 9]

  lemma SmallBlock(s: bytes, name: bytes, body: Items)
    requires HeadAt(s, 0, name) && Holds(s, HeadSize(name), body)
    requires TagAt(s, HeadSize(name) + Size(body), END_NODE) && TagAt(s, HeadSize(name) + Size(body) + TAGSIZE, END)
    ensures Block(s, Node(name, body, Done)) && Size(Node(name, body, Done)) == HeadSize(name) + Size(body) + TAGSIZE
  {
    hide HeadAt, Holds, HeadSize, Size;
    NodeSize(name, body, Done);
    NoItems();
    HoldsDone(s, HeadSize(name) + Size(body) + TAGSIZE);
    HoldsNode(s, 0, name, body, Done);
    TagFits(s, HeadSize(name) + Size(body) + TAGSIZE, END);
  }

  lemma SmallestHolds()
    ensures HeadAt(SMALLEST, 0, []) && HeadSize([]) == 8 && TagAt(SMALLEST, 8, END_NODE) && TagAt(SMALLEST, 12, END)
    ensures U32(SMALLEST, 0) == 1 && U32(SMALLEST, 8) == 2 && U32(SMALLEST, 12) == 9
  {
    var s := SMALLEST;
    hide U32;
    SmallWord(s, 0, 1);
    SmallWord(s, 8, 2);
    SmallWord(s, 12, 9);
  }

  /** The tags of the smallest tree are 1, 2 and 9. */
  lemma SmallestReads()
    ensures NextTag(SMALLEST, 0) == (1, 8) && NextTag(SMALLEST, 8) == (2, 12) && NextTag(SMALLEST, 12) == (9, 16)
  {
    SmallestHolds();
    hide HeadAt, TagAt, U32, TokenEnd;
    ReadHead(SMALLEST, 0, []);
    ReadTag(SMALLEST, 8, END_NODE);
    ReadTag(SMALLEST, 12, END);
    assert U32(SMALLEST, 0) == 1 && U32(SMALLEST, 8) == 2 && U32(SMALLEST, 12) == 9;
  }

  /** It is one node, at offset 0 and depth 1; the walk over it ends, and it is accepted. */
  lemma SmallestMeans(u: bytes, t: bytes)
    requires SMALLEST <= u
    ensures Block(SMALLEST, Node([], Done, Done))
    ensures Trail(SMALLEST, 0, 0) == [(0, 1)] && Scan(SMALLEST, 12, 0) == (-ERR_NOTFOUND, 0)
    ensures CheckWalk(SMALLEST, u, t, 0, 0) == 0
  {
    var x := Node([], Done, Done);
    SmallestHolds();
    SmallestReads();
    hide NextTag, Holds, HeadAt, TagAt, U32;
    HoldsDone(SMALLEST, 8);
    NoItems();
    SmallBlock(SMALLEST, [], Done);
    WalkVisitsPreorder(SMALLEST, x);
    assert CheckWalk(SMALLEST, u, t, 12, 0) == 0;
    assert CheckWalk(SMALLEST, u, t, 8, 1) == 0;
  }

  /** A NOP tag and a property between the two: the items, and what they mean under the strings "p". */
  lemma SmallMeans()
    ensures var x := Flat(Nop, Flat(Prop(0, [0x2a]), Done));
      && Block(SMALL, Node([], x, Done))
      && Mean(Node([], x, Done), [0x70, 0]) == Sub([], Attr([0x70], [0x2a], Nil), Nil)
  {
    SmallHead();
    SmallTail();
    SmallEntries();
    SmallName();
    hide EntryAt, HeadAt, TagAt, EntrySize, HeadSize, NameOf, Holds;
    var e := Prop(0, [0x2a]);
    HoldsDone(SMALL, 28);
    HoldsFlat(SMALL, 12, e, Done);
    HoldsFlat(SMALL, 8, Nop, Flat(e, Done));
    SmallSize(e);
    SmallBlock(SMALL, [], Flat(Nop, Flat(e, Done)));
  }

  lemma SmallSize(e: Entry)
    requires EntrySize(e) == 16 && EntrySize(Nop) == 4
    ensures Size(Flat(Nop, Flat(e, Done))) == 20
  {
    hide EntrySize, Size;
    NoItems();
    FlatSize(e, Done);
    FlatSize(Nop, Flat(e, Done));
  }

  lemma SmallName()
    ensures NameOf([0x70, 0], 0) == [0x70]
  {
    var t: bytes := [0x70, 0];
    assert t[1] == 0 && FindNul(t, 1) == 1 && t[0] != 0;
    assert FindNul(t, 0) == 1;
    assert t[0..1] == [0x70];
    assert Str(t, 0) == Some([0x70]);
  }

  /** A word that is small is its last byte. */
  lemma SmallWord(s: bytes, i: nat, v: byte)
    requires i + 4 <= |s| && s[i] == s[i + 1] == s[i + 2] == 0 && s[i + 3] == v
    ensures U32(s, i) == v
  {
    assert s[i..i + 4] == [0, 0, 0, v];
  }

  lemma SmallHead()
    ensures HeadAt(SMALL, 0, []) && HeadSize([]) == 8 && |SMALL| == 36
  {
    hide U32;
    SmallWord(SMALL, 0, 1);
  }

  lemma SmallTail()
    ensures TagAt(SMALL, 28, END_NODE) && TagAt(SMALL, 32, END)
  {
    hide U32;
    SmallWord(SMALL, 28, 2);
    SmallWord(SMALL, 32, 9);
  }

  lemma SmallWords()
    ensures U32(SMALL, 8) == 4 && U32(SMALL, 12) == 3
  {
    hide U32;
    SmallWord(SMALL, 8, 4);
    SmallWord(SMALL, 12, 3);
  }

  lemma SmallFields()
    ensures U32(SMALL, 16) == 1 && U32(SMALL, 20) == 0 && SMALL[24..25] == [0x2a] && |SMALL| == 36
  {
    hide U32;
    SmallWord(SMALL, 16, 1);
    SmallWord(SMALL, 20, 0);
  }

  lemma SmallEntries()
    ensures EntryAt(SMALL, 8, Nop) && EntryAt(SMALL, 12, Prop(0, [0x2a])) && EntrySize(Nop) == 4 && EntrySize(Prop(0, [0x2a])) == 16
  {
    SmallWords();
    SmallFields();
    hide U32;
  }

  // ---------- The header ----------

  /** The header of a blob, word by word. */
  lemma HeaderLayout(b: bytes)
    requires |b| >= 40 && b[0..4] == [0xd0, 0x0d, 0xfe, 0xed] && b[4..8] == [0, 0, 0, 80]
    requires b[8..12] == [0, 0, 0, 64] && b[12..16] == [0, 0, 0, 80] && b[16..20] == [0, 0, 0, 48]
    requires b[20..24] == [0, 0, 0, 17] && b[24..28] == [0, 0, 0, 2] && b[28..32] == [0, 0, 0, 3]
    requires b[32..36] == [0, 0, 0, 0] && b[36..40] == [0, 0, 0, 16]
    ensures var h := Hdr(b);
      && h.totalsize == 80 && h.offStruct == 64 && h.offStrings == 80 && h.offRsv == 48
      && h.version == 17 && h.lastComp == 2 && h.bootCpu == 3 && h.sizeStrings == 0 && h.sizeStruct == 16
    ensures CheckHeader(Hdr(b)) == 0 && (|b| >= 80 ==> Wellformed(b) && Ready(b))
  {
    assert U32(b, 0) == MAGIC;
    assert U32(b, 4) == 80 && U32(b, 8) == 64 && U32(b, 12) == 80 && U32(b, 16) == 48;
    assert U32(b, 20) == 17 && U32(b, 24) == 2 && U32(b, 28) == 3 && U32(b, 32) == 0 && U32(b, 36) == 16;
    hide U32;
  }

  /** An entry of the reserve map: address and size, eight bytes each. */
  lemma ReserveBytes()
    ensures EncReserve(Reserve(0x1_0000_0002, 3)) == [0, 0, 0, 1, 0, 0, 0, 2, 0, 0, 0, 0, 0, 0, 0, 3]
  {
    assert Enc64(0x1_0000_0002) == [0, 0, 0, 1, 0, 0, 0, 2] by { assert Enc32(1) == [0, 0, 0, 1] && Enc32(2) == [0, 0, 0, 2]; }
    assert Enc64(3) == [0, 0, 0, 0, 0, 0, 0, 3] by { assert Enc32(0) == [0, 0, 0, 0] && Enc32(3) == [0, 0, 0, 3]; }
    hide Enc64, Enc32;
  }

  // ---------- The names that the code looks for ----------

  /** A string as its bytes. */
  function Ascii(s: string): (w: bytes)
    requires forall i :: 0 <= i < |s| ==> s[i] as int < 0x80
    ensures |w| == |s| && forall i :: 0 <= i < |s| ==> w[i] == s[i] as int
  {
    seq(|s|, i requires 0 <= i < |s| => s[i] as int)
  }

  lemma NamesSpelled()
    ensures PHANDLE == Ascii("phandle") && LINUX_PHANDLE == Ascii("linux,phandle")
    ensures TARGET == Ascii("target") && TARGET_PATH == Ascii("target-path") && OVERLAY == Ascii("__overlay__")
    ensures LOCAL_FIXUPS == Ascii("__local_fixups__") && ALIASES == Ascii("/aliases") && [AT] == Ascii("@") && [SLASH] == Ascii("/")
  {
  }

  // ---------- Writing the smallest tree ----------

  lemma SmallestTokens(ks: seq<Token>, t: bytes)
    requires AllMean(ks, [Open([]), Close], t)
    ensures EncTokens(ks) + Enc32(END) == SMALLEST
  {
    var vs := [Open([]), Close];
    assert Means(ks[0], vs[0], t) && Means(ks[1], vs[1], t);
    assert ks == [Begin([])] + [EndNode];
    EncTokensMore([Begin([])], EndNode);
    OneEncoded(Begin([]));
    hide EncTokens, EncToken, Enc32, Means, AllMean;
    SmallestParts();
  }

  lemma SmallestParts()
    ensures EncToken(Begin([])) == [0, 0, 0, 1, 0, 0, 0, 0] && EncToken(EndNode) == [0, 0, 0, 2] && Enc32(END) == [0, 0, 0, 9]
  {
    assert Zeros(3) == [0, 0, 0] by { assert Zeros(1) == [0]; assert Zeros(2) == [0, 0]; }
    assert Enc32(BEGIN_NODE) == [0, 0, 0, 1];
    hide Enc32, Zeros;
    assert EncToken(Begin([])) == [0, 0, 0, 1] + [] + [0] + [0, 0, 0];
  }

  /** The calls that write the smallest tree leave exactly its bytes. */
  method WriteSmallest(fdt: array<byte>) returns (err: int)
    requires fdt.Length < INT_MAX
    modifies fdt
    ensures err == if fdt.Length < 80 then -ERR_NOSPACE else 0
    ensures err == 0 ==> Framed(fdt[..]) && StructOf(fdt[..]) == SMALLEST
  {
    hide Hdr, Neat, Blank, Written, Reserved, FinishedNeatly, Finished;
    err := Create(fdt, 0);
    if err != 0 {
      return;
    }
    err := FinishReserve(fdt, []);
    if err != 0 {
      return;
    }
    err := BeginNode(fdt, [], []);
    if err != 0 {
      return;
    }
    err := EndNodeCall(fdt, [] + [Open([])]);
    if err != 0 {
      return;
    }
    err := FinishBlob(fdt, [] + [Open([])] + [Close]);
    if err == 0 {
      SmallestFinished(fdt[..]);
    }
  }

  lemma SmallestFinished(d: bytes)
    requires FinishedNeatly(d, [] + [Open([])] + [Close])
    ensures Framed(d) && StructOf(d) == SMALLEST
  {
    hide Hdr, AllMean, EncTokens, Enc32;
    var vs := [] + [Open([])] + [Close];
    var ks :| StructOf(d) == EncTokens(ks) + Enc32(END) && AllMean(ks, vs, StringsOf(d));
    assert vs == [Open([]), Close];
    SmallestTokens(ks, StringsOf(d));
  }
}
