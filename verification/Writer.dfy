/**
 The sequential writer of fdt_sw.c. While a blob is being written the structure block
 grows upwards behind the reserve map and the strings grow downwards from the end of the
 buffer; property names are offsets counted back from that end.
 */
module Writer {
  import opened Options
  import opened Bytes
  import opened Structure
  import opened Blob
  import opened Buffer
  import opened Walk
  import opened Read
  import opened Meaning
  import opened Core
  import opened Edit

  // ---------- Tokens ----------

  /** One token of the structure block, its property name still an offset. */
  datatype Token =
    | Begin(name: bytes)
    | EndNode
    | Plain(e: Entry)

  function TokenSize(k: Token): (n: nat)
    ensures n >= 4 && n % 4 == 0
  {
    match k
    case Begin(name) => HeadSize(name)
    case EndNode => TAGSIZE
    case Plain(e) => EntryAligned(e); EntrySize(e)
  }

  ghost predicate TokenAt(s: bytes, o: int, k: Token) {
    match k
    case Begin(name) => HeadAt(s, o, name)
    case EndNode => TagAt(s, o, END_NODE)
    case Plain(e) => EntryAt(s, o, e)
  }

  function Length(ks: seq<Token>): nat {
    if ks == [] then 0 else TokenSize(ks[0]) + Length(ks[1..])
  }

  /** The bytes of `s` from `o` on spell out the tokens. */
  ghost predicate Spells(s: bytes, o: int, ks: seq<Token>)
    decreases |ks|
  {
    if ks == [] then 0 <= o <= |s|
    else TokenAt(s, o, ks[0]) && Spells(s, o + TokenSize(ks[0]), ks[1..])
  }

  lemma TokenFits(s: bytes, o: int, k: Token)
    requires TokenAt(s, o, k)
    ensures 0 <= o && o + TokenSize(k) <= |s|
  {
  }

  lemma TokenMove(s: bytes, o: int, t: bytes, p: int, k: Token)
    requires TokenAt(s, o, k) && Same(s, o, t, p, TokenSize(k))
    ensures TokenAt(t, p, k)
  {
    match k
    case Begin(name) => HeadMove(s, o, t, p, TokenSize(k), 0, name);
    case EndNode => TagMove(s, o, t, p, TokenSize(k), 0, END_NODE);
    case Plain(e) => EntryMove(s, o, t, p, TokenSize(k), 0, e);
  }

  lemma {:induction false} SpellsFits(s: bytes, o: int, ks: seq<Token>)
    requires Spells(s, o, ks)
    ensures 0 <= o && o + Length(ks) <= |s|
    decreases |ks|
  {
    hide TokenAt, TokenSize;
    if ks != [] {
      TokenFits(s, o, ks[0]);
      SpellsFits(s, o + TokenSize(ks[0]), ks[1..]);
    }
  }

  /** Tokens stay readable when bytes are put behind them, and a token put there joins them. */
  lemma {:induction false} SpellsMore(s: bytes, t: bytes, o: int, ks: seq<Token>, k: Token)
    requires Spells(s, o, ks) && s <= t
    requires TokenAt(t, o + Length(ks), k)
    ensures Spells(t, o, ks + [k])
    ensures Length(ks + [k]) == Length(ks) + TokenSize(k)
    decreases |ks|
  {
    hide TokenAt, TokenSize;
    if ks == [] {
      assert (ks + [k])[1..] == [];
      TokenFits(t, o, k);
    } else {
      assert (ks + [k])[1..] == ks[1..] + [k];
      TokenFits(s, o, ks[0]);
      assert t[..|s|] == s;
      assert t[o..o + TokenSize(ks[0])] == s[o..o + TokenSize(ks[0])];
      TokenMove(s, o, t, o, ks[0]);
      SpellsMore(s, t, o + TokenSize(ks[0]), ks[1..], k);
    }
  }

  // ---------- Names counted from the end ----------

  /** What a property says in the writer's terms. */
  datatype Event =
    | Open(name: bytes)
    | Close
    | Property(name: bytes, val: bytes)

  /** The token stands for the event: a name offset leads, counted from the end of `u`, to the name. */
  predicate Stands(k: Token, v: Event, u: bytes) {
    match k
    case Begin(name) => v == Open(name)
    case EndNode => v == Close
    case Plain(Nop) => false
    case Plain(Prop(off, val)) =>
      && v.Property? && v.val == val
      && |u| <= INT_MAX && 0x1_0000_0000 - |u| <= off
      && Str(u, off - (0x1_0000_0000 - |u|)) == Some(v.name)
  }

  predicate AllStand(ks: seq<Token>, vs: seq<Event>, u: bytes) {
    |ks| == |vs| && forall i :: 0 <= i < |ks| ==> Stands(ks[i], vs[i], u)
  }

  /** Strings that end in `u` keep every name, as names are counted from the end. */
  lemma StandsDown(k: Token, v: Event, u: bytes, w: bytes)
    requires Stands(k, v, u) && |w| + |u| <= INT_MAX
    ensures Stands(k, v, w + u)
  {
    if k.Plain? {
      StrShift(u, w, k.e.nameoff - (0x1_0000_0000 - |u|));
    }
  }

  lemma StrShift(u: bytes, w: bytes, off: int)
    requires Str(u, off).Some?
    ensures Str(w + u, |w| + off) == Str(u, off)
  {
    NulCStr(u, off);
    var name := u[off..FindNul(u, off)];
    assert (w + u)[|w| + off..|w| + off + |name|] == u[off..off + |name|];
    StrIs(w + u, |w| + off, name);
  }

  // ---------- The state of an unfinished blob ----------

  /** The strings written so far. */
  function TailStrings(b: bytes): (u: bytes)
    requires Sized(b) && Hdr(b).sizeStrings <= Hdr(b).totalsize
    ensures |u| == Hdr(b).sizeStrings
  {
    b[Hdr(b).totalsize - Hdr(b).sizeStrings..Hdr(b).totalsize]
  }

  /** Where the writer puts the reserve map: the size of the header, aligned to that of a reserve entry. */
  const FRONT: int := 48

  /** An unfinished blob: the regions lie in the order header, reserve map, structure, free space, strings. */
  predicate Unfinished(b: bytes) {
    && Sized(b)
    && var h := Hdr(b);
       && h.magic == SW_MAGIC && h.version == 17 && h.lastComp <= 1
       && h.offRsv == FRONT && FRONT <= h.offStruct
       && (h.offStruct - FRONT) % RSV_ENTRY == 0
       && h.offStruct + h.sizeStruct + h.sizeStrings <= h.totalsize <= INT_MAX
  }

  /** A step of the writer: structure block and strings are now `s` and `u`, the rest is as it was. */
  ghost predicate Wrote(b: bytes, d: bytes, s: bytes, u: bytes) {
    && Unfinished(b) && Unfinished(d) && |d| == |b|
    && |s| <= INT_MAX && |u| <= INT_MAX
    && Hdr(d) == Hdr(b).(sizeStruct := |s|, sizeStrings := |u|)
    && StructOf(d) == s && TailStrings(d) == u
    && d[HEADER..Hdr(b).offStruct] == b[HEADER..Hdr(b).offStruct]
  }

  lemma WroteTwice(b: bytes, d: bytes, e: bytes, s: bytes, u: bytes, s2: bytes, u2: bytes)
    requires Wrote(b, d, s, u) && Wrote(d, e, s2, u2)
    ensures Wrote(b, e, s2, u2)
  {
    hide Hdr;
  }

  lemma WroteSelf(b: bytes)
    requires Unfinished(b)
    ensures Wrote(b, b, StructOf(b), TailStrings(b))
  {
    hide Hdr;
  }

  /** The header update of a step that changes the sizes only. */
  lemma Resized(b: bytes, d: bytes, s: bytes, u: bytes)
    requires Unfinished(b) && |d| == |b| && d[HEADER..] == b[HEADER..]
    requires |s| + |u| + Hdr(b).offStruct <= Hdr(b).totalsize
    requires Hdr(d) == Hdr(b).(sizeStruct := |s|, sizeStrings := |u|)
    requires s == b[Hdr(b).offStruct..Hdr(b).offStruct + |s|]
    requires u == b[Hdr(b).totalsize - |u|..Hdr(b).totalsize]
    ensures Wrote(b, d, s, u)
  {
    hide Hdr;
    var h := Hdr(b);
    TailSlice(b, d, HEADER, h.offStruct);
    TailSlice(b, d, h.offStruct, h.offStruct + |s|);
    TailSlice(b, d, h.totalsize - |u|, h.totalsize);
  }

  /** Bytes written into the structure block. */
  lemma WroteStruct(b: bytes, d: bytes, o: int, w: bytes)
    requires Unfinished(b) && 0 <= o && o + |w| <= Hdr(b).sizeStruct
    requires d == Put(b, Hdr(b).offStruct + o, w)
    ensures Wrote(b, d, Put(StructOf(b), o, w), TailStrings(b))
  {
    hide Hdr, Put;
    var h := Hdr(b);
    var i := h.offStruct + o;
    SpliceHeader(b, d, i, w);
    PutApart(b, i, w, HEADER, h.offStruct);
    PutApart(b, i, w, h.totalsize - h.sizeStrings, h.totalsize);
    PutInside(b, h.offStruct, h.sizeStruct, o, w);
  }

  /** The bytes between the structure block and the strings are what they were. */
  ghost predicate GapSame(b: bytes, d: bytes) {
    && Unfinished(d) && |b| == |d|
    && forall i :: Hdr(d).offStruct + Hdr(d).sizeStruct <= i < Hdr(d).totalsize - Hdr(d).sizeStrings ==> d[i] == b[i]
  }

  lemma SameBehind(b: bytes, d: bytes)
    requires Unfinished(d) && |b| == |d| && d[HEADER..] == b[HEADER..]
    ensures GapSame(b, d)
  {
    hide Hdr;
    forall i | HEADER <= i < |d|
      ensures d[i] == b[i]
    {
      assert d[i] == d[HEADER..][i - HEADER] && b[i] == b[HEADER..][i - HEADER];
    }
  }

  /** A step that only takes from the gap, behind another one. */
  lemma GapTwice(b: bytes, d: bytes, e: bytes)
    requires GapSame(b, d) && GapSame(d, e)
    requires Hdr(e).offStruct == Hdr(d).offStruct && Hdr(e).totalsize == Hdr(d).totalsize
    requires Hdr(e).sizeStruct >= Hdr(d).sizeStruct && Hdr(e).sizeStrings >= Hdr(d).sizeStrings
    ensures GapSame(b, e)
  {
    hide Hdr;
  }

  /** Bytes written outside the gap. */
  lemma GapPut(b: bytes, d: bytes, i: int, w: bytes)
    requires Unfinished(d) && 0 <= i && i + |w| <= |b| && |d| == |b| && d[HEADER..] == Put(b, i, w)[HEADER..]
    requires i + |w| <= Hdr(d).offStruct + Hdr(d).sizeStruct || Hdr(d).totalsize - Hdr(d).sizeStrings <= i
    ensures GapSame(b, d)
  {
    hide Hdr;
    var m := Put(b, i, w);
    forall j | Hdr(d).offStruct + Hdr(d).sizeStruct <= j < Hdr(d).totalsize - Hdr(d).sizeStrings
      ensures d[j] == b[j]
    {
      assert d[j] == d[HEADER..][j - HEADER] && m[j] == m[HEADER..][j - HEADER];
    }
  }

  /** `fdt_grab_space_`: extends the structure block, or fails when it would meet the strings. */
  method GrabSpace(fdt: array<byte>, len: int) returns (at: int, ghost s: bytes)
    requires Unfinished(fdt[..]) && 0 <= len
    modifies fdt
    ensures var b := old(fdt[..]);
            var h := Hdr(b);
            if h.sizeStruct + len > h.totalsize - h.offStruct - h.sizeStrings then at == -1 && fdt[..] == b
            else at == h.sizeStruct && |s| == h.sizeStruct + len && StructOf(b) <= s && Wrote(b, fdt[..], s, TailStrings(b))
                 && s == b[h.offStruct..h.offStruct + |s|] && GapSame(b, fdt[..])
  {
    hide Hdr;
    ghost var b := fdt[..];
    var h := LoadHeader(fdt);
    s := [];
    at := h.sizeStruct;
    if at + len > h.totalsize - h.offStruct - h.sizeStrings {
      return -1, s;
    }
    s := b[h.offStruct..h.offStruct + at + len];
    SetSizeStruct(fdt, at + len);
    assert fdt[..][HEADER..] == b[HEADER..];
    Resized(b, fdt[..], s, TailStrings(b));
    assert s[..at] == StructOf(b);
    SameBehind(b, fdt[..]);
  }

  /** Writes into the structure block of an unfinished blob that came from `b`. */
  method WriteSw(fdt: array<byte>, o: int, w: bytes, ghost b: bytes, ghost s: bytes, ghost u: bytes)
    requires Wrote(b, fdt[..], s, u) && 0 <= o && o + |w| <= |s|
    modifies fdt
    ensures Wrote(b, fdt[..], Put(s, o, w), u) && GapSame(old(fdt[..]), fdt[..])
  {
    hide Hdr, Put;
    ghost var d := fdt[..];
    var h := LoadHeader(fdt);
    MemCpy(fdt, h.offStruct + o, w);
    WroteStruct(d, fdt[..], o, w);
    WroteTwice(b, d, fdt[..], s, u, Put(s, o, w), u);
    GapPut(d, fdt[..], h.offStruct + o, w);
  }

  // ---------- Probes and states ----------

  /** Between `fdt_create` and `fdt_finish_reservemap`. */
  predicate InReserve(b: bytes) {
    Unfinished(b) && Hdr(b).offStrings == 0 && Hdr(b).sizeStruct == 0 && Hdr(b).sizeStrings == 0
  }

  /** Between `fdt_finish_reservemap` and `fdt_finish`. */
  predicate InStruct(b: bytes) {
    Unfinished(b) && Hdr(b).offStrings == Hdr(b).totalsize && Hdr(b).offStruct >= FRONT + RSV_ENTRY
  }

  /** `fdt_sw_probe_memrsv_` and `fdt_sw_probe_struct_`. */
  function SwProbe(h: Header, offStrings: u32): int {
    if h.magic == MAGIC then -ERR_BADSTATE
    else if h.magic != SW_MAGIC then -ERR_BADMAGIC
    else if h.offStrings != offStrings then -ERR_BADSTATE
    else 0
  }

  function StructProbe(b: bytes): int
    requires |b| >= HEADER
  {
    SwProbe(Hdr(b), Hdr(b).totalsize)
  }

  /** The structure block written so far spells out tokens that stand for the events. */
  ghost predicate Spelled(b: bytes, vs: seq<Event>, ks: seq<Token>) {
    && InStruct(b)
    && Spells(StructOf(b), 0, ks) && Length(ks) == |StructOf(b)|
    && AllStand(ks, vs, TailStrings(b))
  }

  /** The calls made so far were `vs`. */
  ghost predicate Written(b: bytes, vs: seq<Event>) {
    exists ks :: Spelled(b, vs, ks)
  }

  /** A step that appended a token standing for `v`, the strings growing by `w` at their front. */
  lemma SpelledMore(b: bytes, d: bytes, s: bytes, w: bytes, vs: seq<Event>, v: Event, k: Token)
    requires Written(b, vs) && Wrote(b, d, s, w + TailStrings(b))
    requires StructOf(b) <= s && |s| == |StructOf(b)| + TokenSize(k)
    requires TokenAt(s, |StructOf(b)|, k)
    requires Stands(k, v, w + TailStrings(b))
    ensures Written(d, vs + [v])
  {
    hide Hdr, TokenAt, Stands, TokenSize;
    var u := TailStrings(b);
    var ks :| Spelled(b, vs, ks);
    SpellsMore(StructOf(b), s, 0, ks, k);
    forall i | 0 <= i < |ks|
      ensures Stands(ks[i], vs[i], w + u)
    {
      StandsDown(ks[i], vs[i], u, w);
    }
    assert Spelled(d, vs + [v], ks + [k]);
  }

  // ---------- The bytes themselves ----------

  function Zeros(n: nat): (w: bytes)
    ensures |w| == n && forall i :: 0 <= i < n ==> w[i] == 0
  {
    if n == 0 then [] else [0] + Zeros(n - 1)
  }

  /** The bytes of a token, its padding zero. */
  function EncToken(k: Token): (w: bytes)
    ensures |w| == TokenSize(k)
  {
    match k
    case Begin(name) => Enc32(BEGIN_NODE) + name + [0] + Zeros(Align(|name| + 1) - |name| - 1)
    case EndNode => Enc32(END_NODE)
    case Plain(Nop) => Enc32(NOP)
    case Plain(Prop(off, val)) => Enc32(PROP) + Enc32(Wrap(|val|)) + Enc32(off) + val + Zeros(Align(|val|) - |val|)
  }

  function EncTokens(ks: seq<Token>): bytes {
    if ks == [] then [] else EncTokens(ks[..|ks| - 1]) + EncToken(ks[|ks| - 1])
  }

  lemma EncTokensMore(ks: seq<Token>, k: Token)
    ensures EncTokens(ks + [k]) == EncTokens(ks) + EncToken(k)
  {
    hide EncToken;
    assert (ks + [k])[..|ks|] == ks;
  }

  /** Nothing but zeros between the structure block and the strings. */
  ghost predicate Blank(b: bytes) {
    && Unfinished(b)
    && forall i :: Hdr(b).offStruct + Hdr(b).sizeStruct <= i < Hdr(b).totalsize - Hdr(b).sizeStrings ==> b[i] == 0
  }

  /** The calls made so far were `vs`, and every byte that they wrote is as the format has it, zeros for padding. */
  ghost predicate Neat(b: bytes, vs: seq<Event>) {
    Blank(b) && exists ks :: Spelled(b, vs, ks) && StructOf(b) == EncTokens(ks)
  }

  lemma BlankSame(b: bytes, d: bytes)
    requires Blank(b) && GapSame(b, d)
    requires Hdr(d).offStruct == Hdr(b).offStruct && Hdr(d).totalsize == Hdr(b).totalsize
    requires Hdr(d).sizeStruct >= Hdr(b).sizeStruct && Hdr(d).sizeStrings >= Hdr(b).sizeStrings
    ensures Blank(d)
  {
    hide Hdr;
  }

  /** A step that appended the bytes of a token. */
  lemma NeatMore(b: bytes, d: bytes, s: bytes, w: bytes, vs: seq<Event>, v: Event, k: Token)
    requires Neat(b, vs) && Wrote(b, d, s, w + TailStrings(b)) && GapSame(b, d)
    requires s == StructOf(b) + EncToken(k) && TokenAt(s, |StructOf(b)|, k) && Stands(k, v, w + TailStrings(b))
    ensures Neat(d, vs + [v])
  {
    hide Hdr, TokenAt, Stands, TokenSize, EncToken, GapSame;
    var u := TailStrings(b);
    var ks :| Spelled(b, vs, ks) && StructOf(b) == EncTokens(ks);
    SpellsMore(StructOf(b), s, 0, ks, k);
    forall i | 0 <= i < |ks|
      ensures Stands(ks[i], vs[i], w + u)
    {
      StandsDown(ks[i], vs[i], u, w);
    }
    EncTokensMore(ks, k);
    BlankSame(b, d);
    assert Spelled(d, vs + [v], ks + [k]) && StructOf(d) == EncTokens(ks + [k]);
  }

  /** What was grabbed from a blank gap is zero. */
  lemma GrabbedZero(b: bytes, d: bytes, s: bytes)
    requires Blank(b) && GapSame(b, d) && Hdr(d).offStruct == Hdr(b).offStruct && Hdr(d).totalsize == Hdr(b).totalsize
    requires Hdr(d).sizeStruct == Hdr(b).sizeStruct && Hdr(d).sizeStrings >= Hdr(b).sizeStrings
    requires |StructOf(b)| <= |s| <= Hdr(d).totalsize - Hdr(d).offStruct - Hdr(d).sizeStrings
    requires s == d[Hdr(d).offStruct..Hdr(d).offStruct + |s|]
    ensures s[|StructOf(b)|..] == Zeros(|s| - |StructOf(b)|)
  {
    hide Hdr;
    var n := |StructOf(b)|;
    forall i | n <= i < |s|
      ensures s[i] == 0
    {
      assert s[i] == d[Hdr(d).offStruct + i] == b[Hdr(b).offStruct + i];
    }
  }

  /** Writing the fields of a head over zeros. */
  lemma HeadBytes(s: bytes, at: int, name: bytes)
    requires 0 <= at && at + HeadSize(name) == |s| && s[at..] == Zeros(HeadSize(name))
    ensures Put(Put(s, at, Enc32(BEGIN_NODE)), at + 4, name + [0]) == s[..at] + EncToken(Begin(name))
  {
    hide Enc32;
    var x := Put(Put(s, at, Enc32(BEGIN_NODE)), at + 4, name + [0]);
    var y := s[..at] + EncToken(Begin(name));
    assert |x| == |y|;
    forall i | 0 <= i < |x|
      ensures x[i] == y[i]
    {
      if i >= at + 4 + |name| + 1 {
        assert x[i] == s[i] == s[at..][i - at] == 0;
      }
    }
  }

  lemma EndBytes(s: bytes, at: int)
    requires 0 <= at && at + TAGSIZE == |s|
    ensures Put(s, at, Enc32(END_NODE)) == s[..at] + EncToken(EndNode)
  {
    hide Enc32;
  }

  /** Writing the fields of a property over zeros. */
  lemma PropBytes(s: bytes, at: int, off: u32, val: bytes)
    requires 0 <= at && at + EntrySize(Prop(off, val)) == |s| <= INT_MAX && s[at..] == Zeros(EntrySize(Prop(off, val)))
    ensures Put(Put(Put(Put(s, at, Enc32(PROP)), at + 8, Enc32(off)), at + 4, Enc32(|val|)), at + 12, val)
            == s[..at] + EncToken(Plain(Prop(off, val)))
  {
    hide Enc32;
    var x := Put(Put(Put(Put(s, at, Enc32(PROP)), at + 8, Enc32(off)), at + 4, Enc32(|val|)), at + 12, val);
    var y := s[..at] + EncToken(Plain(Prop(off, val)));
    assert |x| == |y| && Wrap(|val|) == |val|;
    forall i | 0 <= i < |x|
      ensures x[i] == y[i]
    {
      if i >= at + 12 + |val| {
        assert x[i] == s[i] == s[at..][i - at] == 0;
      }
    }
  }

  /** The reserve map and the header fields that no structure call touches. */
  ghost predicate SameFront(b: bytes, d: bytes) {
    && Unfinished(b) && Unfinished(d) && |d| == |b|
    && Hdr(d).totalsize == Hdr(b).totalsize && Hdr(d).offStruct == Hdr(b).offStruct
    && Hdr(d).offStrings == Hdr(b).offStrings && Hdr(d).lastComp == Hdr(b).lastComp
    && d[HEADER..Hdr(b).offStruct] == b[HEADER..Hdr(b).offStruct]
  }

  // ---------- Nodes ----------

  /** A node head written at the end of a grown block. */
  lemma HeadWritten(s: bytes, at: int, name: bytes)
    requires 0 !in name && 0 <= at && at + HeadSize(name) == |s|
    ensures var t := Put(Put(s, at, Enc32(BEGIN_NODE)), at + 4, name + [0]);
            HeadAt(t, at, name) && |t| == |s| && t[..at] == s[..at]
  {
    hide Be32, Enc32, Put;
    var s1 := Put(s, at, Enc32(BEGIN_NODE));
    var t := Put(s1, at + 4, name + [0]);
    PutReads(s, at, Enc32(BEGIN_NODE));
    PutWord(s, at, BEGIN_NODE, at);
    PutReads(s1, at + 4, name + [0]);
    PutApart(s1, at + 4, name + [0], at, at + 4);
    PutApart(s1, at + 4, name + [0], 0, at);
    assert t[0..at] == t[..at] && s1[0..at] == s1[..at];
    TerminatedName(t, at + 4, name);
  }

  /** `fdt_begin_node`. */
  method BeginNode(fdt: array<byte>, name: bytes, ghost vs: seq<Event>) returns (err: int)
    requires Sized(fdt[..]) && 0 !in name
    requires StructProbe(fdt[..]) == 0 ==> Written(fdt[..], vs)
    modifies fdt
    ensures var b := old(fdt[..]);
      && (StructProbe(b) != 0 ==> err == StructProbe(b))
      && (StructProbe(b) == 0 ==>
           err == if Hdr(b).sizeStruct + HeadSize(name) > Hdr(b).totalsize - Hdr(b).offStruct - Hdr(b).sizeStrings
                  then -ERR_NOSPACE else 0)
      && (err != 0 ==> fdt[..] == b)
      && (err == 0 ==> Written(fdt[..], vs + [Open(name)]) && SameFront(b, fdt[..]) && (Neat(b, vs) ==> Neat(fdt[..], vs + [Open(name)]))
                       && Hdr(fdt[..]).sizeStruct == Hdr(b).sizeStruct + HeadSize(name) && Hdr(fdt[..]).sizeStrings == Hdr(b).sizeStrings)
  {
    hide Hdr, Put, Enc32, Spells, HeadAt, Wrote, GapSame, Neat, EncToken;
    ghost var b := fdt[..];
    var h := LoadHeader(fdt);
    err := SwProbe(h, h.totalsize);
    if err != 0 {
      return;
    }
    var at;
    ghost var s;
    at, s := GrabSpace(fdt, TAGSIZE + Align(|name| + 1));
    if at < 0 {
      return -ERR_NOSPACE;
    }
    ghost var u, d1 := TailStrings(b), fdt[..];
    WriteSw(fdt, at, Enc32(BEGIN_NODE), b, s, u);
    ghost var s1, d2 := Put(s, at, Enc32(BEGIN_NODE)), fdt[..];
    GapStep(b, b, d1, d2, s, u, s1, u);
    WriteSw(fdt, at + TAGSIZE, name + [0], b, s1, u);
    ghost var s2 := Put(s1, at + 4, name + [0]);
    GapStep(b, b, d2, fdt[..], s1, u, s2, u);
    HeadWritten(s, at, name);
    assert [] + u == u;
    SpelledMore(b, fdt[..], s2, [], vs, Open(name), Begin(name));
    WroteFront(b, fdt[..], s2, u);
    WroteSize(b, fdt[..], s2, u);
    if Neat(b, vs) {
      NeatGrab(b, s, vs);
      HeadBytes(s, at, name);
      NeatMore(b, fdt[..], s2, [], vs, Open(name), Begin(name));
    }
  }

  lemma NeatGrab(b: bytes, s: bytes, vs: seq<Event>)
    requires Neat(b, vs) && |StructOf(b)| <= |s| <= Hdr(b).totalsize - Hdr(b).offStruct - Hdr(b).sizeStrings
    requires s == b[Hdr(b).offStruct..Hdr(b).offStruct + |s|]
    ensures s[|StructOf(b)|..] == Zeros(|s| - |StructOf(b)|) && s[..|StructOf(b)|] == StructOf(b)
  {
    hide Hdr;
    SameBehind(b, b);
    GrabbedZero(b, b, s);
  }

  lemma WroteFront(b: bytes, d: bytes, s: bytes, u: bytes)
    requires Wrote(b, d, s, u)
    ensures SameFront(b, d)
  {
    hide Hdr;
  }

  /** `fdt_end_node`. */
  method EndNodeCall(fdt: array<byte>, ghost vs: seq<Event>) returns (err: int)
    requires Sized(fdt[..])
    requires StructProbe(fdt[..]) == 0 ==> Written(fdt[..], vs)
    modifies fdt
    ensures var b := old(fdt[..]);
      && (StructProbe(b) != 0 ==> err == StructProbe(b))
      && (StructProbe(b) == 0 ==>
           err == if Hdr(b).sizeStruct + TAGSIZE > Hdr(b).totalsize - Hdr(b).offStruct - Hdr(b).sizeStrings
                  then -ERR_NOSPACE else 0)
      && (err != 0 ==> fdt[..] == b)
      && (err == 0 ==> Written(fdt[..], vs + [Close]) && SameFront(b, fdt[..]) && (Neat(b, vs) ==> Neat(fdt[..], vs + [Close]))
                       && Hdr(fdt[..]).sizeStruct == Hdr(b).sizeStruct + TAGSIZE && Hdr(fdt[..]).sizeStrings == Hdr(b).sizeStrings)
  {
    hide Hdr, Put, Enc32, Spells, Wrote, GapSame, Neat, EncToken;
    ghost var b := fdt[..];
    var h := LoadHeader(fdt);
    err := SwProbe(h, h.totalsize);
    if err != 0 {
      return;
    }
    var at;
    ghost var s;
    at, s := GrabSpace(fdt, TAGSIZE);
    if at < 0 {
      return -ERR_NOSPACE;
    }
    ghost var u, d1 := TailStrings(b), fdt[..];
    WriteSw(fdt, at, Enc32(END_NODE), b, s, u);
    GapStep(b, b, d1, fdt[..], s, u, Put(s, at, Enc32(END_NODE)), u);
    PutWord(s, at, END_NODE, at);
    PutReads(s, at, Enc32(END_NODE));
    assert [] + u == u;
    SpelledMore(b, fdt[..], Put(s, at, Enc32(END_NODE)), [], vs, Close, EndNode);
    WroteFront(b, fdt[..], Put(s, at, Enc32(END_NODE)), u);
    WroteSize(b, fdt[..], Put(s, at, Enc32(END_NODE)), u);
    if Neat(b, vs) {
      NeatGrab(b, s, vs);
      EndBytes(s, at);
      NeatMore(b, fdt[..], Put(s, at, Enc32(END_NODE)), [], vs, Close, EndNode);
    }
  }

  // ---------- Properties ----------

  /** `fdt_find_string_` on the strings written so far. */
  method FindTail(fdt: array<byte>, name: bytes) returns (r: int)
    requires Unfinished(fdt[..])
    ensures r == FindString(TailStrings(fdt[..]), 0, name)
  {
    hide Hdr;
    ghost var b := fdt[..];
    ghost var u := TailStrings(b);
    var h := LoadHeader(fdt);
    var base := h.totalsize - h.sizeStrings;
    r := 0;
    while r + |name| + 1 <= h.sizeStrings
      invariant 0 <= r
      invariant FindString(u, 0, name) == FindString(u, r, name)
    {
      SliceOfSlice(b, base, h.sizeStrings, r, |name| + 1);
      if fdt[base + r..base + r + |name| + 1] == name + [0] {
        return;
      }
      r := r + 1;
    }
    r := -1;
  }

  /** Bytes between the structure block and the strings. */
  function RoomLeft(h: Header): int {
    h.totalsize - h.offStruct - h.sizeStruct - h.sizeStrings
  }

  /** The test of `fdt_add_string_` for `n` bytes, in the unsigned arithmetic of the code. */
  predicate Refused(h: Header, n: int) {
    Wrap(h.totalsize - h.sizeStrings - n) < h.offStruct + h.sizeStruct
  }

  /** The test tells whether the string fits exactly when the strings, with it, are no longer than the buffer. */
  lemma RefusedExact(h: Header, n: int)
    requires 0 <= RoomLeft(h) && h.totalsize <= INT_MAX && 0 < n <= INT_MAX
    ensures (Refused(h, n) <==> n > RoomLeft(h)) <==> n + h.sizeStrings <= h.totalsize
  {
  }

  /** A buffer of 100 bytes and a name of 120: there is no room, and the test does not refuse. */
  lemma LongNameAccepted(h: Header)
    requires h.totalsize == 100 && h.offStruct == 64 && h.sizeStruct == 0 && h.sizeStrings == 0
    ensures 121 > RoomLeft(h) && !Refused(h, 121)
  {
  }

  /** `fdt_add_string_`: the negative offset of the new string, 0 when there is no room, or `ASTRAY`. */
  method AddString(fdt: array<byte>, name: bytes) returns (off: int)
    requires Unfinished(fdt[..]) && 0 !in name && |name| < INT_MAX
    modifies fdt
    ensures var b := old(fdt[..]);
            var h := Hdr(b);
            var u := TailStrings(b);
      && off == (if |name| + 1 + h.sizeStrings > h.totalsize then ASTRAY
                 else if |name| + 1 > RoomLeft(h) then 0 else 0 - h.sizeStrings - |name| - 1)
      && (off >= 0 ==> fdt[..] == b)
      && (off < 0 ==> Wrote(b, fdt[..], StructOf(b), (name + [0]) + u) && Str((name + [0]) + u, 0) == Some(name) && GapSame(b, fdt[..]))
  {
    hide Hdr, Put;
    ghost var b := fdt[..];
    var h := LoadHeader(fdt);
    off := 0 - h.sizeStrings - |name| - 1;
    RefusedExact(h, |name| + 1);
    if Refused(h, |name| + 1) {
      return 0;
    }
    if h.totalsize + off < 0 {
      return ASTRAY;
    }
    MemCpy(fdt, h.totalsize + off, name + [0]);
    ghost var m := fdt[..];
    SetSizeStrings(fdt, h.sizeStrings + |name| + 1);
    assert fdt[..][HEADER..] == m[HEADER..];
    StringAdded(b, m, fdt[..], name);
    GapPut(b, fdt[..], h.totalsize + off, name + [0]);
  }

  lemma StringAdded(b: bytes, m: bytes, d: bytes, name: bytes)
    requires Unfinished(b) && 0 !in name
    requires Hdr(b).totalsize - Hdr(b).sizeStrings - |name| - 1 >= Hdr(b).offStruct + Hdr(b).sizeStruct
    requires m == Put(b, Hdr(b).totalsize - Hdr(b).sizeStrings - |name| - 1, name + [0])
    requires |d| == |m| && d[HEADER..] == m[HEADER..]
    requires Hdr(d) == Hdr(m).(sizeStrings := Hdr(b).sizeStrings + |name| + 1)
    ensures Wrote(b, d, StructOf(b), (name + [0]) + TailStrings(b))
    ensures Str((name + [0]) + TailStrings(b), 0) == Some(name)
  {
    hide Hdr, Put, Str;
    var h := Hdr(b);
    var w := name + [0];
    var at := h.totalsize - h.sizeStrings - |w|;
    SpliceHeader(b, m, at, w);
    PutReads(b, at, w);
    PutApart(b, at, w, HEADER, h.offStruct);
    PutApart(b, at, w, h.offStruct, h.offStruct + h.sizeStruct);
    PutApart(b, at, w, h.totalsize - h.sizeStrings, h.totalsize);
    TailSlice(m, d, HEADER, h.offStruct);
    TailSlice(m, d, h.offStruct, h.offStruct + h.sizeStruct);
    TailSlice(m, d, at, h.totalsize);
    assert m[at..h.totalsize] == m[at..at + |w|] + m[at + |w|..h.totalsize];
    var t := w + TailStrings(b);
    assert t[0..|name|] == name;
    StrIs(t, 0, name);
  }

  /** The name is there already and may be shared. */
  predicate Shared(b: bytes, name: bytes)
    requires Unfinished(b)
  {
    Hdr(b).lastComp % 2 == 0 && FindString(TailStrings(b), 0, name) >= 0
  }

  /** Bytes a new property takes: its name, unless shared, and its entry. */
  function NameCost(b: bytes, name: bytes): (n: nat)
    requires Unfinished(b)
  {
    if Shared(b, name) then 0 else |name| + 1
  }

  /** The code writes in front of the buffer: the name is to be added and does not fit into the buffer below the strings. */
  predicate Overlong(b: bytes, name: bytes)
    requires Unfinished(b)
  {
    !Shared(b, name) && |name| + 1 + Hdr(b).sizeStrings > Hdr(b).totalsize
  }

  /** `fdt_find_add_string_`, or `fdt_add_string_` when names are not to be shared. */
  method PlaceName(fdt: array<byte>, name: bytes, dedup: bool) returns (off: int, added: bool, ghost w: bytes)
    requires Unfinished(fdt[..]) && 0 !in name && |name| < INT_MAX && dedup == (Hdr(fdt[..]).lastComp % 2 == 0)
    modifies fdt
    ensures off > 0 <==> Overlong(old(fdt[..]), name)
    ensures off > 0 ==> off == ASTRAY
    ensures off == 0 <==> !Overlong(old(fdt[..]), name) && NameCost(old(fdt[..]), name) > RoomLeft(Hdr(old(fdt[..])))
    ensures off >= 0 ==> fdt[..] == old(fdt[..])
    ensures off < 0 ==>
      var b := old(fdt[..]);
      && w == (if added then name + [0] else []) && |w| == NameCost(b, name)
      && Wrote(b, fdt[..], StructOf(b), w + TailStrings(b)) && GapSame(b, fdt[..])
      && |w + TailStrings(b)| + off >= 0
      && Str(w + TailStrings(b), |w + TailStrings(b)| + off) == Some(name)
  {
    hide Hdr, Put, Wrote, Str, FindString;
    ghost var b := fdt[..];
    ghost var u := TailStrings(b);
    added := true;
    w := name + [0];
    if dedup {
      var p := FindTail(fdt, name);
      if p >= 0 {
        var h := LoadHeader(fdt);
        off := p - h.sizeStrings;
        added := false;
        w := [];
        assert w + u == u;
        FoundString(u, p, name);
        WroteSelf(b);
        SameBehind(b, b);
        return;
      }
    }
    off := AddString(fdt, name);
  }

  /** `fdt_del_last_string_`. */
  method UndoString(fdt: array<byte>, name: bytes, ghost b: bytes)
    requires Unfinished(b) && Wrote(b, fdt[..], StructOf(b), (name + [0]) + TailStrings(b))
    modifies fdt
    ensures Wrote(b, fdt[..], StructOf(b), TailStrings(b))
  {
    hide Hdr;
    ghost var d, u := fdt[..], TailStrings(b);
    var h := LoadHeader(fdt);
    SetSizeStrings(fdt, h.sizeStrings - |name| - 1);
    assert fdt[..][HEADER..] == d[HEADER..];
    assert u == ((name + [0]) + u)[|name| + 1..];
    SliceOfSlice(d, h.totalsize - h.sizeStrings, h.sizeStrings, |name| + 1, |u|);
    Resized(d, fdt[..], StructOf(b), u);
    WroteTwice(b, d, fdt[..], StructOf(b), (name + [0]) + u, StructOf(b), u);
  }

  /** A property written at the end of a grown block. */
  lemma PropWritten(s: bytes, at: int, nameoff: u32, val: bytes)
    requires 0 <= at && at + EntrySize(Prop(nameoff, val)) == |s| <= INT_MAX
    ensures var t := Put(Put(Put(Put(s, at, Enc32(PROP)), at + 8, Enc32(nameoff)), at + 4, Enc32(|val|)), at + 12, val);
            EntryAt(t, at, Prop(nameoff, val)) && |t| == |s| && t[..at] == s[..at]
  {
    hide Enc32, Put, EntryAt, Be32;
    SplicedSelfTail(s, at);
    FreshEntry(s[..at], s, at, nameoff, val);
    var t := Put(Put(Put(Put(s, at, Enc32(PROP)), at + 8, Enc32(nameoff)), at + 4, Enc32(|val|)), at + 12, val);
    assert t[0..at] == s[..at][0..at];
  }

  lemma SplicedSelfTail(s: bytes, at: int)
    requires 0 <= at <= |s|
    ensures Spliced(s[..at], s, at, at, |s|)
  {
  }

  /** The four writes of a property. */
  method FillSw(fdt: array<byte>, at: int, nameoff: u32, val: bytes, ghost b: bytes, ghost s: bytes, ghost u: bytes)
    requires Wrote(b, fdt[..], s, u) && 0 <= at && at + 12 + |val| <= |s|
    modifies fdt
    ensures Wrote(b, fdt[..], Put(Put(Put(Put(s, at, Enc32(PROP)), at + 8, Enc32(nameoff)), at + 4, Enc32(|val|)), at + 12, val), u)
    ensures GapSame(old(fdt[..]), fdt[..])
  {
    hide Hdr, Put, Enc32, Wrote, GapSame;
    ghost var d := fdt[..];
    WroteSize(b, d, s, u);
    WriteSw(fdt, at, Enc32(PROP), b, s, u);
    ghost var s1, d1 := Put(s, at, Enc32(PROP)), fdt[..];
    WriteSw(fdt, at + 8, Enc32(nameoff), b, s1, u);
    ghost var s2, d2 := Put(s1, at + 8, Enc32(nameoff)), fdt[..];
    GapStep(b, d, d1, d2, s1, u, s2, u);
    WriteSw(fdt, at + 4, Enc32(|val|), b, s2, u);
    ghost var s3, d3 := Put(s2, at + 4, Enc32(|val|)), fdt[..];
    GapStep(b, d, d2, d3, s2, u, s3, u);
    WriteSw(fdt, at + 12, val, b, s3, u);
    GapStep(b, d, d3, fdt[..], s3, u, Put(s3, at + 12, val), u);
  }

  lemma GapStep(b: bytes, c: bytes, d: bytes, e: bytes, s: bytes, u: bytes, s2: bytes, u2: bytes)
    requires Wrote(b, d, s, u) && Wrote(b, e, s2, u2) && |s| <= |s2| && |u| <= |u2|
    requires GapSame(c, d) && GapSame(d, e)
    ensures GapSame(c, e)
  {
    hide Hdr, GapSame;
    GapTwice(c, d, e);
  }

  lemma WroteSize(b: bytes, d: bytes, s: bytes, u: bytes)
    requires Wrote(b, d, s, u)
    ensures Unfinished(d) && StructOf(d) == s && TailStrings(d) == u && |s| <= INT_MAX && |u| <= INT_MAX
    ensures Hdr(d).totalsize == Hdr(b).totalsize && Hdr(d).offStruct == Hdr(b).offStruct && Hdr(d).offStrings == Hdr(b).offStrings
    ensures Hdr(d).sizeStruct == |s| && Hdr(d).sizeStrings == |u|
  {
    hide Hdr;
  }

  /**
   `fdt_property`: appends the property, or leaves the tokens and strings written so far as
   they were; it fails exactly when entry and name do not fit between the two regions. Of a
   name that is `Overlong` nothing is promised.
   */
  method PropertyCall(fdt: array<byte>, name: bytes, val: bytes, ghost vs: seq<Event>) returns (err: int)
    requires Sized(fdt[..]) && 0 !in name && |name| < INT_MAX
    requires StructProbe(fdt[..]) == 0 ==> Written(fdt[..], vs)
    modifies fdt
    ensures var b := old(fdt[..]);
      && (StructProbe(b) != 0 ==> err == StructProbe(b) && fdt[..] == b)
      && (StructProbe(b) == 0 ==>
           && Unfinished(b)
           && err == (if Overlong(b, name) then -ASTRAY
                      else if EntrySize(Prop(0, val)) + NameCost(b, name) > RoomLeft(Hdr(b)) then -ERR_NOSPACE else 0))
      && (err == -ERR_NOSPACE && StructProbe(b) == 0 ==> Wrote(b, fdt[..], StructOf(b), TailStrings(b)))
      && (err == 0 ==> Written(fdt[..], vs + [Property(name, val)]) && SameFront(b, fdt[..])
                       && (Neat(b, vs) ==> Neat(fdt[..], vs + [Property(name, val)])))
  {
    hide Hdr, Put, Enc32, Spells, EntryAt, Str, Wrote, GapSame, Neat, SameFront, FindString;
    ghost var b := fdt[..];
    var h := LoadHeader(fdt);
    err := SwProbe(h, h.totalsize);
    if err != 0 {
      return;
    }
    WroteSelf(b);
    var off, added;
    ghost var w;
    off, added, w := PlaceName(fdt, name, h.lastComp % 2 == 0);
    if off > 0 {
      return -ASTRAY;
    }
    if off == 0 {
      return -ERR_NOSPACE;
    }
    err := GrabProperty(fdt, off, added, name, val, b, w, vs);
  }

  /** `fdt_property` once its name is placed: it takes the space for the entry, or gives the name up again. */
  method GrabProperty(fdt: array<byte>, off: int, added: bool, name: bytes, val: bytes, ghost b: bytes, ghost w: bytes, ghost vs: seq<Event>)
    returns (err: int)
    requires Unfinished(b) && Written(b, vs) && Wrote(b, fdt[..], StructOf(b), w + TailStrings(b)) && GapSame(b, fdt[..])
    requires w == if added then name + [0] else []
    requires off < 0 && |w + TailStrings(b)| + off >= 0 && Str(w + TailStrings(b), |w + TailStrings(b)| + off) == Some(name)
    modifies fdt
    ensures err == if EntrySize(Prop(0, val)) + |w| > RoomLeft(Hdr(b)) then -ERR_NOSPACE else 0
    ensures err != 0 ==> Wrote(b, fdt[..], StructOf(b), TailStrings(b))
    ensures err == 0 ==> Written(fdt[..], vs + [Property(name, val)]) && SameFront(b, fdt[..])
                         && (Neat(b, vs) ==> Neat(fdt[..], vs + [Property(name, val)]))
  {
    hide Hdr, Put, Enc32, Spells, EntryAt, Str, Wrote, GapSame, Neat, Written, SameFront, FindString, Zeros;
    ghost var u := TailStrings(b);
    ghost var d1, u1 := fdt[..], w + u;
    WroteSize(b, d1, StructOf(b), u1);
    var at;
    ghost var s;
    at, s := GrabSpace(fdt, 12 + Align(|val|));
    if at < 0 {
      if added {
        UndoString(fdt, name, b);
      } else {
        assert [] + u == u;
      }
      return -ERR_NOSPACE;
    }
    WroteTwice(b, d1, fdt[..], StructOf(b), u1, s, u1);
    GapStep(b, b, d1, fdt[..], StructOf(b), u1, s, u1);
    if Neat(b, vs) {
      NeatGap(b, d1, s, vs);
    }
    EndWithProperty(fdt, at, off, name, val, b, s, w, vs);
    err := 0;
  }

  lemma NeatGap(b: bytes, d: bytes, s: bytes, vs: seq<Event>)
    requires Neat(b, vs) && GapSame(b, d) && Hdr(d).offStruct == Hdr(b).offStruct && Hdr(d).totalsize == Hdr(b).totalsize
    requires Hdr(d).sizeStruct == Hdr(b).sizeStruct && Hdr(d).sizeStrings >= Hdr(b).sizeStrings
    requires |StructOf(b)| <= |s| <= Hdr(d).totalsize - Hdr(d).offStruct - Hdr(d).sizeStrings
    requires s == d[Hdr(d).offStruct..Hdr(d).offStruct + |s|]
    ensures s[|StructOf(b)|..] == Zeros(|s| - |StructOf(b)|)
  {
    hide Hdr, GapSame;
    GrabbedZero(b, d, s);
  }

  /** The property is written into the space grabbed for it. */
  method EndWithProperty(fdt: array<byte>, at: int, off: int, name: bytes, val: bytes, ghost b: bytes, ghost s: bytes, ghost w: bytes,
                         ghost vs: seq<Event>)
    requires Written(b, vs) && Unfinished(b) && Wrote(b, fdt[..], s, w + TailStrings(b))
    requires at == |StructOf(b)| && StructOf(b) <= s && |s| == at + 12 + Align(|val|)
    requires off < 0 && |w + TailStrings(b)| + off >= 0 && Str(w + TailStrings(b), |w + TailStrings(b)| + off) == Some(name)
    requires GapSame(b, fdt[..]) && (Neat(b, vs) ==> s[at..] == Zeros(|s| - at))
    modifies fdt
    ensures Written(fdt[..], vs + [Property(name, val)]) && SameFront(b, fdt[..])
    ensures Neat(b, vs) ==> Neat(fdt[..], vs + [Property(name, val)])
  {
    hide Hdr, Put, Enc32, Spells, EntryAt, Str, Wrote, Written, TokenAt, Stands, TailStrings, StructOf, SameFront, GapSame, Neat, EncToken, Zeros;
    ghost var d := fdt[..];
    ghost var u1 := w + TailStrings(b);
    WroteSize(b, fdt[..], s, u1);
    var nameoff := 0x1_0000_0000 + off;
    FillSw(fdt, at, nameoff, val, b, s, u1);
    GapStep(b, b, d, fdt[..], s, u1, Put(Put(Put(Put(s, at, Enc32(PROP)), at + 8, Enc32(nameoff)), at + 4, Enc32(|val|)), at + 12, val), u1);
    PropWritten(s, at, nameoff, val);
    ghost var s' := Put(Put(Put(Put(s, at, Enc32(PROP)), at + 8, Enc32(nameoff)), at + 4, Enc32(|val|)), at + 12, val);
    PropStands(nameoff, off, name, val, u1);
    PropTokenAt(s', at, Prop(nameoff, val));
    assert s'[..at] == s[..at] == StructOf(b);
    SpelledMore(b, fdt[..], s', w, vs, Property(name, val), Plain(Prop(nameoff, val)));
    WroteFront(b, fdt[..], s', u1);
    if Neat(b, vs) {
      PropBytes(s, at, nameoff, val);
      NeatMore(b, fdt[..], s', w, vs, Property(name, val), Plain(Prop(nameoff, val)));
    }
  }

  lemma PropStands(nameoff: u32, off: int, name: bytes, val: bytes, u: bytes)
    requires off < 0 && nameoff == 0x1_0000_0000 + off && |u| + off >= 0 && |u| <= INT_MAX
    requires Str(u, |u| + off) == Some(name)
    ensures Stands(Plain(Prop(nameoff, val)), Property(name, val), u)
  {
  }

  lemma PropTokenAt(s: bytes, at: int, e: Entry)
    requires EntryAt(s, at, e)
    ensures TokenAt(s, at, Plain(e)) && TokenSize(Plain(e)) == EntrySize(e)
  {
  }
}
