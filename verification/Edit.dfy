/**
 The editor of fdt_rw.c and fdt_wip.c: it splices the packed buffer in place.

 Every editing method is told, in ghost arguments, where in the decoded tree the
 addressed node stands: `c` is everything around it, `n` its name, `body` its content,
 `r` the siblings behind it.
 */
module Edit {
  import opened Options
  import opened Bytes
  import opened Structure
  import opened Blob
  import opened Buffer
  import opened Walk
  import opened Read
  import opened Meaning
  import opened Core

  /** The blob decodes to `it`, and every property has a name. */
  ghost predicate Denotes(b: bytes, it: Items) {
    Ready(b) && Block(StructOf(b), it) && Named(it, StringsOf(b))
  }

  /** A blob as libfdt expects it from its caller: sized, with a header that passes the header check. */
  predicate Wellformed(b: bytes) {
    Sized(b) && CheckHeader(Hdr(b)) == 0
  }

  // ---------- Header updates ----------

  method SetVersion(fdt: array<byte>, v: u32)
    requires fdt.Length >= HEADER
    modifies fdt
    ensures Hdr(fdt[..]) == Hdr(old(fdt[..])).(version := v) && fdt[HEADER..] == old(fdt[HEADER..])
  {
    hide Hdr, Put;
    PutHeader(fdt[..], 20, v);
    Store32(fdt, 20, v);
    assert fdt[HEADER..] == fdt[..][HEADER..];
  }

  method SetOffStrings(fdt: array<byte>, v: u32)
    requires fdt.Length >= HEADER
    modifies fdt
    ensures Hdr(fdt[..]) == Hdr(old(fdt[..])).(offStrings := v) && fdt[HEADER..] == old(fdt[HEADER..])
  {
    hide Hdr, Put;
    PutHeader(fdt[..], 12, v);
    Store32(fdt, 12, v);
    assert fdt[HEADER..] == fdt[..][HEADER..];
  }

  method SetSizeStrings(fdt: array<byte>, v: u32)
    requires fdt.Length >= HEADER
    modifies fdt
    ensures Hdr(fdt[..]) == Hdr(old(fdt[..])).(sizeStrings := v) && fdt[HEADER..] == old(fdt[HEADER..])
  {
    hide Hdr, Put;
    PutHeader(fdt[..], 32, v);
    Store32(fdt, 32, v);
    assert fdt[HEADER..] == fdt[..][HEADER..];
  }

  method SetSizeStruct(fdt: array<byte>, v: u32)
    requires fdt.Length >= HEADER
    modifies fdt
    ensures Hdr(fdt[..]) == Hdr(old(fdt[..])).(sizeStruct := v) && fdt[HEADER..] == old(fdt[HEADER..])
  {
    hide Hdr, Put;
    PutHeader(fdt[..], 36, v);
    Store32(fdt, 36, v);
    assert fdt[HEADER..] == fdt[..][HEADER..];
  }

  /** A region behind the header, seen through the tail that header updates preserve. */
  lemma TailSlice(b: bytes, d: bytes, i: int, j: int)
    requires HEADER <= i <= j <= |b| && HEADER <= |d|
    requires d[HEADER..] == b[HEADER..]
    ensures |d| == |b| && d[i..j] == b[i..j]
  {
    assert b[i..j] == b[HEADER..][i - HEADER..j - HEADER];
    assert d[i..j] == d[HEADER..][i - HEADER..j - HEADER];
  }

  /** `fdt_rw_probe_`. */
  method ProbeRw(fdt: array<byte>) returns (err: int)
    requires Wellformed(fdt[..])
    modifies fdt
    ensures err == RwProbe(Hdr(old(fdt[..])))
    ensures err != 0 ==> fdt[..] == old(fdt[..])
    ensures err == 0 ==> Ready(old(fdt[..]))
    ensures err == 0 ==> Edited(old(fdt[..]), fdt[..], StructOf(old(fdt[..])), StringsOf(old(fdt[..])))
  {
    hide Hdr;
    var h := LoadHeader(fdt);
    RwProbeAcceptsOrdered(h);
    err := RwProbe(h);
    if err == 0 && h.version > 17 {
      SetVersion(fdt, 17);
    }
    if err == 0 {
      ghost var b, d := old(fdt[..]), fdt[..];
      assert d[HEADER..] == b[HEADER..];
      TailSlice(b, d, HEADER, h.offStruct);
      TailSlice(b, d, h.offStruct, h.offStruct + h.sizeStruct);
      TailSlice(b, d, h.offStrings, h.offStrings + h.sizeStrings);
    }
  }

  // ---------- Splicing ----------

  /** `fdt_splice_`: makes room at the absolute offset `p`, moving everything behind it. */
  method Splice(fdt: array<byte>, p: int, oldlen: int, newlen: int) returns (err: int)
    requires Ready(fdt[..]) && 0 <= p && 0 <= oldlen && 0 <= newlen
    modifies fdt
    ensures var b := old(fdt[..]);
            var end := Hdr(b).offStrings + Hdr(b).sizeStrings;
            if p + oldlen > end then err == -ERR_BADOFFSET && fdt[..] == b
            else if end - oldlen + newlen > Hdr(b).totalsize then err == -ERR_NOSPACE && fdt[..] == b
            else err == 0 && fdt[..] == Put(b, p + newlen, b[p + oldlen..end])
  {
    hide Hdr;
    var h := LoadHeader(fdt);
    var end := h.offStrings + h.sizeStrings;
    if p + oldlen < p || p + oldlen > end {
      return -ERR_BADOFFSET;
    }
    if end - oldlen + newlen > h.totalsize {
      return -ERR_NOSPACE;
    }
    MemMove(fdt, p + newlen, p + oldlen, end - p - oldlen);
    err := 0;
  }

  /** `d` is `b` with the bytes from `p + oldlen` to the end of the strings moved to `p + newlen`, and the header adjusted. */
  ghost predicate MovedUp(b: bytes, d: bytes, o: int, oldlen: int, newlen: int) {
    && Ready(b) && |d| == |b|
    && 0 <= o && 0 <= oldlen && 0 <= newlen && o + oldlen <= Hdr(b).sizeStruct
    && Hdr(b).offStrings + Hdr(b).sizeStrings + newlen - oldlen <= Hdr(b).totalsize
    && Hdr(d) == Hdr(b).(sizeStruct := Hdr(b).sizeStruct + newlen - oldlen,
                         offStrings := Hdr(b).offStrings + newlen - oldlen)
    && var p := Hdr(b).offStruct + o;
       d[HEADER..] == Put(b, p + newlen, b[p + oldlen..Hdr(b).offStrings + Hdr(b).sizeStrings])[HEADER..]
  }

  lemma IsMovedUp(b: bytes, m: bytes, d: bytes, o: int, oldlen: int, newlen: int)
    requires Ready(b) && 0 <= o && 0 <= oldlen && 0 <= newlen && o + oldlen <= Hdr(b).sizeStruct
    requires var h := Hdr(b);
             var p := h.offStruct + o;
             && h.offStrings + h.sizeStrings + newlen - oldlen <= h.totalsize
             && m == Put(b, p + newlen, b[p + oldlen..h.offStrings + h.sizeStrings])
             && |d| == |m| && d[HEADER..] == m[HEADER..]
             && Hdr(d) == Hdr(m).(sizeStruct := h.sizeStruct + newlen - oldlen, offStrings := h.offStrings + newlen - oldlen)
    ensures MovedUp(b, d, o, oldlen, newlen) && Ready(d)
  {
    hide Hdr, Put;
    var h := Hdr(b);
    var p := h.offStruct + o;
    SpliceHeader(b, m, p + newlen, b[p + oldlen..h.offStrings + h.sizeStrings]);
  }

  lemma MovedStrings(b: bytes, d: bytes, o: int, oldlen: int, newlen: int)
    requires MovedUp(b, d, o, oldlen, newlen)
    ensures Edited(b, d, StructOf(d), StringsOf(b))
  {
    hide Hdr;
    var h, g := Hdr(b), Hdr(d);
    var p := h.offStruct + o;
    var w := b[p + oldlen..h.offStrings + h.sizeStrings];
    var m := Put(b, p + newlen, w);
    PutReads(b, p + newlen, w);
    hide Put;
    TailSlice(m, d, HEADER, h.offStruct);
    PutApart(b, p + newlen, w, HEADER, h.offStruct);
    var back := h.offStrings - p - oldlen;
    TailSlice(m, d, g.offStrings, g.offStrings + h.sizeStrings);
    SliceOfSlice(m, p + newlen, |w|, back, h.sizeStrings);
    SliceOfSlice(b, p + oldlen, |w|, back, h.sizeStrings);
  }

  lemma MovedStruct(b: bytes, d: bytes, o: int, oldlen: int, newlen: int)
    requires MovedUp(b, d, o, oldlen, newlen) && Ready(d)
    ensures Spliced(StructOf(b), StructOf(d), o, o + oldlen, o + newlen)
  {
    hide Hdr, Put;
    var h := Hdr(b);
    var p := h.offStruct + o;
    var w := b[p + oldlen..h.offStrings + h.sizeStrings];
    var m := Put(b, p + newlen, w);
    var n := h.sizeStruct - o - oldlen;
    TailSlice(m, d, h.offStruct, p);
    PutApart(b, p + newlen, w, h.offStruct, p);
    StructBytes(b, 0, o);
    StructBytes(d, 0, o);
    assert Same(StructOf(b), 0, StructOf(d), 0, o);
    MovedTail(b, m, p + oldlen, p + newlen, w, n);
    TailSlice(m, d, p + newlen, p + newlen + n);
    StructBytes(b, o + oldlen, n);
    StructBytes(d, o + newlen, n);
  }

  lemma MovedTail(b: bytes, m: bytes, i: int, j: int, w: bytes, n: int)
    requires 0 <= i && i + |w| <= |b| && w == b[i..i + |w|]
    requires 0 <= j && j + |w| <= |b| && m == Put(b, j, w) && 0 <= n <= |w|
    ensures m[j..j + n] == b[i..i + n]
  {
    PutReads(b, j, w);
    SliceOfSlice(m, j, |w|, 0, n);
    SliceOfSlice(b, i, |w|, 0, n);
  }

  /** `fdt_splice_struct_`. */
  method SpliceStruct(fdt: array<byte>, o: int, oldlen: int, newlen: int) returns (err: int)
    requires Ready(fdt[..])
    requires 0 <= o && 0 <= oldlen && 0 <= newlen && o + oldlen <= Hdr(fdt[..]).sizeStruct
    modifies fdt
    ensures err == if newlen - oldlen > Slack(old(fdt[..])) then -ERR_NOSPACE else 0
    ensures err != 0 ==> fdt[..] == old(fdt[..])
    ensures err == 0 ==> Ready(fdt[..]) && Edited(old(fdt[..]), fdt[..], StructOf(fdt[..]), StringsOf(old(fdt[..])))
    ensures err == 0 ==> Spliced(StructOf(old(fdt[..])), StructOf(fdt[..]), o, o + oldlen, o + newlen)
    ensures err == 0 && oldlen <= newlen ==>
              Spliced(StructOf(old(fdt[..])), StructOf(fdt[..]), o + oldlen, o + oldlen, o + newlen)
  {
    hide Hdr, Put, Spliced, MovedUp, Edited;
    ghost var b := fdt[..];
    var h := LoadHeader(fdt);
    err := Splice(fdt, h.offStruct + o, oldlen, newlen);
    if err != 0 {
      return;
    }
    ghost var m := fdt[..];
    SpliceHeader(b, m, h.offStruct + o + newlen, b[h.offStruct + o + oldlen..h.offStrings + h.sizeStrings]);
    SetSizeStruct(fdt, h.sizeStruct + newlen - oldlen);
    SetOffStrings(fdt, h.offStrings + newlen - oldlen);
    assert fdt[..][HEADER..] == fdt[HEADER..] == m[HEADER..];
    IsMovedUp(b, m, fdt[..], o, oldlen, newlen);
    MovedStrings(b, fdt[..], o, oldlen, newlen);
    MovedStruct(b, fdt[..], o, oldlen, newlen);
    if oldlen <= newlen {
      MovedBehind(b, fdt[..], o, oldlen, newlen);
      MovedStruct(b, fdt[..], o + oldlen, 0, newlen - oldlen);
    }
  }

  /** Growing by a move is also inserting behind what was there. */
  lemma MovedBehind(b: bytes, d: bytes, o: int, oldlen: int, newlen: int)
    requires MovedUp(b, d, o, oldlen, newlen) && oldlen <= newlen
    ensures MovedUp(b, d, o + oldlen, 0, newlen - oldlen)
  {
    hide Hdr, Put;
    var p := Hdr(b).offStruct + o;
    assert p + oldlen + (newlen - oldlen) == p + newlen && p + oldlen + 0 == p + oldlen;
  }

  lemma SpliceHeader(b: bytes, m: bytes, i: int, w: bytes)
    requires |b| >= HEADER && HEADER <= i && i + |w| <= |b| && m == Put(b, i, w)
    ensures Hdr(m) == Hdr(b)
  {
    PutApart(b, i, w, 0, HEADER);
    HeaderPrefix(b, m);
  }

  lemma HeaderPrefix(b: bytes, m: bytes)
    requires |b| >= HEADER && |m| >= HEADER && b[0..HEADER] == m[0..HEADER]
    ensures Hdr(m) == Hdr(b)
  {
    hide Be32;
    forall i | 0 <= i <= 36
      ensures U32(m, i) == U32(b, i)
    {
      SamePart(b, 0, m, 0, HEADER, i, 4);
    }
  }

  /** Writes into the structure block of a blob that was edited from `b`. */
  method WriteStruct(fdt: array<byte>, o: int, w: bytes, ghost b: bytes)
    requires Ready(fdt[..]) && Edited(b, fdt[..], StructOf(fdt[..]), StringsOf(fdt[..]))
    requires 0 <= o && o + |w| <= |StructOf(fdt[..])|
    modifies fdt
    ensures Ready(fdt[..]) && Edited(b, fdt[..], StructOf(fdt[..]), StringsOf(fdt[..]))
    ensures StructOf(fdt[..]) == Put(StructOf(old(fdt[..])), o, w)
    ensures StringsOf(fdt[..]) == StringsOf(old(fdt[..]))
  {
    hide Hdr, Put, Edited;
    ghost var d := fdt[..];
    EditedSize(b, d, StructOf(d), StringsOf(d));
    var h := LoadHeader(fdt);
    MemCpy(fdt, h.offStruct + o, w);
    WrittenStruct(d, fdt[..], o, w);
    EditedSize(d, fdt[..], Put(StructOf(d), o, w), StringsOf(d));
    EditedTwice(b, d, fdt[..], StructOf(d), StringsOf(d), StructOf(fdt[..]), StringsOf(fdt[..]));
  }

  lemma WrittenStruct(b: bytes, d: bytes, o: int, w: bytes)
    requires Ready(b)
    requires 0 <= o && o + |w| <= Hdr(b).sizeStruct
    requires d == Put(b, Hdr(b).offStruct + o, w)
    ensures Edited(b, d, Put(StructOf(b), o, w), StringsOf(b))
  {
    hide Hdr, Put;
    var h := Hdr(b);
    var i := h.offStruct + o;
    SpliceHeader(b, d, i, w);
    PutApart(b, i, w, HEADER, h.offStruct);
    PutApart(b, i, w, h.offStrings, h.offStrings + h.sizeStrings);
    PutInside(b, h.offStruct, h.sizeStruct, o, w);
  }

  // ---------- Strings ----------

  /** What it takes to have the name in the strings block. */
  function StringCost(t: bytes, name: bytes): nat {
    if FindString(t, 0, name) >= 0 then 0 else |name| + 1
  }

  /** What it takes to give a property a value: the difference to the old one, or a new entry and its name. */
  function PropCost(t: bytes, was: Option<bytes>, name: bytes, val: bytes): int {
    if was.Some? then Align(|val|) - Align(|was.value|) else StringCost(t, name) + 12 + Align(|val|)
  }

  /** `fdt_find_add_string_`: the offset of the string, appended to the block if it is not there yet. */
  method FindAddString(fdt: array<byte>, name: bytes) returns (off: int, added: bool)
    requires Ready(fdt[..]) && 0 !in name
    modifies fdt
    ensures off < 0 ==> off == -ERR_NOSPACE && fdt[..] == old(fdt[..])
    ensures off >= 0 ==>
      var b := old(fdt[..]);
      var t := StringsOf(b) + if added then name + [0] else [];
      && Ready(fdt[..])
      && Edited(b, fdt[..], StructOf(b), t)
      && off < 0x1_0000_0000 && Str(t, off) == Some(name)
    ensures var b := old(fdt[..]);
      && (off < 0 <==> StringCost(StringsOf(b), name) > Slack(b))
      && (off >= 0 ==> (if added then |name| + 1 else 0) == StringCost(StringsOf(b), name))
  {
    hide Hdr, Put;
    ghost var b := fdt[..];
    added := false;
    off := ReadFindString(fdt, name);
    if off >= 0 {
      FoundString(StringsOf(b), off, name);
      assert StringsOf(b) + [] == StringsOf(b);
      return;
    }
    var h := LoadHeader(fdt);
    var new_ := h.offStrings + h.sizeStrings;
    var err := Splice(fdt, new_, 0, |name| + 1);
    if err != 0 {
      return err, false;
    }
    ghost var m := fdt[..];
    assert m == b by {
      PutNothing(b, new_ + |name| + 1, b[new_..new_]);
    }
    SetSizeStrings(fdt, h.sizeStrings + |name| + 1);
    m := fdt[..];
    assert m[HEADER..] == b[HEADER..];
    added := true;
    MemCpy(fdt, new_, name + [0]);
    off := h.sizeStrings;
    AddedString(b, m, fdt[..], name);
  }

  lemma PutNothing(b: bytes, i: int, w: bytes)
    requires 0 <= i <= |b| && w == []
    ensures Put(b, i, w) == b
  {
  }

  lemma AddedString(b: bytes, m: bytes, d: bytes, name: bytes)
    requires Ready(b) && 0 !in name
    requires Hdr(b).offStrings + Hdr(b).sizeStrings + |name| + 1 <= Hdr(b).totalsize
    requires |m| == |b| && m[HEADER..] == b[HEADER..]
    requires Hdr(m) == Hdr(b).(sizeStrings := Hdr(b).sizeStrings + |name| + 1)
    requires d == Put(m, Hdr(b).offStrings + Hdr(b).sizeStrings, name + [0])
    ensures Edited(b, d, StructOf(b), StringsOf(b) + (name + [0]))
    ensures Str(StringsOf(b) + (name + [0]), Hdr(b).sizeStrings) == Some(name)
  {
    hide Hdr;
    var h := Hdr(b);
    var new_, w := h.offStrings + h.sizeStrings, name + [0];
    SpliceHeader(m, d, new_, w);
    PutReads(m, new_, w);
    PutApart(m, new_, w, HEADER, h.offStruct);
    PutApart(m, new_, w, h.offStruct, h.offStruct + h.sizeStruct);
    PutApart(m, new_, w, h.offStrings, new_);
    TailSlice(b, m, HEADER, h.offStruct);
    TailSlice(b, m, h.offStruct, h.offStruct + h.sizeStruct);
    TailSlice(b, m, h.offStrings, new_);
    hide Put;
    assert d[h.offStrings..new_ + |w|] == d[h.offStrings..new_] + d[new_..new_ + |w|];
    var t := StringsOf(b) + w;
    assert StringsOf(d) == t;
    assert t[h.sizeStrings..h.sizeStrings + |name|] == name;
    StrIs(t, h.sizeStrings, name);
  }

  /** `fdt_del_last_string_`: forgets the string that was appended last. */
  method DelLastString(fdt: array<byte>, name: bytes, ghost t: bytes)
    requires Ready(fdt[..])
    requires StringsOf(fdt[..]) == t + (name + [0])
    modifies fdt
    ensures Ready(fdt[..]) && Edited(old(fdt[..]), fdt[..], StructOf(old(fdt[..])), t)
  {
    hide Hdr, Edited;
    ghost var b := fdt[..];
    var h := LoadHeader(fdt);
    SetSizeStrings(fdt, h.sizeStrings - |name| - 1);
    assert fdt[..][HEADER..] == b[HEADER..];
    DroppedString(b, fdt[..], t, name + [0]);
  }

  lemma DroppedString(b: bytes, d: bytes, t: bytes, w: bytes)
    requires Ready(b) && StringsOf(b) == t + w
    requires |d| == |b| && d[HEADER..] == b[HEADER..]
    requires Hdr(d) == Hdr(b).(sizeStrings := Hdr(b).sizeStrings - |w|)
    ensures Edited(b, d, StructOf(b), t)
  {
    hide Hdr;
    var h := Hdr(b);
    TailSlice(b, d, HEADER, h.offStruct);
    TailSlice(b, d, h.offStruct, h.offStruct + h.sizeStruct);
    TailSlice(b, d, h.offStrings, h.offStrings + |t|);
    SliceOfSlice(b, h.offStrings, h.sizeStrings, 0, |t|);
    assert (t + w)[0..|t|] == t;
  }

  // ---------- Bytes of an edited entry ----------

  lemma PutKeepsSpliced(s: bytes, t: bytes, b: int, e: int, f: int, i: int, w: bytes)
    requires Spliced(s, t, b, e, f) && b <= i && i + |w| <= f
    ensures Spliced(s, Put(t, i, w), b, e, f)
  {
    hide Put;
    PutApart(t, i, w, 0, b);
    PutApart(t, i, w, f, |t|);
  }

  /** A splice inside a larger region is a splice of that region. */
  lemma SplicedAround(s: bytes, t: bytes, b: int, e: int, f: int, a: int, n: int)
    requires Spliced(s, t, b, e, f) && 0 <= a <= b && 0 <= n <= |s| - e
    ensures Spliced(s, t, a, e + n, f + n)
  {
    hide Same;
    SamePart(s, 0, t, 0, b, 0, a);
    SamePart(s, e, t, f, |s| - e, n, |s| - e - n);
  }

  /** A property whose value was resized, its length rewritten and the new value copied in. */
  lemma ResizedEntry(s: bytes, t: bytes, p: int, nameoff: u32, val: bytes, new_: bytes)
    requires EntryAt(s, p, Prop(nameoff, val)) && |new_| <= INT_MAX
    requires Spliced(s, t, p + 12, p + 12 + Align(|val|), p + 12 + Align(|new_|))
    ensures var u := Put(Put(t, p + 4, Enc32(|new_|)), p + 12, new_);
            && EntryAt(u, p, Prop(nameoff, new_))
            && Spliced(s, u, p, p + EntrySize(Prop(nameoff, val)), p + EntrySize(Prop(nameoff, new_)))
  {
    hide Be32, Enc32, Put, Same;
    var t1 := Put(t, p + 4, Enc32(|new_|));
    var u := Put(t1, p + 12, new_);
    SamePart(s, 0, t, 0, p + 12, p, 4);
    SamePart(s, 0, t, 0, p + 12, p + 8, 4);
    assert U32(t, p) == PROP && U32(t, p + 8) == nameoff by {
      assert t[p..p + 4] == s[p..p + 4] && t[p + 8..p + 12] == s[p + 8..p + 12];
    }
    PutWord(t, p + 4, |new_|, p);
    PutWord(t, p + 4, |new_|, p + 4);
    PutWord(t, p + 4, |new_|, p + 8);
    PutApart(t1, p + 12, new_, p, p + 4);
    PutApart(t1, p + 12, new_, p + 4, p + 8);
    PutApart(t1, p + 12, new_, p + 8, p + 12);
    PutReads(t1, p + 12, new_);
    SplicedAround(s, t, p + 12, p + 12 + Align(|val|), p + 12 + Align(|new_|), p, 0);
    PutKeepsSpliced(s, t, p, p + 12 + Align(|val|), p + 12 + Align(|new_|), p + 4, Enc32(|new_|));
    PutKeepsSpliced(s, t1, p, p + 12 + Align(|val|), p + 12 + Align(|new_|), p + 12, new_);
  }

  /** A fresh property written into a gap. */
  lemma FreshEntry(s: bytes, t: bytes, p: int, nameoff: u32, val: bytes)
    requires |val| <= INT_MAX
    requires Spliced(s, t, p, p, p + 12 + Align(|val|))
    ensures var u := Put(Put(Put(Put(t, p, Enc32(PROP)), p + 8, Enc32(nameoff)), p + 4, Enc32(|val|)), p + 12, val);
            && EntryAt(u, p, Prop(nameoff, val))
            && Spliced(s, u, p, p, p + EntrySize(Prop(nameoff, val)))
  {
    hide Be32, Enc32, Put, Same;
    var t1 := Put(t, p, Enc32(PROP));
    var t2 := Put(t1, p + 8, Enc32(nameoff));
    var t3 := Put(t2, p + 4, Enc32(|val|));
    var f := p + 12 + Align(|val|);
    PutWord(t, p, PROP, p);
    PutWord(t1, p + 8, nameoff, p);
    PutWord(t1, p + 8, nameoff, p + 8);
    PutWord(t2, p + 4, |val|, p);
    PutWord(t2, p + 4, |val|, p + 8);
    PutWord(t2, p + 4, |val|, p + 4);
    PutApart(t3, p + 12, val, p, p + 4);
    PutApart(t3, p + 12, val, p + 4, p + 8);
    PutApart(t3, p + 12, val, p + 8, p + 12);
    PutReads(t3, p + 12, val);
    PutKeepsSpliced(s, t, p, p, f, p, Enc32(PROP));
    PutKeepsSpliced(s, t1, p, p, f, p + 8, Enc32(nameoff));
    PutKeepsSpliced(s, t2, p, p, f, p + 4, Enc32(|val|));
    PutKeepsSpliced(s, t3, p, p, f, p + 12, val);
  }

  // ---------- What an edit promises ----------

  /**
   From the blob `b`, whose tree has some part in context `c`, editing has led to the
   blob `d`: that part is now `x` and means `f`, everything around it means what it
   meant, and no string was lost.
   */
  ghost predicate Now(b: bytes, d: bytes, c: Ctx, x: Items, f: Tree) {
    && Ready(b) && Denotes(d, Plug(c, x))
    && StringsOf(b) <= StringsOf(d)
    && Edited(b, d, StructOf(d), StringsOf(d))
    && Mean(x, StringsOf(d)) == f
    && Mean(Plug(c, x), StringsOf(d)) == Fill(MeanCtx(c, StringsOf(b)), f)
  }

  lemma NowIntro(b: bytes, d: bytes, c: Ctx, x: Items, y: Items, f: Tree)
    requires Denotes(b, Plug(c, x))
    requires Ready(d) && Edited(b, d, StructOf(d), StringsOf(d)) && StringsOf(b) <= StringsOf(d)
    requires Block(StructOf(d), Plug(c, y))
    requires Named(y, StringsOf(d)) && Mean(y, StringsOf(d)) == f
    ensures Now(b, d, c, y, f)
  {
    hide Hdr, Block, Plug, Mean, Named, MeanCtx, NamedCtx, Edited;
    MeanPlug(c, x, StringsOf(b));
    MeanCtxExtend(c, StringsOf(b), StringsOf(d));
    MeanPlug(c, y, StringsOf(d));
  }

  lemma SaysNow(b: bytes, d: bytes, s3: bytes, c: Ctx, x: Items, f: Tree)
    requires Ready(b) && Edited(b, d, s3, StringsOf(b)) && Says(s3, StringsOf(b), c, x, f)
    ensures Now(b, d, c, x, f)
  {
    hide Hdr, Block, Plug, Mean, Named, MeanCtx;
  }

  /** The node is as it was: the outcome of an edit that failed. */
  ghost predicate Untouched(b: bytes, d: bytes) {
    && Ready(b) && Ready(d)
    && Edited(b, d, StructOf(b), StringsOf(b))
  }

  /** Where the property found in a node's content stands in the whole tree. */
  function PropCtx(c: Ctx, n: bytes, f: FoundProp, r: Items): Ctx
    requires f.PropThere?
  {
    Compose(c, Inside(n, f.c, r))
  }

  lemma PropCtxPlug(c: Ctx, n: bytes, body: Items, r: Items, t: bytes, name: bytes, x: Items)
    requires PropByName(body, t, name).PropThere?
    ensures var f := PropByName(body, t, name);
            var place := PropCtx(c, n, f, r);
            && Plug(place, x) == Plug(c, Node(n, Plug(f.c, x), r))
            && Off(place) == Off(c) + HeadSize(n) + Off(f.c)
  {
    hide PropByName;
    var f := PropByName(body, t, name);
    ComposePlug(c, Inside(n, f.c, r), x);
  }

  /** Structure block `s` and strings `t` say that `x` stands in context `c` and means `f`. */
  ghost predicate Says(s: bytes, t: bytes, c: Ctx, x: Items, f: Tree) {
    && Block(s, Plug(c, x)) && Named(Plug(c, x), t)
    && Mean(x, t) == f && Mean(Plug(c, x), t) == Fill(MeanCtx(c, t), f)
  }

  lemma SaysIntro(s: bytes, t: bytes, c: Ctx, x: Items, y: Items, f: Tree)
    requires Named(Plug(c, x), t) && Block(s, Plug(c, y)) && Named(y, t) && Mean(y, t) == f
    ensures Says(s, t, c, y, f)
  {
    hide Block, Plug, Mean, Named, MeanCtx, NamedCtx;
    MeanPlug(c, x, t);
    MeanPlug(c, y, t);
  }

  /** The node's parts, seen from the whole tree. */
  lemma NodeParts(b: bytes, c: Ctx, n: bytes, body: Items, r: Items)
    requires Denotes(b, Plug(c, Node(n, body, r)))
    ensures Holds(StructOf(b), Off(c), Node(n, body, r)) && Off(c) % 4 == 0
    ensures Off(c) <= Size(Plug(c, Node(n, body, r))) <= |StructOf(b)| <= INT_MAX
    ensures Named(body, StringsOf(b)) && Named(r, StringsOf(b)) && NamedCtx(c, StringsOf(b))
  {
    hide Hdr, Block, Plug, Size, Named, NamedCtx, Off;
    BlockParts(StructOf(b), StringsOf(b), c, n, body, r);
  }

  lemma BlockParts(s: bytes, t: bytes, c: Ctx, n: bytes, body: Items, r: Items)
    requires Block(s, Plug(c, Node(n, body, r))) && Named(Plug(c, Node(n, body, r)), t)
    ensures Holds(s, Off(c), Node(n, body, r)) && Off(c) % 4 == 0
    ensures Off(c) <= Size(Plug(c, Node(n, body, r))) <= |s|
    ensures Named(body, t) && Named(r, t) && NamedCtx(c, t)
  {
    hide Holds, TagAt, Plug, Size, Named, NamedCtx, Mean, Off;
    var it := Plug(c, Node(n, body, r));
    OffAligned(c);
    PlugSize(c, Node(n, body, r));
    HoldsFits(s, 0, it);
    HoldsInner(s, 0, c, Node(n, body, r));
    MeanPlug(c, Node(n, body, r), t);
    MeanNode(n, body, r, t);
  }

  lemma MeanNode(n: bytes, body: Items, r: Items, t: bytes)
    ensures Mean(Node(n, body, r), t) == Sub(n, Mean(body, t), Mean(r, t))
    ensures Named(Node(n, body, r), t) <==> Named(body, t) && Named(r, t)
  {
  }

  lemma AppendOne(e: Entry, r: Items)
    ensures Append(Flat(e, Done), r) == Flat(e, r) && Append(Done, r) == r
    ensures Size(Flat(e, Done)) == EntrySize(e) && Size(Done) == 0
  {
  }

  lemma HoldsOne(s: bytes, o: int, e: Entry)
    requires EntryAt(s, o, e)
    ensures Holds(s, o, Flat(e, Done))
  {
  }

  /** The blocks after a property's value was replaced. */
  lemma ReplacedBlock(s: bytes, t: bytes, s3: bytes, c: Ctx, n: bytes, body: Items, r: Items, name: bytes, val: bytes)
    requires Block(s, Plug(c, Node(n, body, r))) && Named(Plug(c, Node(n, body, r)), t)
    requires PropByName(body, t, name).PropThere?
    requires var f := PropByName(body, t, name);
             var p := Off(c) + HeadSize(n) + Off(f.c);
             && EntryAt(s3, p, Prop(f.nameoff, val))
             && Spliced(s, s3, p, p + EntrySize(Prop(f.nameoff, f.val)), p + EntrySize(Prop(f.nameoff, val)))
    ensures var f := PropByName(body, t, name);
            Says(s3, t, c, Node(n, Plug(f.c, Flat(Prop(f.nameoff, val), f.rest)), r),
                 Sub(n, SetAttr(Mean(body, t), name, val), Mean(r, t)))
  {
    hide Block, Plug, Mean, Named, Spliced, EntryAt, Holds, Off, Size, Append, EntrySize, PropByName, PropCtx, Says;
    var f := PropByName(body, t, name);
    var place := PropCtx(c, n, f, r);
    var e0, e1 := Prop(f.nameoff, f.val), Prop(f.nameoff, val);
    PropCtxPlug(c, n, body, r, t, name, Flat(e0, f.rest));
    PropCtxPlug(c, n, body, r, t, name, Flat(e1, f.rest));
    AppendOne(e0, f.rest);
    AppendOne(e1, f.rest);
    HoldsOne(s3, Off(place), e1);
    ReplaceFront(s, s3, place, Flat(e0, Done), Flat(e1, Done), f.rest);
    BlockParts(s, t, c, n, body, r);
    ReplaceAttrMean(body, t, name, val);
    PropByNameMean(body, t, name);
    var body' := Plug(f.c, Flat(e1, f.rest));
    MeanNode(n, body', r, t);
    SaysIntro(s3, t, c, Node(n, body, r), Node(n, body', r), Sub(n, SetAttr(Mean(body, t), name, val), Mean(r, t)));
  }

  /** The tree after a property's value was replaced. */
  lemma ReplacedProperty(b: bytes, d: bytes, s3: bytes, c: Ctx, n: bytes, body: Items, r: Items, name: bytes, val: bytes)
    requires Denotes(b, Plug(c, Node(n, body, r)))
    requires PropByName(body, StringsOf(b), name).PropThere?
    requires Edited(b, d, s3, StringsOf(b))
    requires var f := PropByName(body, StringsOf(b), name);
             var p := Off(c) + HeadSize(n) + Off(f.c);
             && EntryAt(s3, p, Prop(f.nameoff, val))
             && Spliced(StructOf(b), s3, p, p + EntrySize(Prop(f.nameoff, f.val)), p + EntrySize(Prop(f.nameoff, val)))
    ensures var t := StringsOf(b);
            var f := PropByName(body, t, name);
            Now(b, d, c, Node(n, Plug(f.c, Flat(Prop(f.nameoff, val), f.rest)), r),
                Sub(n, SetAttr(Mean(body, t), name, val), Mean(r, t)))
  {
    hide Hdr, Block, Plug, Mean, Named, Spliced, EntryAt, Off, EntrySize, PropByName, Says, Now, HeadSize;
    ReplacedBlock(StructOf(b), StringsOf(b), s3, c, n, body, r, name, val);
    var f := PropByName(body, StringsOf(b), name);
    SaysNow(b, d, s3, c, Node(n, Plug(f.c, Flat(Prop(f.nameoff, val), f.rest)), r),
            Sub(n, SetAttr(Mean(body, StringsOf(b)), name, val), Mean(r, StringsOf(b))));
  }

  /** The space that an entry of another length takes. */
  lemma EntrySlack(b: bytes, d: bytes, at: int, nameoff: u32, was: bytes, val: bytes)
    requires Ready(b) && Ready(d) && Edited(b, d, StructOf(d), StringsOf(b))
    requires Spliced(StructOf(b), StructOf(d), at, at + EntrySize(Prop(nameoff, was)), at + EntrySize(Prop(nameoff, val)))
    ensures Slack(d) == Slack(b) - (Align(|val|) - Align(|was|))
  {
    hide Edited;
    SlackEdited(b, d, StructOf(d), StringsOf(b));
  }

  lemma NewEntrySlack(b: bytes, d: bytes, t: bytes, at: int, nameoff: u32, val: bytes)
    requires Ready(b) && Ready(d) && Edited(b, d, StructOf(d), t)
    requires Spliced(StructOf(b), StructOf(d), at, at, at + EntrySize(Prop(nameoff, val)))
    ensures Slack(d) == Slack(b) - (12 + Align(|val|)) - (|t| - |StringsOf(b)|)
  {
    hide Edited;
    SlackEdited(b, d, StructOf(d), t);
  }

  /** Replaces the property entry at `at` by one with another value (`fdt_resize_property_` and the copy). */
  method RewriteEntry(fdt: array<byte>, at: int, val: bytes, ghost nameoff: u32, ghost was: bytes) returns (err: int)
    requires Ready(fdt[..])
    requires EntryAt(StructOf(fdt[..]), at, Prop(nameoff, was))
    modifies fdt
    ensures err == if Align(|val|) - Align(|was|) > Slack(old(fdt[..])) then -ERR_NOSPACE else 0
    ensures err != 0 ==> fdt[..] == old(fdt[..])
    ensures err == 0 ==>
      var b, d := old(fdt[..]), fdt[..];
      && Ready(d) && Edited(b, d, StructOf(d), StringsOf(b))
      && EntryAt(StructOf(d), at, Prop(nameoff, val))
      && Spliced(StructOf(b), StructOf(d), at, at + EntrySize(Prop(nameoff, was)), at + EntrySize(Prop(nameoff, val)))
  {
    hide Hdr, Put, Spliced, EntryAt, EntrySize, Be32, Enc32, Edited, Align;
    ghost var b := fdt[..];
    ghost var s, t := StructOf(b), StringsOf(b);
    EntryFields(s, at, nameoff, was);
    var h := LoadHeader(fdt);
    var oldlen := LoadStruct32(fdt, h, at + 4);
    err := SpliceStruct(fdt, at + 12, Align(oldlen), Align(|val|));
    if err != 0 {
      return;
    }
    ghost var d1, s1 := fdt[..], StructOf(fdt[..]);
    SplicedFits(s, s1, at + 12, at + 12 + Align(oldlen), at + 12 + Align(|val|));
    EditedSize(b, d1, s1, t);
    hide StructOf, StringsOf, Ready;
    WriteStruct(fdt, at + 4, Enc32(|val|), b);
    WriteStruct(fdt, at + 12, val, b);
    ResizedEntry(s, s1, at, nameoff, was, val);
  }

  /** `fdt_setprop` on a property that is there. */
  method ReplaceProperty(fdt: array<byte>, o: int, name: bytes, val: bytes,
                         ghost c: Ctx, ghost n: bytes, ghost body: Items, ghost r: Items)
    returns (err: int, ghost body': Items)
    requires Denotes(fdt[..], Plug(c, Node(n, body, r))) && o == Off(c)
    modifies fdt
    ensures Ready(old(fdt[..]))
    ensures var f := PropByName(body, StringsOf(old(fdt[..])), name);
      err == if f.NoProp? then -ERR_NOTFOUND else if Align(|val|) - Align(|f.val|) > Slack(old(fdt[..])) then -ERR_NOSPACE else 0
    ensures err != 0 ==> fdt[..] == old(fdt[..])
    ensures err == 0 ==>
      var t := StringsOf(old(fdt[..]));
      && Now(old(fdt[..]), fdt[..], c, Node(n, body', r), Sub(n, SetAttr(Mean(body, t), name, val), Mean(r, t)))
      && Ready(fdt[..]) && Slack(fdt[..]) == Slack(old(fdt[..])) - (Align(|val|) - Align(|PropByName(body, t, name).val|))
  {
    hide Hdr, Put, Plug, Holds, Block, Mean, Named, Off, Spliced, NextTag, PropVal, PropByName, EntryAt, EntrySize, HeadSize, Now, Edited, GetProperty;
    ghost var b := fdt[..];
    ghost var s, t := StructOf(b), StringsOf(b);
    ghost var f := PropByName(body, t, name);
    body' := body;
    NodeParts(b, c, n, body, r);
    GetPropertyOk(s, t, o, n, body, r, name);
    var at := ReadGetProperty(fdt, o, name);
    if at < 0 {
      err := at;
      return;
    }
    FoundVal(s, t, o, n, body, r, name);
    err := RewriteEntry(fdt, at, val, f.nameoff, f.val);
    if err == 0 {
      EntrySlack(b, fdt[..], at, f.nameoff, f.val, val);
      ReplacedProperty(b, fdt[..], StructOf(fdt[..]), c, n, body, r, name, val);
      body' := Plug(f.c, Flat(Prop(f.nameoff, val), f.rest));
    }
  }

  lemma EntryFields(s: bytes, p: int, nameoff: u32, val: bytes)
    requires EntryAt(s, p, Prop(nameoff, val))
    ensures 0 <= p && p + 12 + Align(|val|) <= |s|
    ensures U32(s, p + 4) == |val| <= INT_MAX
    ensures EntrySize(Prop(nameoff, val)) == 12 + Align(|val|)
  {
  }

  lemma SplicedFits(s: bytes, t: bytes, b: int, e: int, f: int)
    requires Spliced(s, t, b, e, f)
    ensures 0 <= b <= f <= |t| && |t| == |s| + f - e
  {
  }

  /** Writes the fields of a new property. */
  method FillEntry(fdt: array<byte>, at: int, nameoff: u32, val: bytes, ghost b: bytes)
    requires Ready(fdt[..]) && Edited(b, fdt[..], StructOf(fdt[..]), StringsOf(fdt[..]))
    requires 0 <= at && at + 12 + |val| <= |StructOf(fdt[..])| <= INT_MAX
    modifies fdt
    ensures Ready(fdt[..]) && Edited(b, fdt[..], StructOf(fdt[..]), StringsOf(fdt[..]))
    ensures StructOf(fdt[..]) ==
            Put(Put(Put(Put(StructOf(old(fdt[..])), at, Enc32(PROP)), at + 8, Enc32(nameoff)), at + 4, Enc32(|val|)), at + 12, val)
    ensures StringsOf(fdt[..]) == StringsOf(old(fdt[..]))
  {
    hide Hdr, Put, Enc32, Edited, StructOf, StringsOf, Ready;
    WriteStruct(fdt, at, Enc32(PROP), b);
    WriteStruct(fdt, at + 8, Enc32(nameoff), b);
    WriteStruct(fdt, at + 4, Enc32(|val|), b);
    WriteStruct(fdt, at + 12, val, b);
  }

  /** Inserts a property entry at `at`. */
  method InsertEntry(fdt: array<byte>, at: int, nameoff: u32, val: bytes) returns (err: int)
    requires Ready(fdt[..])
    requires 0 <= at <= Hdr(fdt[..]).sizeStruct
    modifies fdt
    ensures err == if 12 + Align(|val|) > Slack(old(fdt[..])) then -ERR_NOSPACE else 0
    ensures err != 0 ==> fdt[..] == old(fdt[..])
    ensures err == 0 ==>
      var b, d := old(fdt[..]), fdt[..];
      && Ready(d) && Edited(b, d, StructOf(d), StringsOf(b))
      && EntryAt(StructOf(d), at, Prop(nameoff, val))
      && Spliced(StructOf(b), StructOf(d), at, at, at + EntrySize(Prop(nameoff, val)))
  {
    hide Hdr, Put, Spliced, EntryAt, EntrySize, Be32, Enc32, Align, Edited;
    ghost var b := fdt[..];
    ghost var s, t := StructOf(b), StringsOf(b);
    err := SpliceStruct(fdt, at, 0, 12 + Align(|val|));
    if err != 0 {
      return;
    }
    ghost var d1, s1 := fdt[..], StructOf(fdt[..]);
    SplicedFits(s, s1, at, at, at + 12 + Align(|val|));
    EditedSize(b, d1, s1, t);
    hide StructOf, StringsOf, Ready;
    FillEntry(fdt, at, nameoff, val, b);
    FreshEntry(s, s1, at, nameoff, val);
  }

  lemma EditedSize(b: bytes, d: bytes, s: bytes, t: bytes)
    requires Edited(b, d, s, t)
    ensures Ready(b) && Ready(d) && |d| == |b|
    ensures Hdr(d).sizeStruct == |s| && Hdr(d).sizeStrings == |t|
    ensures StructOf(d) == s && StringsOf(d) == t && |s| <= INT_MAX
  {
    hide Hdr;
  }

  /** The tree after a property was put in front of a node's content. */
  lemma AddedProperty(b: bytes, d: bytes, c: Ctx, n: bytes, body: Items, r: Items, name: bytes, val: bytes, off: u32)
    requires Denotes(b, Plug(c, Node(n, body, r)))
    requires Ready(d) && Edited(b, d, StructOf(d), StringsOf(d)) && StringsOf(b) <= StringsOf(d)
    requires Str(StringsOf(d), off) == Some(name)
    requires var p := Off(c) + HeadSize(n);
             && EntryAt(StructOf(d), p, Prop(off, val))
             && Spliced(StructOf(b), StructOf(d), p, p, p + EntrySize(Prop(off, val)))
    ensures var t := StringsOf(b);
            Now(b, d, c, Node(n, Flat(Prop(off, val), body), r), Sub(n, Attr(name, val, Mean(body, t)), Mean(r, t)))
  {
    hide Hdr, Block, Plug, Mean, Named, NamedCtx, Spliced, EntryAt, Holds, Now, Off, Size, Append, EntrySize, Edited, Str;
    var s, t, s2, t2 := StructOf(b), StringsOf(b), StructOf(d), StringsOf(d);
    var place := Compose(c, Inside(n, Hole, r));
    var e := Prop(off, val);
    PlugInto(c, n, r, body);
    PlugInto(c, n, r, Flat(e, body));
    AppendOne(e, body);
    HoldsOne(s2, Off(place), e);
    HoldsNone(s2, Off(place), Done);
    ReplaceFront(s, s2, place, Done, Flat(e, Done), body);
    NodeParts(b, c, n, body, r);
    MeanExtend(body, t, t2);
    MeanExtend(r, t, t2);
    MeanFlat(e, body, t2);
    MeanNode(n, Flat(e, body), r, t2);
    NowIntro(b, d, c, Node(n, body, r), Node(n, Flat(e, body), r), Sub(n, Attr(name, val, Mean(body, t)), Mean(r, t)));
  }

  /** The place right behind a node's name. */
  lemma PlugInto(c: Ctx, n: bytes, r: Items, x: Items)
    ensures var place := Compose(c, Inside(n, Hole, r));
            Plug(place, x) == Plug(c, Node(n, x, r)) && Off(place) == Off(c) + HeadSize(n)
  {
    ComposePlug(c, Inside(n, Hole, r), x);
  }

  lemma MeanFlat(e: Entry, r: Items, t: bytes)
    requires e.Prop? && Str(t, e.nameoff).Some?
    ensures Mean(Flat(e, r), t) == Attr(Str(t, e.nameoff).value, e.val, Mean(r, t))
    ensures Named(Flat(e, r), t) <==> Named(r, t)
  {
    hide Str;
  }

  /** `fdt_add_property_`, then the copy of the value. */
  method AddProperty(fdt: array<byte>, o: int, name: bytes, val: bytes,
                     ghost c: Ctx, ghost n: bytes, ghost body: Items, ghost r: Items)
    returns (err: int, ghost body': Items)
    requires Denotes(fdt[..], Plug(c, Node(n, body, r))) && o == Off(c)
    requires 0 !in name
    modifies fdt
    ensures Ready(old(fdt[..]))
    ensures var b := old(fdt[..]);
      err == if StringCost(StringsOf(b), name) + 12 + Align(|val|) > Slack(b) then -ERR_NOSPACE else 0
    ensures err != 0 ==> Untouched(old(fdt[..]), fdt[..])
    ensures err == 0 ==>
      var t := StringsOf(old(fdt[..]));
      && Now(old(fdt[..]), fdt[..], c, Node(n, body', r), Sub(n, Attr(name, val, Mean(body, t)), Mean(r, t)))
      && Ready(fdt[..]) && Slack(fdt[..]) == Slack(old(fdt[..])) - (StringCost(t, name) + 12 + Align(|val|))
  {
    hide Hdr, Put, Plug, Holds, Block, Mean, Named, Off, Spliced, NextTag, EntryAt, EntrySize, HeadSize, Now, Edited, Str, Size;
    ghost var b := fdt[..];
    ghost var s, t := StructOf(b), StringsOf(b);
    body' := body;
    NodeParts(b, c, n, body, r);
    OpenNode(s, o, n, body, r);
    ScanHead(s, o, n, 0);
    HoldsFits(s, o + HeadSize(n), body);
    EditedSelf(b);
    var next := ReadCheckNode(fdt, o);
    var off, added := FindAddString(fdt, name);
    if off < 0 {
      return off, body';
    }
    ghost var d1 := fdt[..];
    ghost var t1 := StringsOf(d1);
    EditedSize(b, d1, s, t + if added then name + [0] else []);
    SlackEdited(b, d1, s, t + if added then name + [0] else []);
    hide Slack;
    err := InsertEntry(fdt, next, off, val);
    ghost var d2 := fdt[..];
    if err != 0 {
      if added {
        DelLastString(fdt, name, t);
        EditedTwice(b, d1, fdt[..], s, t1, s, t);
      } else {
        assert t + [] == t;
      }
      return;
    }
    AddedTwice(b, d1, d2, c, n, body, r, name, val, off, if added then name + [0] else [], next);
    body' := Flat(Prop(off, val), body);
  }

  /** A name and then an entry were added. */
  lemma AddedTwice(b: bytes, d: bytes, e: bytes, c: Ctx, n: bytes, body: Items, r: Items, name: bytes, val: bytes, off: u32, w: bytes, p: int)
    requires Denotes(b, Plug(c, Node(n, body, r))) && p == Off(c) + HeadSize(n)
    requires Ready(d) && Edited(b, d, StructOf(b), StringsOf(b) + w) && Str(StringsOf(b) + w, off) == Some(name)
    requires Ready(e) && Edited(d, e, StructOf(e), StringsOf(d)) && EntryAt(StructOf(e), p, Prop(off, val))
    requires Spliced(StructOf(d), StructOf(e), p, p, p + EntrySize(Prop(off, val)))
    ensures var t := StringsOf(b);
            Now(b, e, c, Node(n, Flat(Prop(off, val), body), r), Sub(n, Attr(name, val, Mean(body, t)), Mean(r, t)))
    ensures Slack(e) == Slack(b) - |w| - (12 + Align(|val|))
  {
    hide Hdr, Block, Plug, Mean, Named, Spliced, EntryAt, Now, Off, EntrySize, Edited, Str, HeadSize, Slack;
    var s, t := StructOf(b), StringsOf(b);
    EditedSize(b, d, s, t + w);
    SlackEdited(b, d, s, t + w);
    EditedTwice(b, d, e, s, t + w, StructOf(e), StringsOf(d));
    EditedSize(b, e, StructOf(e), t + w);
    NewEntrySlack(d, e, StringsOf(d), p, off, val);
    AddedProperty(b, e, c, n, body, r, name, val, off);
  }

  lemma EditedSelf(b: bytes)
    requires Ready(b)
    ensures Edited(b, b, StructOf(b), StringsOf(b))
  {
    hide Hdr;
  }

  /** `fdt_setprop`. */
  method SetProp(fdt: array<byte>, o: int, name: bytes, val: bytes,
                 ghost c: Ctx, ghost n: bytes, ghost body: Items, ghost r: Items)
    returns (err: int, ghost body': Items)
    requires Wellformed(fdt[..]) && 0 !in name
    requires Ready(fdt[..]) ==> Denotes(fdt[..], Plug(c, Node(n, body, r))) && o == Off(c)
    modifies fdt
    ensures !Ready(old(fdt[..])) ==> err == RwProbe(Hdr(old(fdt[..]))) != 0 && fdt[..] == old(fdt[..])
    ensures Ready(old(fdt[..])) ==>
      var b := old(fdt[..]);
      var t := StringsOf(b);
      var cost := PropCost(t, GetAttr(Mean(body, t), name), name, val);
      && err == (if cost > Slack(b) then -ERR_NOSPACE else 0)
      && (err != 0 ==> Untouched(b, fdt[..]))
      && (err == 0 ==>
           && Now(b, fdt[..], c, Node(n, body', r), Sub(n, SetAttr(Mean(body, t), name, val), Mean(r, t)))
           && Ready(fdt[..]) && Slack(fdt[..]) == Slack(b) - cost)
  {
    hide Hdr, Put, Plug, Holds, Block, Mean, Named, Off, Now, Edited, Str, Size, CheckHeader, RwProbe, PropByName;
    ghost var b := fdt[..];
    body' := body;
    ProbeAccepts(b);
    err := ProbeRw(fdt);
    if err != 0 {
      return;
    }
    ghost var t := StringsOf(b);
    ghost var d1 := fdt[..];
    EditedSize(b, d1, StructOf(b), t);
    SlackEdited(b, d1, StructOf(b), t);
    err, body' := ReplaceProperty(fdt, o, name, val, c, n, body, r);
    NodeParts(b, c, n, body, r);
    PropByNameMean(body, t, name);
    if err == -ERR_NOTFOUND {
      err, body' := AddProperty(fdt, o, name, val, c, n, body, r);
    }
    if err == 0 {
      NowAfter(b, d1, fdt[..], c, Node(n, body', r), Sub(n, SetAttr(Mean(body, t), name, val), Mean(r, t)));
    } else {
      UntouchedAfter(b, d1, fdt[..]);
    }
  }

  lemma ProbeAccepts(b: bytes)
    requires Wellformed(b)
    ensures RwProbe(Hdr(b)) == 0 <==> Ready(b)
  {
    hide Hdr;
    RwProbeAcceptsOrdered(Hdr(b));
  }

  /** An edit after a step that kept both blocks is an edit of the whole. */
  lemma NowAfter(b: bytes, d: bytes, e: bytes, c: Ctx, x: Items, f: Tree)
    requires Ready(b) && Edited(b, d, StructOf(b), StringsOf(b)) && Now(d, e, c, x, f)
    ensures Now(b, e, c, x, f)
  {
    hide Hdr, Edited, Block, Named, Mean, MeanCtx, Plug;
    EditedSize(b, d, StructOf(b), StringsOf(b));
    EditedTwice(b, d, e, StructOf(b), StringsOf(b), StructOf(e), StringsOf(e));
  }

  lemma UntouchedAfter(b: bytes, d: bytes, e: bytes)
    requires Ready(b) && Edited(b, d, StructOf(b), StringsOf(b)) && (Untouched(d, e) || e == d)
    ensures Untouched(b, e)
  {
    hide Hdr, Edited;
    EditedSize(b, d, StructOf(b), StringsOf(b));
    if e != d {
      EditedSize(d, e, StructOf(d), StringsOf(d));
      EditedTwice(b, d, e, StructOf(b), StringsOf(b), StructOf(d), StringsOf(d));
    }
  }

  // ---------- Appending to and deleting properties ----------

  /** A property that grew behind its old value. */
  lemma GrownEntry(s: bytes, t: bytes, p: int, nameoff: u32, val: bytes, more: bytes)
    requires EntryAt(s, p, Prop(nameoff, val)) && |val + more| <= INT_MAX
    requires Spliced(s, t, p + 12 + Align(|val|), p + 12 + Align(|val|), p + 12 + Align(|val + more|))
    ensures var u := Put(Put(t, p + 4, Enc32(|val + more|)), p + 12 + |val|, more);
            && EntryAt(u, p, Prop(nameoff, val + more))
            && Spliced(s, u, p, p + EntrySize(Prop(nameoff, val)), p + EntrySize(Prop(nameoff, val + more)))
  {
    hide Be32, Enc32, Put, Same;
    var both := val + more;
    var n, e, f := |both|, p + 12 + Align(|val|), p + 12 + Align(|both|);
    var t1 := Put(t, p + 4, Enc32(n));
    var u := Put(t1, p + 12 + |val|, more);
    GrownKeeps(s, t, p, nameoff, val, e, f);
    PutWord(t, p + 4, n, p);
    PutWord(t, p + 4, n, p + 4);
    PutWord(t, p + 4, n, p + 8);
    PutApart(t, p + 4, Enc32(n), p + 12, p + 12 + |val|);
    PutApart(t1, p + 12 + |val|, more, p, p + 4);
    PutApart(t1, p + 12 + |val|, more, p + 4, p + 8);
    PutApart(t1, p + 12 + |val|, more, p + 8, p + 12);
    PutApart(t1, p + 12 + |val|, more, p + 12, p + 12 + |val|);
    PutReads(t1, p + 12 + |val|, more);
    Concat(u, p + 12, val, more);
    SplicedAround(s, t, e, e, f, p, 0);
    PutKeepsSpliced(s, t, p, e, f, p + 4, Enc32(n));
    PutKeepsSpliced(s, t1, p, e, f, p + 12 + |val|, more);
  }

  lemma Concat(u: bytes, i: int, x: bytes, y: bytes)
    requires 0 <= i && i + |x| + |y| <= |u|
    requires u[i..i + |x|] == x && u[i + |x|..i + |x| + |y|] == y
    ensures u[i..i + |x + y|] == x + y
  {
    assert u[i..i + |x| + |y|] == u[i..i + |x|] + u[i + |x|..i + |x| + |y|];
  }

  lemma GrownKeeps(s: bytes, t: bytes, p: int, nameoff: u32, val: bytes, e: int, f: int)
    requires EntryAt(s, p, Prop(nameoff, val)) && e == p + 12 + Align(|val|)
    requires Spliced(s, t, e, e, f)
    ensures U32(t, p) == PROP && U32(t, p + 8) == nameoff && t[p + 12..p + 12 + |val|] == val
  {
    hide Be32;
    SamePart(s, 0, t, 0, e, p, 4);
    SamePart(s, 0, t, 0, e, p + 8, 4);
    SamePart(s, 0, t, 0, e, p + 12, |val|);
  }

  /** `fdt_appendprop` on a property that is there: makes room behind the old value and copies the new part. */
  method GrowEntry(fdt: array<byte>, at: int, more: bytes, ghost nameoff: u32, ghost val: bytes) returns (err: int)
    requires Ready(fdt[..])
    requires EntryAt(StructOf(fdt[..]), at, Prop(nameoff, val))
    modifies fdt
    ensures err == if Align(|val + more|) - Align(|val|) > Slack(old(fdt[..])) then -ERR_NOSPACE else 0
    ensures err != 0 ==> fdt[..] == old(fdt[..])
    ensures err == 0 ==>
      var b, d := old(fdt[..]), fdt[..];
      && Ready(d) && Edited(b, d, StructOf(d), StringsOf(b))
      && EntryAt(StructOf(d), at, Prop(nameoff, val + more))
      && Spliced(StructOf(b), StructOf(d), at, at + EntrySize(Prop(nameoff, val)), at + EntrySize(Prop(nameoff, val + more)))
  {
    hide Hdr, Put, Spliced, EntryAt, EntrySize, Be32, Enc32, Edited, Align, Be32;
    ghost var b := fdt[..];
    ghost var s, t := StructOf(b), StringsOf(b);
    EntryFields(s, at, nameoff, val);
    var h := LoadHeader(fdt);
    var oldlen := LoadStruct32(fdt, h, at + 4);
    var newlen := |more| + oldlen;
    assert newlen == |val + more|;
    err := SpliceStruct(fdt, at + 12, Align(oldlen), Align(newlen));
    if err != 0 {
      return;
    }
    ghost var d1, s1 := fdt[..], StructOf(fdt[..]);
    SplicedFits(s, s1, at + 12, at + 12 + Align(oldlen), at + 12 + Align(newlen));
    EditedSize(b, d1, s1, t);
    FillGrown(fdt, at, oldlen, more, b);
    GrownEntry(s, s1, at, nameoff, val, more);
  }

  /** Writes the new length and the new part of a value that grows. */
  method FillGrown(fdt: array<byte>, at: int, oldlen: u32, more: bytes, ghost b: bytes)
    requires Ready(fdt[..]) && Edited(b, fdt[..], StructOf(fdt[..]), StringsOf(fdt[..]))
    requires 0 <= at && at + 12 + oldlen + |more| <= |StructOf(fdt[..])| && oldlen + |more| < 0x1_0000_0000
    modifies fdt
    ensures Ready(fdt[..]) && Edited(b, fdt[..], StructOf(fdt[..]), StringsOf(fdt[..]))
    ensures StructOf(fdt[..]) == Put(Put(StructOf(old(fdt[..])), at + 4, Enc32(oldlen + |more|)), at + 12 + oldlen, more)
    ensures StringsOf(fdt[..]) == StringsOf(old(fdt[..]))
  {
    hide Hdr, Put, Edited, Enc32, StructOf, StringsOf, Ready;
    WriteStruct(fdt, at + 4, Enc32(oldlen + |more|), b);
    WriteStruct(fdt, at + 12 + oldlen, more, b);
  }

  /** `fdt_appendprop`. */
  method AppendProp(fdt: array<byte>, o: int, name: bytes, val: bytes,
                    ghost c: Ctx, ghost n: bytes, ghost body: Items, ghost r: Items)
    returns (err: int, ghost body': Items)
    requires Wellformed(fdt[..]) && 0 !in name
    requires Ready(fdt[..]) ==> Denotes(fdt[..], Plug(c, Node(n, body, r))) && o == Off(c)
    modifies fdt
    ensures !Ready(old(fdt[..])) ==> err == RwProbe(Hdr(old(fdt[..]))) != 0 && fdt[..] == old(fdt[..])
    ensures Ready(old(fdt[..])) ==>
      var b := old(fdt[..]);
      var t := StringsOf(b);
      var was := GetAttr(Mean(body, t), name);
      && err == (if PropCost(t, was, name, if was.Some? then was.value + val else val) > Slack(b) then -ERR_NOSPACE else 0)
      && (err != 0 ==> Untouched(b, fdt[..]))
      && (err == 0 ==>
           Now(b, fdt[..], c, Node(n, body', r), Sub(n, AppendAttr(Mean(body, t), name, val), Mean(r, t))))
  {
    hide Hdr, Put, Plug, Holds, Block, Mean, Named, Off, Now, Edited, Str, Size, CheckHeader, RwProbe, PropByName,
         EntryAt, EntrySize, HeadSize, NextTag, GetProperty, Spliced;
    ghost var b := fdt[..];
    body' := body;
    ProbeAccepts(b);
    err := ProbeRw(fdt);
    if err != 0 {
      return;
    }
    ghost var s, t := StructOf(b), StringsOf(b);
    ghost var f := PropByName(body, t, name);
    ghost var d1 := fdt[..];
    EditedSize(b, d1, s, t);
    SlackEdited(b, d1, s, t);
    NodeParts(d1, c, n, body, r);
    GetPropertyOk(s, t, o, n, body, r, name);
    PropByNameMean(body, t, name);
    var at := ReadGetProperty(fdt, o, name);
    if at >= 0 {
      FoundVal(s, t, o, n, body, r, name);
      err := GrowEntry(fdt, at, val, f.nameoff, f.val);
      if err == 0 {
        ReplacedProperty(d1, fdt[..], StructOf(fdt[..]), c, n, body, r, name, f.val + val);
        body' := Plug(f.c, Flat(Prop(f.nameoff, f.val + val), f.rest));
      }
    } else {
      err, body' := AddProperty(fdt, o, name, val, c, n, body, r);
    }
    if err == 0 {
      NowAfter(b, d1, fdt[..], c, Node(n, body', r), Sub(n, AppendAttr(Mean(body, t), name, val), Mean(r, t)));
    } else {
      UntouchedAfter(b, d1, fdt[..]);
    }
  }

  /** The tree after the entry of a property was cut out, or overwritten by NOP tags. */
  lemma RemovedProperty(b: bytes, d: bytes, s3: bytes, c: Ctx, n: bytes, body: Items, r: Items, name: bytes, y: Items)
    requires Denotes(b, Plug(c, Node(n, body, r)))
    requires PropByName(body, StringsOf(b), name).PropThere?
    requires Edited(b, d, s3, StringsOf(b))
    requires AllNops(y)
    requires var f := PropByName(body, StringsOf(b), name);
             var p := Off(c) + HeadSize(n) + Off(f.c);
             && Holds(s3, p, y)
             && Spliced(StructOf(b), s3, p, p + EntrySize(Prop(f.nameoff, f.val)), p + Size(y))
    ensures var t := StringsOf(b);
            var f := PropByName(body, t, name);
            Now(b, d, c, Node(n, Plug(f.c, Append(y, f.rest)), r), Sub(n, RemoveAttr(Mean(body, t), name), Mean(r, t)))
  {
    hide Hdr, Block, Plug, Mean, Named, Spliced, Holds, Off, Size, Append, EntrySize, PropByName, Says, Now, HeadSize, AllNops;
    RemovedBlock(StructOf(b), StringsOf(b), s3, c, n, body, r, name, y);
    var f := PropByName(body, StringsOf(b), name);
    SaysNow(b, d, s3, c, Node(n, Plug(f.c, Append(y, f.rest)), r),
            Sub(n, RemoveAttr(Mean(body, StringsOf(b)), name), Mean(r, StringsOf(b))));
  }

  /** The blocks after a property gave way to NOP tags, or to nothing. */
  lemma RemovedBlock(s: bytes, t: bytes, s3: bytes, c: Ctx, n: bytes, body: Items, r: Items, name: bytes, y: Items)
    requires Block(s, Plug(c, Node(n, body, r))) && Named(Plug(c, Node(n, body, r)), t)
    requires PropByName(body, t, name).PropThere? && AllNops(y)
    requires var f := PropByName(body, t, name);
             var p := Off(c) + HeadSize(n) + Off(f.c);
             && Holds(s3, p, y)
             && Spliced(s, s3, p, p + EntrySize(Prop(f.nameoff, f.val)), p + Size(y))
    ensures var f := PropByName(body, t, name);
            Says(s3, t, c, Node(n, Plug(f.c, Append(y, f.rest)), r), Sub(n, RemoveAttr(Mean(body, t), name), Mean(r, t)))
  {
    hide Block, Plug, Mean, Named, Spliced, EntryAt, Holds, Off, Size, Append, EntrySize, PropByName, PropCtx, AllNops, Says;
    var f := PropByName(body, t, name);
    var place := PropCtx(c, n, f, r);
    var e0 := Prop(f.nameoff, f.val);
    var rest' := Append(y, f.rest);
    PropCtxPlug(c, n, body, r, t, name, Flat(e0, f.rest));
    PropCtxPlug(c, n, body, r, t, name, rest');
    AppendOne(e0, f.rest);
    ReplaceFront(s, s3, place, Flat(e0, Done), y, f.rest);
    BlockParts(s, t, c, n, body, r);
    RemoveAttrMean(body, t, name);
    MeanPlug(f.c, f.rest, t);
    MeanPlug(f.c, rest', t);
    MeanNops(y, f.rest, t);
    MeanNode(n, Plug(f.c, rest'), r, t);
    SaysIntro(s3, t, c, Node(n, body, r), Node(n, Plug(f.c, rest'), r), Sub(n, RemoveAttr(Mean(body, t), name), Mean(r, t)));
  }

  /** Nothing but NOP tags. */
  predicate AllNops(x: Items) {
    match x
    case Done => true
    case Flat(e, r) => e.Nop? && AllNops(r)
    case Node(_, _, _) => false
  }

  /** NOP tags mean nothing. */
  lemma {:induction false} MeanNops(y: Items, r: Items, t: bytes)
    requires AllNops(y)
    ensures Mean(Append(y, r), t) == Mean(r, t)
    ensures Named(Append(y, r), t) <==> Named(r, t)
  {
    hide Str;
    if y.Flat? {
      MeanNops(y.rest, r, t);
    }
  }

  /** `fdt_delprop`. */
  method DelProp(fdt: array<byte>, o: int, name: bytes,
                 ghost c: Ctx, ghost n: bytes, ghost body: Items, ghost r: Items)
    returns (err: int, ghost body': Items)
    requires Wellformed(fdt[..])
    requires Ready(fdt[..]) ==> Denotes(fdt[..], Plug(c, Node(n, body, r))) && o == Off(c)
    modifies fdt
    ensures !Ready(old(fdt[..])) ==> err == RwProbe(Hdr(old(fdt[..]))) != 0 && fdt[..] == old(fdt[..])
    ensures Ready(old(fdt[..])) ==>
      var t := StringsOf(old(fdt[..]));
      && err == (if GetAttr(Mean(body, t), name).Some? then 0 else -ERR_NOTFOUND)
      && (err != 0 ==> Untouched(old(fdt[..]), fdt[..]))
      && (err == 0 ==>
           Now(old(fdt[..]), fdt[..], c, Node(n, body', r), Sub(n, RemoveAttr(Mean(body, t), name), Mean(r, t))))
  {
    hide Hdr, Put, Plug, Holds, Block, Mean, Named, Off, Now, Str, Size, CheckHeader, RwProbe, PropByName,
         EntryAt, EntrySize, HeadSize, NextTag, GetProperty, Spliced, Edited;
    ghost var b := fdt[..];
    body' := body;
    ProbeAccepts(b);
    err := ProbeRw(fdt);
    if err != 0 {
      return;
    }
    ghost var s, t := StructOf(b), StringsOf(b);
    ghost var f := PropByName(body, t, name);
    ghost var d1 := fdt[..];
    EditedSize(b, d1, s, t);
    NodeParts(d1, c, n, body, r);
    GetPropertyOk(s, t, o, n, body, r, name);
    PropByNameMean(body, t, name);
    var at := ReadGetProperty(fdt, o, name);
    if at < 0 {
      err := at;
      UntouchedAfter(b, d1, fdt[..]);
      return;
    }
    FoundVal(s, t, o, n, body, r, name);
    EntryFields(s, at, f.nameoff, f.val);
    var h := LoadHeader(fdt);
    var len := LoadStruct32(fdt, h, at + 4);
    err := SpliceStruct(fdt, at, 12 + Align(len), 0);
    SplicedFits(s, StructOf(fdt[..]), at, at + 12 + Align(len), at);
    HoldsNothing(StructOf(fdt[..]), at);
    RemovedProperty(d1, fdt[..], StructOf(fdt[..]), c, n, body, r, name, Done);
    body' := Plug(f.c, Append(Done, f.rest));
    NowAfter(b, d1, fdt[..], c, Node(n, body', r), Sub(n, RemoveAttr(Mean(body, t), name), Mean(r, t)));
  }

  lemma HoldsNothing(s: bytes, p: int)
    ensures 0 <= p <= |s| ==> Holds(s, p, Done)
    ensures Size(Done) == 0
  {
  }
}
