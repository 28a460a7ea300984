/** The loops of fdt.c and fdt_ro.c on a blob, proved to compute the functions of `Walk` and `Read`. */
module Core {
  import opened Options
  import opened Bytes
  import opened Structure
  import opened Blob
  import opened Buffer
  import opened Walk
  import opened Read

  /** Reads the header. */
  method LoadHeader(fdt: array<byte>) returns (h: Header)
    requires fdt.Length >= HEADER
    ensures h == Hdr(fdt[..])
  {
    hide U32;
    var w0 := Load32(fdt, 0);
    var w1 := Load32(fdt, 4);
    var w2 := Load32(fdt, 8);
    var w3 := Load32(fdt, 12);
    var w4 := Load32(fdt, 16);
    var w5 := Load32(fdt, 20);
    var w6 := Load32(fdt, 24);
    var w7 := Load32(fdt, 28);
    var w8 := Load32(fdt, 32);
    var w9 := Load32(fdt, 36);
    h := Header(w0, w1, w2, w3, w4, w5, w6, w7, w8, w9);
  }

  /** Is `[o, o+len)` inside the structure block? */
  method InBlock(h: Header, o: int, len: int) returns (ok: bool)
    requires HEADER <= h.offStruct && h.offStruct + h.sizeStruct <= h.totalsize <= INT_MAX && 0 <= o <= INT_MAX && 0 <= len
    ensures ok == (o + len <= h.sizeStruct)
  {
    if len >= 0x1_0000_0000 {
      ok := false;
    } else {
      ok := OffsetPtr(h, o, len);
      OffsetPtrExact(h, o, len);
    }
  }

  lemma StructBytes(b: bytes, o: int, n: int)
    requires Framed(b) && 0 <= o && 0 <= n && o + n <= |StructOf(b)|
    ensures StructOf(b)[o..o + n] == b[Hdr(b).offStruct + o..Hdr(b).offStruct + o + n]
  {
    hide Hdr;
    SliceOfSlice(b, Hdr(b).offStruct, Hdr(b).sizeStruct, o, n);
  }

  lemma StringBytes(b: bytes, o: int, n: int)
    requires Stringed(b) && 0 <= o && 0 <= n && o + n <= |StringsOf(b)|
    ensures StringsOf(b)[o..o + n] == b[Hdr(b).offStrings + o..Hdr(b).offStrings + o + n]
  {
    hide Hdr;
    SliceOfSlice(b, Hdr(b).offStrings, Hdr(b).sizeStrings, o, n);
  }

  /** Reads a word of the structure block. */
  method LoadStruct32(fdt: array<byte>, h: Header, o: int) returns (v: u32)
    requires Framed(fdt[..]) && h == Hdr(fdt[..])
    requires 0 <= o && o + 4 <= h.sizeStruct
    ensures v == U32(StructOf(fdt[..]), o)
  {
    hide Hdr, Be32;
    StructBytes(fdt[..], o, 4);
    v := Load32(fdt, h.offStruct + o);
  }

  /** `fdt_next_tag`, its addition in 32 bits included. */
  method ReadNextTag(fdt: array<byte>, o: int) returns (tag: u32, next: int)
    requires Framed(fdt[..]) && o <= INT_MAX
    ensures (tag, next) == NextTag(StructOf(fdt[..]), o)
  {
    hide Hdr, U32;
    ghost var s := StructOf(fdt[..]);
    var h := LoadHeader(fdt);
    if o < 0 {
      return END, -ERR_TRUNCATED;
    }
    var ok := InBlock(h, o, TAGSIZE);
    if !ok {
      return END, -ERR_TRUNCATED;
    }
    tag := LoadStruct32(fdt, h, o);
    var e := o + TAGSIZE;
    if tag == BEGIN_NODE {
      var k := ReadNul(fdt, h, e);
      if k < 0 {
        return END, -ERR_BADSTRUCTURE;
      }
      e := k + 1;
    } else if tag == PROP {
      ok := InBlock(h, e, 4);
      if !ok {
        return END, -ERR_BADSTRUCTURE;
      }
      var len := LoadStruct32(fdt, h, e);
      e := o + Skip32(len);
    } else if tag != END && tag != END_NODE && tag != NOP {
      return END, -ERR_BADSTRUCTURE;
    }
    ok := InBlock(h, o, e - o);
    if !ok {
      return END, -ERR_BADSTRUCTURE;
    }
    next := Align(e);
  }

  /** The name-skipping loop of `fdt_next_tag`. */
  method ReadNul(fdt: array<byte>, h: Header, start: int) returns (k: int)
    requires Framed(fdt[..]) && h == Hdr(fdt[..])
    requires 0 <= start <= h.sizeStruct
    ensures k == FindNul(StructOf(fdt[..]), start)
  {
    hide Hdr;
    ghost var s := StructOf(fdt[..]);
    k := start;
    while true
      invariant start <= k <= |s|
      invariant FindNul(s, start) == FindNul(s, k)
      decreases |s| - k
    {
      var ok := InBlock(h, k, 1);
      if !ok {
        return -1;
      }
      StructBytes(fdt[..], k, 1);
      assert s[k] == s[k..k + 1][0] == fdt[h.offStruct + k];
      if fdt[h.offStruct + k] == 0 {
        return;
      }
      k := k + 1;
    }
  }

  /** `fdt_check_node_offset_`. */
  method ReadCheckNode(fdt: array<byte>, o: int) returns (r: int)
    requires Framed(fdt[..]) && o <= INT_MAX
    ensures r == CheckNode(StructOf(fdt[..]), o)
  {
    hide Hdr, NextTag;
    if o < 0 || o % TAGSIZE != 0 {
      return -ERR_BADOFFSET;
    }
    var tag, next := ReadNextTag(fdt, o);
    r := if tag != BEGIN_NODE then -ERR_BADOFFSET else next;
  }

  lemma TagInBlock(s: bytes, o: int)
    requires NextTag(s, o).0 != END
    ensures 0 <= o < |s| && NextTag(s, o).1 <= |s| + 3
  {
  }

  /** `fdt_next_node`. */
  method ReadNextNode(fdt: array<byte>, o: int, depth: int) returns (r: int, d: int)
    requires Framed(fdt[..]) && o <= INT_MAX
    ensures (r, d) == NextNode(StructOf(fdt[..]), o, depth)
  {
    hide Hdr, NextTag;
    ghost var s := StructOf(fdt[..]);
    var next := 0;
    d := depth;
    if o >= 0 {
      next := ReadCheckNode(fdt, o);
      if next < 0 {
        return next, d;
      }
      TagInBlock(s, o);
    }
    ghost var start := next;
    while true
      invariant 0 <= next <= |s| + 3
      invariant Scan(s, start, depth) == Scan(s, next, d)
      decreases |s| - next
    {
      r := next;
      var tag;
      tag, next := ReadNextTag(fdt, r);
      if tag == END {
        if next >= 0 {
          return -ERR_NOTFOUND, d;
        }
        return next, d;
      }
      TagInBlock(s, r);
      if tag == BEGIN_NODE {
        d := d + 1;
        return;
      } else if tag == END_NODE {
        d := d - 1;
        if d < 0 {
          return next, d;
        }
      } else if next == r {
        return -ASTRAY, d;
      }
    }
  }

  lemma NodeInBlock(s: bytes, o: int, depth: int)
    requires NextNode(s, o, depth).0 >= 0
    ensures NextNode(s, o, depth).0 <= |s| + 3
  {
    if o >= 0 {
      ScanInBlock(s, CheckNode(s, o), depth);
    } else {
      ScanInBlock(s, 0, depth);
    }
  }

  lemma {:induction false} ScanInBlock(s: bytes, o: int, depth: int)
    requires Scan(s, o, depth).0 >= 0
    ensures Scan(s, o, depth).0 <= |s| + 3
    decreases |s| - o
  {
    hide NextTag;
    var (tag, next) := NextTag(s, o);
    if tag != END {
      TagInBlock(s, o);
      if tag == PROP || tag == NOP {
        ScanInBlock(s, next, depth);
      } else if tag == END_NODE && depth >= 1 {
        ScanInBlock(s, next, depth - 1);
      }
    }
  }

  /** `fdt_first_subnode`. */
  method ReadFirstSubnode(fdt: array<byte>, o: int) returns (r: int)
    requires Framed(fdt[..]) && o <= INT_MAX
    ensures r == FirstSubnode(StructOf(fdt[..]), o)
  {
    hide Hdr, NextNode;
    var d;
    r, d := ReadNextNode(fdt, o, 0);
    if r != -ASTRAY && (r < 0 || d != 1) {
      r := -ERR_NOTFOUND;
    }
  }

  /** `fdt_next_subnode`. */
  method ReadNextSubnode(fdt: array<byte>, o: int) returns (r: int)
    requires Framed(fdt[..]) && o <= INT_MAX
    ensures r == NextSubnode(StructOf(fdt[..]), o)
  {
    hide Hdr, NextNode;
    ghost var s := StructOf(fdt[..]);
    var depth := 1;
    r := o;
    while true
      invariant r <= INT_MAX
      invariant NextSubnodeFrom(s, o, 1) == NextSubnodeFrom(s, r, depth)
      decreases |s| + 4 - r
    {
      ghost var was, from := r, depth;
      r, depth := ReadNextNode(fdt, r, depth);
      if r == -ASTRAY {
        return;
      }
      if r < 0 || depth < 1 {
        return -ERR_NOTFOUND;
      }
      NodeInBlock(s, was, from);
      if depth <= 1 {
        return;
      }
    }
  }

  /** `fdt_node_end_offset_`. */
  method ReadNodeEnd(fdt: array<byte>, o: int) returns (r: int)
    requires Framed(fdt[..]) && o <= INT_MAX
    ensures r == NodeEnd(StructOf(fdt[..]), o)
  {
    hide Hdr, NextNode;
    ghost var s := StructOf(fdt[..]);
    var depth := 0;
    r := o;
    while r >= 0 && depth >= 0
      invariant r <= INT_MAX
      invariant NodeEndFrom(s, o, 0) == NodeEndFrom(s, r, depth)
      decreases if r < 0 || depth < 0 then 0 else INT_MAX + 1 - r
    {
      ghost var was, from := r, depth;
      r, depth := ReadNextNode(fdt, r, depth);
      if r >= 0 {
        NodeInBlock(s, was, from);
      }
    }
  }

  // ---------- Names and strings ----------

  /** `fdt_get_name`: the name of the node at `o`, or an error. */
  method ReadName(fdt: array<byte>, o: int) returns (err: int, name: bytes)
    requires Framed(fdt[..]) && o <= INT_MAX
    ensures var s := StructOf(fdt[..]);
            if CheckNode(s, o) < 0 then err == CheckNode(s, o) else err == 0 && name == NameAt(s, o)
  {
    hide Hdr, U32;
    ghost var s := StructOf(fdt[..]);
    name := [];
    err := ReadCheckNode(fdt, o);
    if err < 0 {
      return;
    }
    err := 0;
    var h := LoadHeader(fdt);
    assert FindNul(s, o + TAGSIZE) != -1;
    var k := ReadNul(fdt, h, o + TAGSIZE);
    StructBytes(fdt[..], o + TAGSIZE, k - o - TAGSIZE);
    name := fdt[h.offStruct + o + TAGSIZE..h.offStruct + k];
  }

  /** `fdt_subnode_offset_namelen`. */
  method ReadSubnodeOffset(fdt: array<byte>, o: int, name: bytes) returns (r: int)
    requires Framed(fdt[..]) && o <= INT_MAX
    ensures r == SubnodeOffset(StructOf(fdt[..]), o, name)
  {
    hide Hdr, NextNode, Matches, NameAt, NextTag;
    ghost var s := StructOf(fdt[..]);
    var depth := 0;
    r := o;
    while r >= 0 && depth >= 0
      invariant r <= INT_MAX
      invariant r >= 0 && depth > 0 ==> CheckNode(s, r) >= 0
      invariant SubnodeFrom(s, o, 0, name) == if depth < 0 then -ERR_NOTFOUND else SubnodeFrom(s, r, depth, name)
      decreases if r < 0 || depth < 0 then 0 else INT_MAX + 1 - r
    {
      if depth == 1 {
        var err, own := ReadName(fdt, r);
        if err == 0 && Matches(own, name) {
          return;
        }
      }
      ghost var was, from := r, depth;
      r, depth := ReadNextNode(fdt, r, depth);
      if r >= 0 {
        NodeInBlock(s, was, from);
        if depth >= 0 {
          NodeIsNode(s, was, from);
        }
      }
    }
    if depth < 0 {
      r := -ERR_NOTFOUND;
    }
  }

  lemma NodeIsNode(s: bytes, o: int, depth: int)
    requires NextNode(s, o, depth).0 >= 0 && NextNode(s, o, depth).1 >= 0
    ensures CheckNode(s, NextNode(s, o, depth).0) >= 0
  {
    hide NextTag;
  }

  /** `fdt_get_string`. */
  method ReadString(fdt: array<byte>, off: int) returns (r: Option<bytes>)
    requires Stringed(fdt[..]) && 0 <= off < 0x1_0000_0000
    ensures r == Str(StringsOf(fdt[..]), off)
  {
    hide Hdr;
    ghost var t := StringsOf(fdt[..]);
    var h := LoadHeader(fdt);
    if off >= h.sizeStrings {
      return None;
    }
    var k := off;
    while k < h.sizeStrings
      invariant off <= k <= |t|
      invariant FindNul(t, off) == FindNul(t, k)
    {
      StringBytes(fdt[..], k, 1);
      assert t[k] == t[k..k + 1][0] == fdt[h.offStrings + k];
      if fdt[h.offStrings + k] == 0 {
        StringBytes(fdt[..], off, k - off);
        return Some(fdt[h.offStrings + off..h.offStrings + k]);
      }
      k := k + 1;
    }
    r := None;
  }

  /** `fdt_find_string_` on the strings block. */
  method ReadFindString(fdt: array<byte>, name: bytes) returns (r: int)
    requires Stringed(fdt[..])
    ensures r == FindString(StringsOf(fdt[..]), 0, name)
  {
    hide Hdr;
    ghost var t := StringsOf(fdt[..]);
    var h := LoadHeader(fdt);
    r := 0;
    while r + |name| + 1 <= h.sizeStrings
      invariant 0 <= r
      invariant FindString(t, 0, name) == FindString(t, r, name)
    {
      StringBytes(fdt[..], r, |name| + 1);
      if fdt[h.offStrings + r..h.offStrings + r + |name| + 1] == name + [0] {
        return;
      }
      r := r + 1;
    }
    r := -1;
  }

  // ---------- Properties ----------

  /** `nextprop_`. */
  method ReadNextProp(fdt: array<byte>, o: int) returns (r: int)
    requires Framed(fdt[..]) && 0 <= o <= |StructOf(fdt[..])| + 3
    ensures r == NextProp(StructOf(fdt[..]), o)
  {
    hide Hdr, NextTag;
    ghost var s := StructOf(fdt[..]);
    r := o;
    while true
      invariant 0 <= r <= |s| + 3
      invariant NextProp(s, o) == NextProp(s, r)
      decreases |s| - r
    {
      var tag, next := ReadNextTag(fdt, r);
      if tag == END {
        return if next >= 0 then -ERR_BADSTRUCTURE else next;
      } else if tag == PROP {
        return;
      }
      TagInBlock(s, r);
      if tag != NOP {
        return -ERR_NOTFOUND;
      }
      r := next;
    }
  }

  /** `fdt_first_property_offset`. */
  method ReadFirstProperty(fdt: array<byte>, o: int) returns (r: int)
    requires Framed(fdt[..]) && o <= INT_MAX
    ensures r == FirstProperty(StructOf(fdt[..]), o)
  {
    hide Hdr, NextTag, NextProp;
    r := ReadCheckNode(fdt, o);
    if r >= 0 {
      TagInBlock(StructOf(fdt[..]), o);
      r := ReadNextProp(fdt, r);
    }
  }

  /** `fdt_next_property_offset`. */
  method ReadNextProperty(fdt: array<byte>, o: int) returns (r: int)
    requires Framed(fdt[..]) && o <= INT_MAX
    ensures r == NextProperty(StructOf(fdt[..]), o)
  {
    hide Hdr, NextTag, NextProp;
    if o < 0 || o % TAGSIZE != 0 {
      return -ERR_BADOFFSET;
    }
    var tag, next := ReadNextTag(fdt, o);
    if tag != PROP {
      return -ERR_BADOFFSET;
    }
    TagInBlock(StructOf(fdt[..]), o);
    r := ReadNextProp(fdt, next);
  }

  /** `fdt_get_property_by_offset_`: the fields of a property. */
  method ReadProperty(fdt: array<byte>, o: int) returns (err: int, nameoff: u32, val: bytes)
    requires Framed(fdt[..]) && o <= INT_MAX
    ensures var s := StructOf(fdt[..]);
            if CheckProp(s, o) < 0 then err == CheckProp(s, o)
            else if !NameInBlock(s, o) then err == -ASTRAY
            else err == 0 && nameoff == PropNameOff(s, o) && val == PropVal(s, o)
  {
    hide Hdr, U32;
    nameoff, val := 0, [];
    if o < 0 || o % TAGSIZE != 0 {
      return -ERR_BADOFFSET, nameoff, val;
    }
    var tag, next := ReadNextTag(fdt, o);
    if tag != PROP {
      return -ERR_BADOFFSET, nameoff, val;
    }
    var h := LoadHeader(fdt);
    if o + 12 > h.sizeStruct {
      return -ASTRAY, nameoff, val;
    }
    var len := LoadStruct32(fdt, h, o + 4);
    nameoff := LoadStruct32(fdt, h, o + 8);
    if o + 12 + len <= h.sizeStruct {
      StructBytes(fdt[..], o + 12, len);
      val := fdt[h.offStruct + o + 12..h.offStruct + o + 12 + len];
    }
    err := 0;
  }

  lemma PropInBlock(s: bytes, o: int)
    requires NextProp(s, o) >= 0
    ensures NextProp(s, o) <= |s|
  {
    hide NextTag;
    TagInBlock(s, NextProp(s, o));
  }

  /** `fdt_get_property_namelen_`: the offset of a property by name. */
  method ReadGetProperty(fdt: array<byte>, o: int, name: bytes) returns (r: int)
    requires Stringed(fdt[..]) && o <= INT_MAX
    ensures r == GetProperty(StructOf(fdt[..]), StringsOf(fdt[..]), o, name)
  {
    hide Hdr, NextTag, NextProp, Str, PropNameOff, PropVal, PropertyFrom;
    ghost var s, t := StructOf(fdt[..]), StringsOf(fdt[..]);
    r := ReadFirstProperty(fdt, o);
    if r >= 0 {
      PropInBlock(s, CheckNode(s, o));
    }
    r := ReadPropertyFrom(fdt, r, name);
  }

  method ReadPropertyFrom(fdt: array<byte>, o: int, name: bytes) returns (r: int)
    requires Stringed(fdt[..]) && o <= |StructOf(fdt[..])|
    ensures r == PropertyFrom(StructOf(fdt[..]), StringsOf(fdt[..]), o, name)
  {
    hide Hdr, NextTag, NextProp, Str, PropNameOff, PropVal;
    ghost var s, t := StructOf(fdt[..]), StringsOf(fdt[..]);
    r := o;
    while r >= 0
      invariant r <= |s|
      invariant PropertyFrom(s, t, o, name) == if r >= 0 then PropertyFrom(s, t, r, name) else r
      decreases if r < 0 then 0 else |s| + 1 - r
    {
      var err, nameoff, val := ReadProperty(fdt, r);
      if err < 0 {
        return if err == -ASTRAY then err else -ERR_INTERNAL;
      }
      var own := ReadString(fdt, nameoff);
      if own == Some(name) {
        return;
      }
      var was := r;
      r := ReadNextProperty(fdt, r);
      if r >= 0 {
        PropInBlock(s, CheckProp(s, was));
        if r == was {
          return -ASTRAY;
        }
      }
    }
  }

  /** `fdt_getprop_namelen`: the value of a property, or a negative error. */
  method ReadGetProp(fdt: array<byte>, o: int, name: bytes) returns (at: int, val: bytes)
    requires Stringed(fdt[..]) && o <= INT_MAX
    ensures var s, t := StructOf(fdt[..]), StringsOf(fdt[..]);
            && at == GetProperty(s, t, o, name)
            && (at >= 0 ==> at <= |s| && CheckProp(s, at) >= 0 && NameInBlock(s, at) && val == PropVal(s, at))
  {
    hide Hdr, NextTag, Str, PropNameOff, PropVal, NextProp;
    val := [];
    at := ReadGetProperty(fdt, o, name);
    if at >= 0 {
      PropertyIsProp(StructOf(fdt[..]), StringsOf(fdt[..]), FirstProperty(StructOf(fdt[..]), o), name);
      TagInBlock(StructOf(fdt[..]), at);
      var err, nameoff;
      err, nameoff, val := ReadProperty(fdt, at);
    }
  }

  lemma {:induction false} PropertyIsProp(s: bytes, t: bytes, o: int, name: bytes)
    requires PropertyFrom(s, t, o, name) >= 0
    ensures CheckProp(s, PropertyFrom(s, t, o, name)) >= 0 && NameInBlock(s, PropertyFrom(s, t, o, name))
    decreases |s| - o
  {
    hide NextTag, Str, PropNameOff, NextProp;
    if Str(t, PropNameOff(s, o)) != Some(name) {
      PropertyIsProp(s, t, NextProperty(s, o), name);
    }
  }

  /** `fdt_get_phandle`. */
  method ReadPhandle(fdt: array<byte>, o: int) returns (v: int)
    requires Stringed(fdt[..]) && o <= INT_MAX
    ensures v == GetPhandle(StructOf(fdt[..]), StringsOf(fdt[..]), o)
  {
    hide Hdr, NextTag, PropVal, GetProperty, Be32;
    var at, val := ReadGetProp(fdt, o, PHANDLE);
    if at == -ASTRAY {
      return at;
    } else if at >= 0 && |val| == 4 {
      return Be32(val);
    }
    at, val := ReadGetProp(fdt, o, LINUX_PHANDLE);
    if at == -ASTRAY {
      return at;
    } else if at >= 0 && |val| == 4 {
      return Be32(val);
    }
    v := 0;
  }

  /** `fdt_next_node` without a depth, from the node at `o`, or from the start when `o` is negative. */
  method ReadAnyNode(fdt: array<byte>, o: int) returns (r: int)
    requires Framed(fdt[..])
    requires o <= INT_MAX && (o >= 0 ==> CheckNode(StructOf(fdt[..]), o) >= 0)
    ensures var s := StructOf(fdt[..]);
            && r == ScanAny(s, if o < 0 then 0 else NextTag(s, o).1)
            && (r >= 0 ==> r <= |s| && CheckNode(s, r) >= 0 && r > o)
  {
    hide Hdr, NextTag;
    ghost var s := StructOf(fdt[..]);
    var next := 0;
    if o >= 0 {
      next := ReadCheckNode(fdt, o);
      TagInBlock(s, o);
    }
    ghost var start := next;
    while true
      invariant start <= next <= |s| + 3 && next % 4 == 0
      invariant ScanAny(s, start) == ScanAny(s, next)
      decreases |s| - next
    {
      r := next;
      var tag;
      tag, next := ReadNextTag(fdt, r);
      if tag == END {
        return if next >= 0 || next == -ERR_TRUNCATED then -ERR_NOTFOUND else next;
      }
      TagInBlock(s, r);
      if tag == BEGIN_NODE {
        return;
      } else if next == r {
        return -ASTRAY;
      }
    }
  }

  /** `fdt_node_offset_by_phandle`. */
  method ReadNodeByPhandle(fdt: array<byte>, phandle: u32) returns (r: int)
    requires Stringed(fdt[..])
    ensures r == NodeByPhandle(StructOf(fdt[..]), StringsOf(fdt[..]), phandle)
  {
    hide Hdr, NextTag, GetPhandle, ScanAny;
    ghost var s, t := StructOf(fdt[..]), StringsOf(fdt[..]);
    if phandle == 0 || phandle == 0xffff_ffff {
      return -ERR_BADPHANDLE;
    }
    r := ReadAnyNode(fdt, -1);
    while r >= 0
      invariant r <= |s| && (r >= 0 ==> CheckNode(s, r) >= 0)
      invariant ByPhandleScan(s, t, 0, phandle) ==
                if r < 0 then r
                else if GetPhandle(s, t, r) == -ASTRAY then -ASTRAY
                else if GetPhandle(s, t, r) == phandle then r
                else ByPhandleScan(s, t, NextTag(s, r).1, phandle)
      decreases if r < 0 then 0 else |s| + 1 - r
    {
      var own := ReadPhandle(fdt, r);
      if own == -ASTRAY {
        return own;
      } else if own == phandle {
        return;
      }
      r := ReadAnyNode(fdt, r);
    }
  }

  /** `fdt_find_max_phandle`. */
  method ReadMaxPhandle(fdt: array<byte>) returns (err: int, max: u32)
    requires Stringed(fdt[..])
    ensures (err, max) == MaxPhandleScan(StructOf(fdt[..]), StringsOf(fdt[..]), 0, 0)
  {
    hide Hdr, NextTag, GetPhandle, ScanAny;
    ghost var s, t := StructOf(fdt[..]), StringsOf(fdt[..]);
    max := 0;
    var o := ReadAnyNode(fdt, -1);
    while o >= 0
      invariant o <= |s| && (o >= 0 ==> CheckNode(s, o) >= 0)
      invariant MaxPhandleScan(s, t, 0, 0) ==
                if o < 0 then (if o == -ERR_NOTFOUND then 0 else o, max)
                else
                  var value := GetPhandle(s, t, o);
                  if value == -ASTRAY then (value, max)
                  else MaxPhandleScan(s, t, NextTag(s, o).1, if value > max then value else max)
      decreases if o < 0 then 0 else |s| + 1 - o
    {
      var value := ReadPhandle(fdt, o);
      if value == -ASTRAY {
        return value, max;
      } else if value > max {
        max := value;
      }
      o := ReadAnyNode(fdt, o);
    }
    err := if o == -ERR_NOTFOUND then 0 else o;
  }

  // ---------- Paths ----------

  /** The loop of `fdt_path_offset_namelen`, from the node at `start`. */
  method ReadPathFrom(fdt: array<byte>, start: int, path: bytes) returns (r: int)
    requires Framed(fdt[..]) && 0 <= start <= INT_MAX
    ensures r == PathFrom(StructOf(fdt[..]), start, path)
  {
    hide Hdr, SubnodeOffset;
    ghost var s := StructOf(fdt[..]);
    r := start;
    var p := 0;
    while p < |path|
      invariant 0 <= p <= |path| && 0 <= r <= INT_MAX
      invariant PathFrom(s, start, path) == PathFrom(s, r, path[p..])
    {
      ghost var left := path[p..];
      if path[p] == SLASH {
        assert left[1..] == path[p + 1..];
        p := p + 1;
      } else {
        var q := p + NextSlash(path[p..], 0);
        assert left[..q - p] == path[p..q] && left[q - p..] == path[q..];
        ghost var was := r;
        r := ReadSubnodeOffset(fdt, r, path[p..q]);
        if r < 0 {
          return;
        }
        SubnodeInBlock(s, was, path[p..q]);
        p := q;
      }
    }
    assert path[p..] == [];
  }

  lemma SubnodeInBlock(s: bytes, o: int, name: bytes)
    requires SubnodeOffset(s, o, name) >= 0
    ensures SubnodeOffset(s, o, name) <= |s| + 3
  {
    SubnodeFromInBlock(s, o, 0, name);
  }

  lemma NextNodeStart(s: bytes, o: int, depth: int)
    requires o >= 0 && NextNode(s, o, depth).0 >= 0
    ensures o < |s|
  {
    TagInBlock(s, o);
  }

  lemma {:induction false} SubnodeFromInBlock(s: bytes, o: int, depth: int, name: bytes)
    requires SubnodeFrom(s, o, depth, name) >= 0
    ensures SubnodeFrom(s, o, depth, name) <= |s| + 3
    decreases |s| - o
  {
    hide NextTag, NextNode, Matches, NameAt;
    if depth == 1 && NextTag(s, o).0 == BEGIN_NODE && Matches(NameAt(s, o), name) {
      TagInBlock(s, o);
    } else {
      var (r, d) := NextNode(s, o, depth);
      NextNodeStart(s, o, depth);
      SubnodeFromInBlock(s, r, d, name);
    }
  }
}
