/** Memory operations on the byte array that holds a blob. */
module Buffer {
  import opened Bytes
  import opened Structure
  import opened Walk
  import opened Blob

  /** The bytes `b` with `w` written over them at `i`. */
  function Put(b: bytes, i: int, w: bytes): (r: bytes)
    requires 0 <= i && i + |w| <= |b|
    ensures |r| == |b|
  {
    b[..i] + w + b[i + |w|..]
  }

  lemma PutReads(b: bytes, i: int, w: bytes)
    requires 0 <= i && i + |w| <= |b|
    ensures Put(b, i, w)[i..i + |w|] == w
    ensures Put(b, i, w)[..i] == b[..i]
    ensures Put(b, i, w)[i + |w|..] == b[i + |w|..]
  {
  }

  /** A slice apart from the written bytes is unchanged. */
  lemma PutApart(b: bytes, i: int, w: bytes, j: int, k: int)
    requires 0 <= i && i + |w| <= |b| && 0 <= j <= k <= |b|
    requires k <= i || i + |w| <= j
    ensures Put(b, i, w)[j..k] == b[j..k]
  {
  }

  /** Writing inside a slice is writing into the slice. */
  lemma PutInside(b: bytes, at: int, n: int, o: int, w: bytes)
    requires 0 <= at && at + n <= |b| && 0 <= o && o + |w| <= n
    ensures Put(b, at + o, w)[at..at + n] == Put(b[at..at + n], o, w)
  {
    var d, s := Put(b, at + o, w), b[at..at + n];
    assert |d[at..at + n]| == |Put(s, o, w)| == n;
    forall k | 0 <= k < n
      ensures d[at..at + n][k] == Put(s, o, w)[k]
    {
      assert d[at..at + n][k] == d[at + k];
      if k < o {
        assert Put(s, o, w)[k] == s[k] == b[at + k];
      } else if k < o + |w| {
        assert d[at + k] == w[k - o];
      } else {
        assert Put(s, o, w)[k] == s[k] == b[at + k];
      }
    }
  }

  method Load32(a: array<byte>, i: int) returns (v: u32)
    requires 0 <= i && i + 4 <= a.Length
    ensures v == U32(a[..], i)
  {
    v := ((a[i] as int * 0x100 + a[i + 1]) * 0x100 + a[i + 2]) * 0x100 + a[i + 3];
    assert a[..][i..i + 4] == [a[i], a[i + 1], a[i + 2], a[i + 3]];
  }

  method MemCpy(a: array<byte>, i: int, w: bytes)
    requires 0 <= i && i + |w| <= a.Length
    modifies a
    ensures a[..] == Put(old(a[..]), i, w)
  {
    forall k | 0 <= k < |w| {
      a[i + k] := w[k];
    }
  }

  /** Copies `n` bytes; the regions may overlap. */
  method MemMove(a: array<byte>, dst: int, src: int, n: int)
    requires 0 <= n && 0 <= dst && dst + n <= a.Length && 0 <= src && src + n <= a.Length
    modifies a
    ensures a[..] == Put(old(a[..]), dst, old(a[..])[src..src + n])
  {
    forall k | 0 <= k < n {
      a[dst + k] := a[src + k];
    }
  }

  method Store32(a: array<byte>, i: int, v: u32)
    requires 0 <= i && i + 4 <= a.Length
    modifies a
    ensures a[..] == Put(old(a[..]), i, Enc32(v))
  {
    MemCpy(a, i, Enc32(v));
  }

  // ---------- Header fields ----------

  lemma PutWord(b: bytes, i: int, v: u32, j: int)
    requires 0 <= i && i + 4 <= |b| && 0 <= j && j + 4 <= |b|
    requires i == j || j + 4 <= i || i + 4 <= j
    ensures U32(Put(b, i, Enc32(v)), j) == if i == j then v else U32(b, j)
  {
    hide Be32, Enc32, Put;
    if i == j {
      PutReads(b, i, Enc32(v));
      DecodeEncode32(v);
    } else {
      PutApart(b, i, Enc32(v), j, j + 4);
    }
  }

  /** Writing one header word changes that field only. */
  lemma PutHeader(b: bytes, i: int, v: u32)
    requires |b| >= HEADER && 0 <= i <= 36 && i % 4 == 0
    ensures var d := Put(b, i, Enc32(v));
            && d[HEADER..] == b[HEADER..]
            && Hdr(d) == var h := Hdr(b);
                         if i == 0 then h.(magic := v)
                         else if i == 4 then h.(totalsize := v)
                         else if i == 8 then h.(offStruct := v)
                         else if i == 12 then h.(offStrings := v)
                         else if i == 16 then h.(offRsv := v)
                         else if i == 20 then h.(version := v)
                         else if i == 24 then h.(lastComp := v)
                         else if i == 28 then h.(bootCpu := v)
                         else if i == 32 then h.(sizeStrings := v)
                         else h.(sizeStruct := v)
  {
    hide U32, Put, Enc32;
    var d := Put(b, i, Enc32(v));
    PutApart(b, i, Enc32(v), HEADER, |b|);
    assert d[HEADER..] == d[HEADER..|b|];
    PutWord(b, i, v, 0);
    PutWord(b, i, v, 4);
    PutWord(b, i, v, 8);
    PutWord(b, i, v, 12);
    PutWord(b, i, v, 16);
    PutWord(b, i, v, 20);
    PutWord(b, i, v, 24);
    PutWord(b, i, v, 28);
    PutWord(b, i, v, 32);
    PutWord(b, i, v, 36);
  }
}
