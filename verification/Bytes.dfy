/** Bytes, big-endian words and slices: the vocabulary every libfdt module shares. */
module Bytes {
  type byte = x: int | 0 <= x < 0x100

  type u32 = x: int | 0 <= x < 0x1_0000_0000

  type bytes = seq<byte>

  const INT_MAX: int := 0x7fff_ffff

  /** The value of four bytes read most significant first (`fdt32_to_cpu`). */
  function Be32(w: bytes): (v: u32)
    requires |w| == 4
  {
    ((w[0] as int * 0x100 + w[1]) * 0x100 + w[2]) * 0x100 + w[3]
  }

  /** The four bytes that store a value (`cpu_to_fdt32`). */
  function Enc32(v: u32): (w: bytes)
    ensures |w| == 4
  {
    var v1 := v / 0x100;
    var v2 := v1 / 0x100;
    [v2 / 0x100, v2 % 0x100, v1 % 0x100, v % 0x100]
  }

  lemma DecodeEncode32(v: u32)
    ensures Be32(Enc32(v)) == v
  {
  }

  /** The word stored at byte offset `i`. */
  function U32(s: bytes, i: int): (v: u32)
    requires 0 <= i && i + 4 <= |s|
  {
    Be32(s[i..i + 4])
  }

  /** Rounds up to the next multiple of the tag size (`FDT_TAGALIGN`). */
  function Align(n: nat): (r: nat)
    ensures n <= r < n + 4 && r % 4 == 0
  {
    n + 3 - (n + 3) % 4
  }

  lemma AlignedSum(a: int, b: int)
    requires a % 4 == 0 && b % 4 == 0
    ensures (a + b) % 4 == 0
  {
  }

  /** The two sequences hold the same `n` bytes at `i` and at `j`. */
  ghost predicate Same(s: bytes, i: int, t: bytes, j: int, n: int) {
    && 0 <= n
    && 0 <= i && i + n <= |s|
    && 0 <= j && j + n <= |t|
    && s[i..i + n] == t[j..j + n]
  }

  lemma SliceOfSlice(s: bytes, i: int, n: int, d: int, m: int)
    requires 0 <= i && i + n <= |s|
    requires 0 <= d && 0 <= m && d + m <= n
    ensures s[i..i + n][d..d + m] == s[i + d..i + d + m]
  {
    var left, right := s[i..i + n][d..d + m], s[i + d..i + d + m];
    assert |left| == |right|;
    assert forall k :: 0 <= k < |left| ==> left[k] == right[k];
  }

  /** Sequences that agree on `[i, j)` agree on every part of it. */
  lemma AgreeWithin(s: bytes, t: bytes, i: int, j: int, k: int, l: int)
    requires 0 <= i <= k <= l <= j <= |s| && j <= |t|
    requires s[i..j] == t[i..j]
    ensures s[k..l] == t[k..l]
  {
    SliceOfSlice(s, i, j - i, k - i, l - k);
    SliceOfSlice(t, i, j - i, k - i, l - k);
  }

  lemma SamePart(s: bytes, i: int, t: bytes, j: int, n: int, d: int, m: int)
    requires Same(s, i, t, j, n)
    requires 0 <= d && 0 <= m && d + m <= n
    ensures Same(s, i + d, t, j + d, m)
  {
    SliceOfSlice(s, i, n, d, m);
    SliceOfSlice(t, j, n, d, m);
  }

  /** The index of the first zero byte at or after `i`, or -1 (`strlen`, `memchr`). */
  function FindNul(s: bytes, i: int): (k: int)
    requires 0 <= i <= |s|
    ensures k == -1 || (i <= k < |s| && s[k] == 0)
    ensures k == -1 ==> forall j :: i <= j < |s| ==> s[j] != 0
    ensures k != -1 ==> forall j :: i <= j < k ==> s[j] != 0
    decreases |s| - i
  {
    if i == |s| then -1
    else if s[i] == 0 then i
    else FindNul(s, i + 1)
  }

  /** The string `name` followed by its terminator stands at `i`. */
  ghost predicate CStr(s: bytes, i: int, name: bytes) {
    && 0 !in name
    && 0 <= i && i + |name| + 1 <= |s|
    && s[i..i + |name|] == name
    && s[i + |name|] == 0
  }

  lemma CStrNul(s: bytes, i: int, name: bytes)
    requires CStr(s, i, name)
    ensures FindNul(s, i) == i + |name|
  {
    var k := FindNul(s, i);
    assert forall j :: i <= j < i + |name| ==> s[j] == s[i..i + |name|][j - i];
    assert s[i + |name|] == 0;
  }

  lemma NulCStr(s: bytes, i: int)
    requires 0 <= i <= |s| && FindNul(s, i) != -1
    ensures CStr(s, i, s[i..FindNul(s, i)])
  {
    var name := s[i..FindNul(s, i)];
    assert forall j :: 0 <= j < |name| ==> name[j] == s[i + j];
  }

  lemma CStrSame(s: bytes, i: int, t: bytes, j: int, name: bytes)
    requires CStr(s, i, name)
    requires Same(s, i, t, j, |name| + 1)
    ensures CStr(t, j, name)
  {
    SamePart(s, i, t, j, |name| + 1, 0, |name|);
    assert s[i..i + |name| + 1][|name|] == t[j..j + |name| + 1][|name|];
  }

  lemma TerminatedName(u: bytes, i: int, name: bytes)
    requires 0 !in name && 0 <= i && i + |name| + 1 <= |u|
    requires u[i..i + |name| + 1] == name + [0]
    ensures CStr(u, i, name)
  {
    var w := u[i..i + |name| + 1];
    assert u[i..i + |name|] == w[..|name|];
    assert u[i + |name|] == w[|name|];
  }
}
