/**
 The search of Minimizer.py for a smallest failing program: in each round windows of words
 are replaced by `nop`, and what still fails is kept.
 */
module Minimizer {

  /** A unit of instructions under one label. */
  datatype Word = Word(number: int, insts: seq<string>)

  type Mask = seq<bool>

  const NOP: seq<string> := ["nop"]

  /** `make_nop`: the masked words become `nop`, each under its label. */
  function MakeNop(words: seq<Word>, mask: Mask): (r: seq<Word>)
    requires |mask| == |words|
    ensures |r| == |words| && forall k :: 0 <= k < |r| ==> r[k] == if mask[k] then Word(words[k].number, NOP) else words[k]
  {
    seq(|words|, k requires 0 <= k < |words| => if mask[k] then Word(words[k].number, NOP) else words[k])
  }

  /** Every word masked in `a` is masked in `b`. */
  predicate Within(a: Mask, b: Mask) {
    |a| == |b| && forall k :: 0 <= k < |a| && a[k] ==> b[k]
  }

  /** Replacing more words at once is as good as replacing them one after the other. */
  lemma NopTwice(words: seq<Word>, a: Mask, b: Mask)
    requires |a| == |words| && Within(a, b)
    ensures MakeNop(MakeNop(words, a), b) == MakeNop(words, b)
  {
  }

  // ---------- Windows ----------

  function Pow2(i: nat): (p: nat)
    ensures p > 0
  {
    if i == 0 then 1 else 2 * Pow2(i - 1)
  }

  /** `int(math.log(n, 2))`. */
  function Log2(n: nat): (l: nat)
    requires n > 0
    ensures Pow2(l) <= n < Pow2(l + 1)
  {
    if n == 1 then 0 else Log2(n / 2) + 1
  }

  /** Words per window in round `i`. */
  function WindowSize(n: nat, i: nat): (size: nat)
    requires n > 0
    ensures 0 < size <= n
  {
    var p := Pow2(i + 1);
    var d := if p < n then p else n;
    Quotient(n, d);
    n / d
  }

  lemma Quotient(n: nat, d: nat)
    requires 0 < d <= n
    ensures 0 < n / d <= n && d * (n / d) <= n < d * (n / d) + d
  {
    var q := n / d;
    assert n == d * q + n % d;
    MulLess(d, q, 0);
    MulLess(q, 1, d);
  }

  /** The last round tries the words one by one. */
  lemma LastWindows(n: nat)
    requires n >= 2
    ensures Log2(n) >= 1 && WindowSize(n, Log2(n) - 1) == 1
  {
    var p := Pow2(Log2(n));
    assert p <= n < 2 * p;
    Quotient(n, p);
    MulLess(p, 2, n / p);
  }

  /** Window `j` of `tests` windows of `size` words; the last one takes the rest. */
  predicate InWindow(n: nat, size: nat, tests: nat, j: nat, k: int) {
    0 <= k < n && size * j <= k && (j + 1 != tests ==> k < size * (j + 1))
  }

  /** The windows of a round part the words: each word lies in exactly one. */
  lemma WindowsPart(n: nat, size: nat, k: nat) returns (j: nat)
    requires 0 < size <= n && k < n
    ensures var tests := n / size;
      && j < tests && InWindow(n, size, tests, j, k)
      && forall i: nat :: i < tests && InWindow(n, size, tests, i, k) ==> i == j
  {
    Quotient(n, size);
    Div(k, size);
    j := WindowOf(n, size, n / size, k, k / size);
    forall i: nat | i < n / size && InWindow(n, size, n / size, i, k)
      ensures i == j
    {
      OneWindow(n, size, n / size, i, j, k);
    }
  }

  lemma WindowOf(n: nat, size: nat, tests: nat, k: nat, q: nat) returns (j: nat)
    requires 0 < tests && k < n && size * q <= k < size * (q + 1)
    ensures j < tests && InWindow(n, size, tests, j, k)
  {
    j := if q < tests then q else tests - 1;
    MulLess(size, j, q);
  }

  lemma OneWindow(n: nat, size: nat, tests: nat, i: nat, j: nat, k: nat)
    requires i < tests && j < tests && InWindow(n, size, tests, i, k) && InWindow(n, size, tests, j, k)
    ensures i == j
  {
    if i < j {
      MulLess(size, i + 1, j);
    } else if j < i {
      MulLess(size, j + 1, i);
    }
  }

  lemma Div(k: nat, size: nat)
    requires size > 0
    ensures size * (k / size) <= k < size * (k / size + 1) && k / size >= 0
  {
    assert k == size * (k / size) + k % size;
    assert size * (k / size + 1) == size * (k / size) + size;
  }

  lemma MulLess(size: nat, a: int, b: int)
    ensures a <= b ==> size * a <= size * b
  {
    if a <= b {
      assert size * b - size * a == size * (b - a);
    }
  }

  /** The mask that is tried for window `j`. */
  function Tried(mask: Mask, size: nat, tests: nat, j: nat): (r: Mask)
    ensures |r| == |mask| && Within(mask, r)
    ensures forall k :: 0 <= k < |r| ==> r[k] == (mask[k] || InWindow(|mask|, size, tests, j, k))
  {
    seq(|mask|, k requires 0 <= k < |mask| => mask[k] || InWindow(|mask|, size, tests, j, k))
  }

  // ---------- The search ----------

  /** Whether a program still shows the mismatch. */
  type Oracle = seq<Word> -> bool

  /** Bringing words back does not make a mismatch go away. */
  ghost predicate Monotone(words: seq<Word>, fails: Oracle) {
    forall a: Mask, b: Mask :: |a| == |words| && Within(a, b) && fails(MakeNop(words, b)) ==> fails(MakeNop(words, a))
  }

  /** Word `k` was tried alone on top of a mask within this one, and the mismatch was gone. */
  ghost predicate Needed(words: seq<Word>, fails: Oracle, mask: Mask, k: nat) {
    exists m: Mask :: Within(m, mask) && |m| == |words| && k < |m| && !fails(MakeNop(words, m[k := true]))
  }

  lemma StillNeeded(words: seq<Word>, fails: Oracle, a: Mask, b: Mask)
    requires Within(a, b) && |a| == |words|
    ensures forall k: nat :: Needed(words, fails, a, k) ==> Needed(words, fails, b, k)
  {
    forall k: nat | Needed(words, fails, a, k)
      ensures Needed(words, fails, b, k)
    {
      var m: Mask :| Within(m, a) && |m| == |words| && k < |m| && !fails(MakeNop(words, m[k := true]));
      assert Within(m, b);
    }
  }

  /** The tests of one round. */
  method TryWindows(words: seq<Word>, fails: Oracle, input: seq<Word>, mask: Mask, size: nat)
    returns (input': seq<Word>, mask': Mask)
    requires 0 < size <= |words| == |mask| && input == MakeNop(words, mask)
    ensures Within(mask, mask') && input' == MakeNop(words, mask')
    ensures fails(input) ==> fails(input')
    ensures size == 1 ==> forall k: nat :: k < |words| ==> mask'[k] || Needed(words, fails, mask', k)
  {
    var n := |words|;
    var tests := n / size;
    Quotient(n, size);
    input', mask' := input, mask;
    for j := 0 to tests
      invariant Within(mask, mask') && input' == MakeNop(words, mask')
      invariant fails(input) ==> fails(input')
      invariant size == 1 ==> forall k: nat :: k < j ==> mask'[k] || Needed(words, fails, mask', k)
    {
      var tried := Tried(mask', size, tests, j);
      if tried == mask' {
        assert size == 1 ==> tried[j];
        continue;
      }
      NopTwice(words, mask', tried);
      var tmp := MakeNop(input', tried);
      if fails(tmp) {
        StillNeeded(words, fails, mask', tried);
        input', mask' := tmp, tried;
      } else if size == 1 {
        OnlyOne(mask', tests, j);
        assert Needed(words, fails, mask', j);
      }
    }
  }

  /** A window of one word adds that word. */
  lemma OnlyOne(mask: Mask, tests: nat, j: nat)
    requires j < tests == |mask|
    ensures Tried(mask, 1, tests, j) == mask[j := true]
  {
  }

  /**
   The search on one part of the program. The program it keeps still fails if the original
   does; and if bringing words back never cures a failure, no further word of a part of at
   least two words can be replaced.
   */
  method Minimize(words: seq<Word>, fails: Oracle) returns (input: seq<Word>, mask: Mask)
    ensures |mask| == |words| && input == MakeNop(words, mask)
    ensures fails(words) ==> fails(input)
    ensures |words| >= 2 && Monotone(words, fails) ==>
      forall k: nat :: k < |words| && !mask[k] ==> !fails(MakeNop(words, mask[k := true]))
    ensures |words| < 2 ==> input == words
  {
    hide Pow2, Monotone, Needed, Within;
    mask := seq(|words|, _ => false);
    input := words;
    assert MakeNop(words, mask) == words;
    if |words| == 0 {
      return;
    }
    var rounds := Log2(|words|);
    if |words| >= 2 {
      LastWindows(|words|);
    }
    assert |words| == 1 ==> rounds == 0;
    hide Log2, WindowSize;
    for i := 0 to rounds
      invariant |mask| == |words| && input == MakeNop(words, mask)
      invariant fails(words) ==> fails(input)
      invariant |words| < 2 ==> input == words
      invariant |words| >= 2 && i == rounds ==> forall k: nat :: k < |words| ==> mask[k] || Needed(words, fails, mask, k)
    {
      input, mask := TryWindows(words, fails, input, mask, WindowSize(|words|, i));
    }
    if |words| >= 2 {
      Minimal(words, fails, mask);
    }
  }

  lemma Minimal(words: seq<Word>, fails: Oracle, mask: Mask)
    requires |mask| == |words| && forall k: nat :: k < |words| ==> mask[k] || Needed(words, fails, mask, k)
    ensures Monotone(words, fails) ==>
      forall k: nat :: k < |words| && !mask[k] ==> !fails(MakeNop(words, mask[k := true]))
  {
    if Monotone(words, fails) {
      forall k: nat | k < |words| && !mask[k]
        ensures !fails(MakeNop(words, mask[k := true]))
      {
        var m: Mask :| Within(m, mask) && |m| == |words| && k < |m| && !fails(MakeNop(words, m[k := true]));
        assert Within(m[k := true], mask[k := true]);
      }
    }
  }
}
