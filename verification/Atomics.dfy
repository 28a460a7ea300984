/**
 The atomic arithmetic of the TileLink adapter: what the code computes on the whole word,
 and what that is on the lane that the mask selects.
 */
module Atomics {
  import opened Options
  import opened Bytes
  import opened TileLink

  datatype Arith = MIN | MAX | MINU | MAXU | ADD

  // ---------- Numbers and lanes ----------

  function Pow256(n: nat): (p: int)
    ensures p >= 1
  {
    if n == 0 then 1 else 256 * Pow256(n - 1)
  }

  /** The value of bytes, least significant first. */
  function Value(w: bytes): nat {
    if w == [] then 0 else w[0] + 256 * Value(w[1..])
  }

  /** The `n` low bytes of an integer, in two's complement if it is negative. */
  function Low(v: int, n: nat): (w: bytes)
    ensures |w| == n
    decreases n
  {
    if n == 0 then [] else [v % 256] + Low(v / 256, n - 1)
  }

  lemma {:induction false} ValueBound(w: bytes)
    ensures Value(w) < Pow256(|w|)
    decreases |w|
  {
    if w != [] {
      ValueBound(w[1..]);
    }
  }

  lemma {:induction false} ValueLow(v: int, n: nat)
    ensures Value(Low(v, n)) == v % Pow256(n)
    decreases n
  {
    if n > 0 {
      var w := Low(v, n);
      ValueLow(v / 256, n - 1);
      assert w[1..] == Low(v / 256, n - 1);
      SplitMod(v, Pow256(n - 1));
    }
  }

  lemma SplitMod(v: int, p: int)
    requires p >= 1
    ensures v % 256 + 256 * ((v / 256) % p) == v % (256 * p)
  {
    var q, r := v / 256, v % 256;
    var a, b := q / p, q % p;
    assert q == p * a + b;
    assert v == 256 * q + r == 256 * (p * a + b) + r;
    assert 256 * (p * a) == (256 * p) * a;
    assert 0 <= 256 * b + r < 256 * p;
    ModUnique(v, 256 * p, a, 256 * b + r);
  }

  lemma ModUnique(v: int, m: int, a: int, r: int)
    requires m > 0 && v == m * a + r && 0 <= r < m
    ensures v % m == r
  {
    var d := v / m - a;
    assert m * (v / m) + v % m == m * a + r;
    assert m * d == r - v % m by {
      assert m * d == m * (v / m) - m * a;
    }
    Multiple(m, d);
  }

  lemma Multiple(m: int, d: int)
    requires m > 0
    ensures (d >= 1 ==> m * d >= m) && (d <= -1 ==> m * d <= -m)
  {
    if d >= 1 {
      assert m * (d - 1) >= 0;
    } else if d <= -1 {
      assert m * (-1 - d) >= 0;
    }
  }

  // ---------- What the code computes ----------

  /** `data & bit_mask`: the bytes that the mask does not select become zero. */
  function Select(w: Word, mask: Mask): (r: Word) {
    seq(8, i requires 0 <= i < 8 => if mask[i] then w[i] else 0)
  }

  /** The position of the mask's lowest set bit. */
  function Lowest(mask: seq<bool>): (k: nat)
    ensures k <= |mask|
    ensures forall i :: 0 <= i < k ==> !mask[i]
    ensures k < |mask| ==> mask[k]
  {
    if mask == [] || mask[0] then 0 else 1 + Lowest(mask[1..])
  }

  /** An operand: the selected bytes shifted down to the lowest of them. */
  function Operand(w: Word, mask: Mask): nat {
    Value(Select(w, mask)[Lowest(mask)..])
  }

  /** The mask read as a number, bit `i` for byte `i`. */
  function MaskInt(mask: seq<bool>): nat {
    if mask == [] then 0 else (if mask[0] then 1 else 0) + 2 * MaskInt(mask[1..])
  }

  function Ones(mask: seq<bool>): nat {
    if mask == [] then 0 else (if mask[0] then 1 else 0) + Ones(mask[1..])
  }

  /** How many bits of a number are set. */
  function SetBits(mask: nat): nat
    decreases mask
  {
    if mask == 0 then 0 else mask % 2 + SetBits(mask / 2)
  }

  /** The loop of `_arithmetic_op` that sizes the operands. */
  method SizeOp(mask: nat) returns (size: nat)
    ensures size == 8 * SetBits(mask)
  {
    size := 0;
    var m := mask;
    while m >= 1
      invariant size + 8 * SetBits(m) == 8 * SetBits(mask)
      decreases m
    {
      if m % 2 != 0 {
        size := size + 8;
      }
      m := m / 2;
    }
  }

  lemma {:induction false} SetBitsOnes(mask: seq<bool>)
    ensures SetBits(MaskInt(mask)) == Ones(mask)
    decreases |mask|
  {
    if mask != [] {
      SetBitsOnes(mask[1..]);
    }
  }

  /** An operand of `n` bytes read as signed, as the code does it: minus its complement when the top bit is set. */
  function Signed(v: nat, n: nat): int {
    if n > 0 && (v / (Pow256(n) / 2)) % 2 == 1 then -((0 - v as int) % Pow256(n)) else v
  }

  /** `_arithmetic_op`. MINU and MAXU keep 64 bits of each operand, which is all of it. */
  function ArithmeticOp(param: Arith, x: nat, y: nat, n: nat): int {
    var ux, uy := x % Pow256(8), y % Pow256(8);
    match param
    case MIN => if Signed(x, n) <= Signed(y, n) then Signed(x, n) else Signed(y, n)
    case MAX => if Signed(x, n) >= Signed(y, n) then Signed(x, n) else Signed(y, n)
    case MINU => if ux <= uy then ux else uy
    case MAXU => if ux >= uy then ux else uy
    case ADD => Signed(x, n) + Signed(y, n)
  }

  /** The word that replaces `was`: the shifted result where the mask selects, the old bytes elsewhere. */
  function Result(param: Arith, was: Word, mask: Mask, data: Word): (r: Word) {
    var k := Lowest(mask);
    var v := ArithmeticOp(param, Operand(data, mask), Operand(was, mask), SetBits(MaskInt(mask)));
    var shifted: Word := seq(k, i => 0) + Low(v, 8 - k);
    Masked(was, mask, shifted)
  }

  /** The ArithmeticData handler on a TIP block; the lane of the returned old value is not modelled. */
  function OnArithmetic(m: Manager, source: int, size: nat, addr: int, param: Arith, mask: Mask, data: Word): Option<Manager> {
    var b := BlockOf(addr);
    var m1 := m.(perm := m.perm[b := PermOf(m, b)]);
    if !Clear(m.aBurst, source) || BurstLen(size) != 1 || PermOf(m, b) != TIP then None
    else
      var a := Nth(WordOf(addr), Beat(m.aBurst, source));
      Some(m1.(mem := m.mem[a := Result(param, At(m.mem, a), mask, data)]))
  }

  // ---------- What it is on the lane ----------

  /** Two's complement of `n` bytes. */
  function TwosComplement(v: nat, n: nat): int {
    if 2 * v < Pow256(n) then v else v - Pow256(n)
  }

  /** The atomic operation on a lane of `n` bytes (RISC-V Unprivileged ISA 20191213, section 8.4). */
  function LaneOp(param: Arith, x: nat, y: nat, n: nat): int {
    match param
    case MIN => if TwosComplement(x, n) <= TwosComplement(y, n) then x else y
    case MAX => if TwosComplement(x, n) >= TwosComplement(y, n) then x else y
    case MINU => if x <= y then x else y
    case MAXU => if x >= y then x else y
    case ADD => (x + y) % Pow256(n)
  }

  /** The mask selects exactly the `n` bytes from byte `k` on. */
  predicate Contiguous(mask: Mask, k: nat, n: nat) {
    0 < n && k + n <= 8 && forall i :: 0 <= i < 8 ==> mask[i] == (k <= i < k + n)
  }

  function Lane(w: Word, k: nat, n: nat): bytes
    requires k + n <= 8
  {
    w[k..k + n]
  }

  lemma {:induction false} LowestIs(mask: seq<bool>, k: nat)
    requires k < |mask| && mask[k] && forall i :: 0 <= i < k ==> !mask[i]
    ensures Lowest(mask) == k
    decreases k
  {
    if k > 0 {
      assert forall i :: 0 <= i < k - 1 ==> mask[1..][i] == mask[i + 1];
      LowestIs(mask[1..], k - 1);
    }
  }

  lemma {:induction false} OnesAt(mask: seq<bool>, k: nat, n: nat)
    requires k + n <= |mask| && forall i :: 0 <= i < |mask| ==> mask[i] == (k <= i < k + n)
    ensures Ones(mask) == n
    decreases |mask|
  {
    if mask != [] {
      assert forall i :: 0 <= i < |mask[1..]| ==> mask[1..][i] == mask[i + 1];
      if k > 0 {
        OnesAt(mask[1..], k - 1, n);
      } else if n > 0 {
        OnesAt(mask[1..], 0, n - 1);
      } else {
        OnesAt(mask[1..], 0, 0);
      }
    }
  }

  /** Zero bytes at the top do not change a value. */
  lemma {:induction false} ZerosOnTop(w: bytes, n: nat)
    requires n <= |w| && forall i :: n <= i < |w| ==> w[i] == 0
    ensures Value(w) == Value(w[..n])
    decreases |w|
  {
    if w != [] {
      if n > 0 {
        ZerosOnTop(w[1..], n - 1);
        assert w[..n][1..] == w[1..][..n - 1];
      } else {
        ZerosOnTop(w[1..], 0);
        assert w[1..][..0] == [] == w[..0];
      }
    }
  }

  /** The operands are the lane's bytes. */
  lemma OperandIs(w: Word, mask: Mask, k: nat, n: nat)
    requires Contiguous(mask, k, n)
    ensures Lowest(mask) == k && Ones(mask) == n && Operand(w, mask) == Value(Lane(w, k, n))
  {
    LowestIs(mask, k);
    OnesAt(mask, k, n);
    var x := Select(w, mask)[k..];
    ZerosOnTop(x, n);
    assert x[..n] == Lane(w, k, n);
  }

  lemma {:induction false} PowEven(n: nat)
    requires n > 0
    ensures Pow256(n) % 2 == 0 && Pow256(n) >= 256
  {
  }

  /** The code's signed reading is two's complement. */
  lemma SignedIs(v: nat, n: nat)
    requires n > 0 && v < Pow256(n)
    ensures Signed(v, n) == TwosComplement(v, n)
  {
    PowEven(n);
    var p := Pow256(n);
    var h := p / 2;
    assert p == 2 * h;
    if v < h {
      ModUnique(v, h, 0, v);
      assert v / h == 0;
    } else {
      ModUnique(v, h, 1, v - h);
      assert v / h == 1;
      ModUnique(0 - v, p, -1, p - v);
    }
  }

  lemma TwosMod(v: nat, n: nat)
    requires n > 0 && v < Pow256(n)
    ensures TwosComplement(v, n) % Pow256(n) == v
  {
    var p := Pow256(n);
    if 2 * v < p {
      ModUnique(v, p, 0, v);
    } else {
      ModUnique(v - p, p, -1, v);
    }
  }

  /** Modulo the lane, the code's result is the operation's. */
  lemma OpIs(param: Arith, x: nat, y: nat, n: nat)
    requires 0 < n <= 8 && x < Pow256(n) && y < Pow256(n)
    ensures ArithmeticOp(param, x, y, n) % Pow256(n) == LaneOp(param, x, y, n)
  {
    hide Signed, TwosComplement;
    SignedIs(x, n);
    SignedIs(y, n);
    TwosMod(x, n);
    TwosMod(y, n);
    PowGrows(n, 8);
    ModUnique(x, Pow256(8), 0, x);
    ModUnique(y, Pow256(8), 0, y);
    ModUnique(x, Pow256(n), 0, x);
    ModUnique(y, Pow256(n), 0, y);
    if param == ADD {
      SumMod(Signed(x, n), Signed(y, n), Pow256(n));
      SumMod(x, y, Pow256(n));
    }
  }

  lemma {:induction false} PowGrows(n: nat, m: nat)
    requires n <= m
    ensures Pow256(n) <= Pow256(m)
    decreases m
  {
    if n < m {
      PowGrows(n, m - 1);
    }
  }

  lemma SumMod(a: int, b: int, p: int)
    requires p > 0
    ensures (a + b) % p == (a % p + b % p) % p
  {
    var r := a % p + b % p;
    var q := a / p + b / p;
    assert a + b == p * q + r;
    assert r == p * (r / p) + r % p;
    assert p * q + p * (r / p) == p * (q + r / p);
    ModUnique(a + b, p, q + r / p, r % p);
  }

  /** The low bytes of the low bytes. */
  lemma {:induction false} LowPrefix(v: int, n: nat, m: nat)
    requires n <= m
    ensures Low(v, m)[..n] == Low(v, n)
    decreases n
  {
    if n > 0 {
      LowPrefix(v / 256, n - 1, m - 1);
      assert Low(v, m)[..n] == [v % 256] + Low(v / 256, m - 1)[..n - 1];
    }
  }

  /**
   For every contiguous mask the atomic operation replaces exactly the selected lane, by the
   signed or unsigned minimum or maximum or the modular sum at the lane's width.
   */
  lemma AtomicOnLane(param: Arith, was: Word, mask: Mask, data: Word, k: nat, n: nat)
    requires Contiguous(mask, k, n)
    ensures var r := Result(param, was, mask, data);
      && r[..k] == was[..k] && r[k + n..] == was[k + n..]
      && Value(Lane(r, k, n)) == LaneOp(param, Value(Lane(data, k, n)), Value(Lane(was, k, n)), n)
  {
    hide ArithmeticOp, LaneOp, Operand, Pow256, Value;
    OperandIs(data, mask, k, n);
    OperandIs(was, mask, k, n);
    SetBitsOnes(mask);
    var x, y := Value(Lane(data, k, n)), Value(Lane(was, k, n));
    ValueBound(Lane(data, k, n));
    ValueBound(Lane(was, k, n));
    OpIs(param, x, y, n);
    var v := ArithmeticOp(param, x, y, n);
    LowPrefix(v, n, 8 - k);
    LaneReplaced(was, mask, Low(v, 8 - k), k, n);
    ValueLow(v, n);
  }

  /** Bytes shifted to the lane replace it. */
  lemma LaneReplaced(was: Word, mask: Mask, low: bytes, k: nat, n: nat)
    requires Contiguous(mask, k, n) && |low| == 8 - k
    ensures var r := Masked(was, mask, seq(k, i => 0) + low);
      r[..k] == was[..k] && r[k + n..] == was[k + n..] && Lane(r, k, n) == low[..n]
  {
  }

  /** So does the handler, on the word that the message addresses and on no other. */
  lemma ArithmeticInMemory(m: Manager, source: int, size: nat, addr: int, param: Arith, mask: Mask, data: Word, k: nat, n: nat, a: int)
    requires Contiguous(mask, k, n) && size <= 3 && m.aBurst == map[] && PermOf(m, BlockOf(addr)) == TIP
    ensures var r := OnArithmetic(m, source, size, addr, param, mask, data);
      && r.Some?
      && (a != WordOf(addr) ==> At(r.value.mem, a) == At(m.mem, a))
      && var was, now := At(m.mem, WordOf(addr)), At(r.value.mem, WordOf(addr));
         && now[..k] == was[..k] && now[k + n..] == was[k + n..]
         && Value(Lane(now, k, n)) == LaneOp(param, Value(Lane(data, k, n)), Value(Lane(was, k, n)), n)
  {
    hide Result, Value, LaneOp, BlockOf, WordOf, OnArithmetic;
    ArithmeticIs(m, source, size, addr, param, mask, data);
    AtomicOnLane(param, At(m.mem, WordOf(addr)), mask, data, k, n);
  }

  lemma ArithmeticIs(m: Manager, source: int, size: nat, addr: int, param: Arith, mask: Mask, data: Word)
    requires size <= 3 && m.aBurst == map[] && PermOf(m, BlockOf(addr)) == TIP
    ensures var r, a := OnArithmetic(m, source, size, addr, param, mask, data), WordOf(addr);
            r.Some? && r.value.mem == m.mem[a := Result(param, At(m.mem, a), mask, data)]
  {
    hide Result, BlockOf, WordOf;
  }
}
