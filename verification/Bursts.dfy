/** Complete bursts on the TileLink adapter: what a Put, a release and a Get of several beats do. */
module Bursts {
  import opened Options
  import opened Bytes
  import opened TileLink

  /** The beats of a Put, one after the other. */
  function PutBeats(m: Manager, source: int, size: nat, addr: int, masks: seq<Mask>, data: seq<Word>): Option<Manager>
    requires |masks| == |data|
    decreases |data|
  {
    if data == [] then Some(m)
    else
      match OnPut(m, source, size, addr, masks[0], data[0])
      case None => None
      case Some(n) => PutBeats(n, source, size, addr, masks[1..], data[1..])
  }

  /** The counter of a burst of which `k` beats have come. */
  function Counter(source: int, k: nat): map<int, nat> {
    if k == 0 then map[] else map[source := k]
  }

  /** Address `a` is that of beat `i` of a burst that stands at `start` and has `n` beats. */
  predicate BeatAt(start: int, n: nat, a: int, i: nat) {
    i < n && a == Nth(start, i)
  }

  /** No beat of the burst has this address. */
  ghost predicate Outside(start: int, n: nat, a: int) {
    forall i: nat :: !BeatAt(start, n, a, i)
  }

  /** `after` is `before` with the selected bytes of each beat replaced, and nothing else changed. */
  ghost predicate Overlaid(before: map<int, Word>, after: map<int, Word>, start: int, masks: seq<Mask>, data: seq<Word>)
    requires |masks| == |data|
  {
    && (forall i {:trigger masks[i]} {:trigger data[i]} :: 0 <= i < |data| ==>
          At(after, Nth(start, i)) == Masked(At(before, Nth(start, i)), masks[i], data[i]))
    && (forall a {:trigger At(after, a)} :: Outside(start, |data|, a) ==> At(after, a) == At(before, a))
  }

  lemma NthNext(a: int, k: int)
    ensures Nth(Nth(a, k), 1) == Nth(a, k + 1)
  {
  }

  /** One beat of a Put. */
  lemma PutOne(m: Manager, source: int, size: nat, addr: int, mask: Mask, data: Word, k: nat)
    requires k < BurstLen(size) && m.aBurst == Counter(source, k) && PermOf(m, BlockOf(addr)) == TIP
    ensures var r, last, a := OnPut(m, source, size, addr, mask, data), k + 1 == BurstLen(size), Nth(WordOf(addr), k);
      && r.Some? && r.value.mem == m.mem[a := Masked(At(m.mem, a), mask, data)]
      && r.value.aBurst == (if last then map[] else Counter(source, k + 1))
      && r.value.dq == m.dq + (if last then [DEntry(AccessAck(source), None)] else [])
      && PermOf(r.value, BlockOf(addr)) == TIP
      && r.value.cBurst == m.cBurst && r.value.calls == m.calls && r.value.bq == m.bq
  {
    hide BlockOf, WordOf, BurstLen, Masked;
  }

  /** The beats from the `k`-th on. */
  lemma {:induction false} PutRest(m: Manager, source: int, size: nat, addr: int, masks: seq<Mask>, data: seq<Word>, k: nat)
    requires |masks| == |data| && k + |data| == BurstLen(size) && 0 < |data|
    requires PermOf(m, BlockOf(addr)) == TIP && m.aBurst == Counter(source, k)
    ensures var r := PutBeats(m, source, size, addr, masks, data);
      && r.Some? && r.value.aBurst == map[] && PermOf(r.value, BlockOf(addr)) == TIP
      && r.value.dq == m.dq + [DEntry(AccessAck(source), None)]
      && r.value.cBurst == m.cBurst && r.value.calls == m.calls && r.value.bq == m.bq
      && Overlaid(m.mem, r.value.mem, Nth(WordOf(addr), k), masks, data)
    decreases |data|
  {
    hide BlockOf, WordOf, BurstLen, Masked, OnPut, Overlaid, Nth;
    var start := Nth(WordOf(addr), k);
    PutOne(m, source, size, addr, masks[0], data[0], k);
    var n := OnPut(m, source, size, addr, masks[0], data[0]).value;
    NthNext(WordOf(addr), k);
    if |data| > 1 {
      PutRest(n, source, size, addr, masks[1..], data[1..], k + 1);
      var r := PutBeats(m, source, size, addr, masks, data).value;
      OverlaidMore(m.mem, n.mem, r.mem, start, masks, data);
    } else {
      OneBeat(m.mem, n.mem, start, masks, data);
      assert masks[1..] == [] && data[1..] == [];
    }
  }

  lemma OneBeat(before: map<int, Word>, after: map<int, Word>, start: int, masks: seq<Mask>, data: seq<Word>)
    requires |masks| == |data| == 1 && after == before[start := Masked(At(before, start), masks[0], data[0])]
    ensures Overlaid(before, after, start, masks, data)
  {
    hide Masked;
    assert BeatAt(start, 1, start, 0);
  }

  /** The first beat is none of the later ones, and what is outside the burst is outside these. */
  lemma OutsideRest(start: int, n: nat, rest: int, k: nat)
    requires rest == Nth(start, 1) && k + 1 == n
    ensures Outside(rest, k, start)
    ensures forall a {:trigger Outside(start, n, a)} :: Outside(start, n, a) ==> Outside(rest, k, a) && a != start
  {
    forall a | Outside(start, n, a)
      ensures Outside(rest, k, a) && a != start
    {
      assert !BeatAt(start, n, a, 0);
      forall j: nat
        ensures !BeatAt(rest, k, a, j)
      {
        assert !BeatAt(start, n, a, j + 1);
      }
    }
  }

  lemma OverlaidMore(before: map<int, Word>, mid: map<int, Word>, after: map<int, Word>, start: int, masks: seq<Mask>, data: seq<Word>)
    requires |masks| == |data| > 1 && mid == before[start := Masked(At(before, start), masks[0], data[0])]
    requires Overlaid(mid, after, Nth(start, 1), masks[1..], data[1..])
    ensures Overlaid(before, after, start, masks, data)
  {
    hide Masked, Outside;
    var n := |data|;
    OutsideRest(start, n, Nth(start, 1), n - 1);
    forall i | 0 <= i < n
      ensures At(after, Nth(start, i)) == Masked(At(before, Nth(start, i)), masks[i], data[i])
    {
      if i == 0 {
        assert At(after, start) == At(mid, start);
      } else {
        assert masks[1..][i - 1] == masks[i] && data[1..][i - 1] == data[i];
        assert Nth(Nth(start, 1), i - 1) == Nth(start, i);
      }
    }
    forall a | Outside(start, n, a)
      ensures At(after, a) == At(before, a)
    {
      assert At(after, a) == At(mid, a);
    }
  }

  /**
   A complete Put burst on a TIP block: memory is the old one with exactly the selected bytes
   of each beat replaced, one acknowledgement is queued, and no state of the burst is left.
   */
  lemma PutBurst(m: Manager, source: int, size: nat, addr: int, masks: seq<Mask>, data: seq<Word>)
    requires |masks| == |data| == BurstLen(size) && PermOf(m, BlockOf(addr)) == TIP && m.aBurst == map[]
    ensures var r := PutBeats(m, source, size, addr, masks, data);
      && r.Some? && r.value.aBurst == map[] && PermOf(r.value, BlockOf(addr)) == TIP
      && r.value.dq == m.dq + [DEntry(AccessAck(source), None)]
      && Overlaid(m.mem, r.value.mem, WordOf(addr), masks, data)
  {
    hide BlockOf, WordOf, Overlaid;
    PutRest(m, source, size, addr, masks, data, 0);
    assert Nth(WordOf(addr), 0) == WordOf(addr);
  }

  /** A Get burst of the same words then queues them in order, with nothing between them. */
  lemma GetAfterPut(m: Manager, source: int, size: nat, addr: int, masks: seq<Mask>, data: seq<Word>, reader: int, pick: int)
    requires |masks| == |data| == BurstLen(size) && PermOf(m, BlockOf(addr)) == TIP && m.aBurst == map[]
    ensures var r := PutBeats(m, source, size, addr, masks, data);
      && r.Some?
      && var g := OnGet(r.value, reader, size, addr, pick);
         && g.Some?
         && g.value.dq == m.dq + [DEntry(AccessAck(source), None)] +
              seq(|data|, i requires 0 <= i < |data| =>
                DEntry(AccessAckData(reader, Masked(At(m.mem, Nth(WordOf(addr), i)), masks[i], data[i])), None))
  {
    hide BlockOf, WordOf, BurstLen, Masked, Touch;
    PutBurst(m, source, size, addr, masks, data);
    var n := PutBeats(m, source, size, addr, masks, data).value;
    var q := seq(|data|, i requires 0 <= i < |data| =>
                DEntry(AccessAckData(reader, Masked(At(m.mem, Nth(WordOf(addr), i)), masks[i], data[i])), None));
    var x := Answer(n.mem, |data|, WordOf(addr), reader);
    forall i | 0 <= i < |data|
      ensures x[i] == q[i]
    {
      assert At(n.mem, Nth(WordOf(addr), i)) == Masked(At(m.mem, Nth(WordOf(addr), i)), masks[i], data[i]);
    }
    assert x == q;
    assert OnGet(n, reader, size, addr, pick).value.dq == n.dq + x;
  }

  /** The beats of a release with data, one after the other. */
  function ReleaseBeats(m: Manager, source: int, size: nat, addr: int, report: Report, data: seq<Word>): Option<Manager>
    decreases |data|
  {
    if data == [] then Some(m)
    else
      match OnReleaseData(m, source, size, addr, report, data[0])
      case None => None
      case Some(n) => ReleaseBeats(n, source, size, addr, report, data[1..])
  }

  const WHOLE: Mask := [true, true, true, true, true, true, true, true]

  lemma WholeWord(was: Word, data: Word)
    ensures Masked(was, WHOLE, data) == data
  {
  }

  /** One beat of a release. */
  lemma ReleaseOne(m: Manager, source: int, size: nat, addr: int, report: Report, data: Word, k: nat)
    requires k < BurstLen(size) && m.cBurst == Counter(source, k)
    ensures var r, last := OnReleaseData(m, source, size, addr, report, data), k + 1 == BurstLen(size);
      && r.Some? && r.value.mem == m.mem[Nth(WordOf(addr), k) := data] && r.value.aBurst == m.aBurst
      && r.value.cBurst == (if last then map[] else Counter(source, k + 1))
      && r.value.dq == m.dq + (if last then [DEntry(ReleaseAck(source), None)] else [])
      && r.value.perm == (if last && (report == TtoB || report == TtoN) then m.perm[BlockOf(addr) := TIP] else m.perm)
  {
    hide BlockOf, WordOf, BurstLen, Counted, Clear, Nth;
    CountedOn(m.cBurst, source, BurstLen(size), k);
  }

  lemma CountedOn(burst: map<int, nat>, source: int, len: nat, k: nat)
    requires k < len && burst == Counter(source, k)
    ensures Clear(burst, source) && Beat(burst, source) == k
    ensures Counted(burst, source, len) == if k + 1 == len then map[] else Counter(source, k + 1)
  {
  }

  lemma {:induction false} ReleaseRest(m: Manager, source: int, size: nat, addr: int, report: Report, data: seq<Word>, k: nat)
    requires k + |data| == BurstLen(size) && 0 < |data| && m.cBurst == Counter(source, k)
    ensures var r := ReleaseBeats(m, source, size, addr, report, data);
      && r.Some? && r.value.cBurst == map[] && r.value.aBurst == m.aBurst
      && r.value.dq == m.dq + [DEntry(ReleaseAck(source), None)]
      && r.value.perm == (if report == TtoB || report == TtoN then m.perm[BlockOf(addr) := TIP] else m.perm)
      && Overlaid(m.mem, r.value.mem, Nth(WordOf(addr), k), seq(|data|, i => WHOLE), data)
    decreases |data|
  {
    hide BlockOf, WordOf, BurstLen, Masked, OnReleaseData, Overlaid, Nth;
    var start := Nth(WordOf(addr), k);
    var masks := seq(|data|, i => WHOLE);
    ReleaseOne(m, source, size, addr, report, data[0], k);
    var n := OnReleaseData(m, source, size, addr, report, data[0]).value;
    WholeWord(At(m.mem, start), data[0]);
    NthNext(WordOf(addr), k);
    if |data| > 1 {
      ReleaseRest(n, source, size, addr, report, data[1..], k + 1);
      var r := ReleaseBeats(m, source, size, addr, report, data).value;
      assert masks[1..] == seq(|data[1..]|, i => WHOLE);
      OverlaidMore(m.mem, n.mem, r.mem, start, masks, data);
    } else {
      OneBeat(m.mem, n.mem, start, masks, data);
      assert data[1..] == [];
    }
  }

  /**
   A complete release burst: memory holds the whole words of each beat and is otherwise
   unchanged, the permission given up is recorded, one acknowledgement is queued and no state
   of the burst is left.
   */
  lemma ReleaseBurst(m: Manager, source: int, size: nat, addr: int, report: Report, data: seq<Word>)
    requires |data| == BurstLen(size) && m.cBurst == map[]
    ensures var r := ReleaseBeats(m, source, size, addr, report, data);
      && r.Some? && r.value.cBurst == map[]
      && r.value.dq == m.dq + [DEntry(ReleaseAck(source), None)]
      && r.value.perm == (if report == TtoB || report == TtoN then m.perm[BlockOf(addr) := TIP] else m.perm)
      && (forall i :: 0 <= i < |data| ==> At(r.value.mem, Nth(WordOf(addr), i)) == data[i])
      && (forall a {:trigger At(r.value.mem, a)} :: Outside(WordOf(addr), |data|, a) ==> At(r.value.mem, a) == At(m.mem, a))
  {
    hide BlockOf, WordOf, BurstLen, Masked;
    ReleaseRest(m, source, size, addr, report, data, 0);
    assert Nth(WordOf(addr), 0) == WordOf(addr);
    var r := ReleaseBeats(m, source, size, addr, report, data).value;
    var masks := seq(|data|, i => WHOLE);
    forall i | 0 <= i < |data|
      ensures At(r.mem, Nth(WordOf(addr), i)) == data[i]
    {
      assert masks[i] == WHOLE;
      WholeWord(At(m.mem, Nth(WordOf(addr), i)), data[i]);
    }
  }
}
