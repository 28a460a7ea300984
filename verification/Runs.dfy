/** What the invariant of the TileLink system means for its runs. */
module Runs {
  import opened Options
  import opened Bytes
  import opened TileLink
  import opened Client
  import opened Sources
  import opened Invariant
  import opened Coherence

  // ---------- Coherence ----------

  /** TRUNK is recorded for every block the core holds exclusively, and a TIP block is current in memory. */
  lemma CoherentState(s: Sys, w: int)
    requires Inv(s)
    ensures HeldOf(s.c.held, BlockOf(w)) == T ==> PermOf(s.m, BlockOf(w)) == TRUNK
    ensures PermOf(s.m, BlockOf(w)) == TIP ==> At(s.m.mem, w) == At(s.latest, w)
    ensures IsWord(w) && HeldOf(s.c.held, BlockOf(w)) != N ==> At(s.c.cache, w) == At(s.latest, w)
  {
    hide Probing, Sunk, Grants, Marked, Counts, Kept, Stream, Msgs;
    assert PermOf(s.m, BlockOf(w)) == PermIn(s.m.perm, BlockOf(w));
    if PermOf(s.m, BlockOf(w)) == TIP {
      TipQuiet(s, BlockOf(w)) by { hide *; }
      CleanWord(s.m.mem, s.latest, s.c.cache, s.c.dirty, s.c.held, s.c.writing, w);
    }
  }

  /** Coherence in every run. */
  lemma CoherentRuns(mem: map<int, Word>, sources: set<int>, steps: seq<Step>, w: int)
    requires Disciplined(Initial(mem, sources), steps)
    ensures Run(Initial(mem, sources), steps).Some?
    ensures var t := Run(Initial(mem, sources), steps).value;
      && (HeldOf(t.c.held, BlockOf(w)) == T ==> PermOf(t.m, BlockOf(w)) == TRUNK)
      && (PermOf(t.m, BlockOf(w)) == TIP ==> At(t.m.mem, w) == At(t.latest, w))
      && (IsWord(w) && HeldOf(t.c.held, BlockOf(w)) != N ==> At(t.c.cache, w) == At(t.latest, w))
  {
    hide Inv, Disciplined, Run, BlockOf;
    RunsAreSafe(mem, sources, steps);
    CoherentState(Run(Initial(mem, sources), steps).value, w);
  }

  lemma TipCurrent(s: Sys, addr: int, size: nat)
    requires Sound(s) && Aligned(addr, size) && PermOf(s.m, BlockOf(addr)) == TIP
    ensures forall source {:trigger Answer(s.latest, BurstLen(size), WordOf(addr), source)} ::
              Answer(s.m.mem, BurstLen(size), WordOf(addr), source) == Answer(s.latest, BurstLen(size), WordOf(addr), source)
  {
    hide Sound, Aligned, BlockOf, WordOf, BurstLen, Answer;
    TipQuiet(s, BlockOf(addr));
    forall k | 0 <= k < BurstLen(size)
      ensures At(s.m.mem, Nth(WordOf(addr), k)) == At(s.latest, Nth(WordOf(addr), k))
    {
      WordIn(addr, size, k);
      QuietWord(s, Nth(WordOf(addr), k));
    }
    forall source
      ensures Answer(s.m.mem, BurstLen(size), WordOf(addr), source) == Answer(s.latest, BurstLen(size), WordOf(addr), source)
    {
      AnswerSame(s.m.mem, s.latest, BurstLen(size), WordOf(addr), source);
    }
  }

  lemma QuietWord(s: Sys, w: int)
    requires Sound(s) && HeldOf(s.c.held, BlockOf(w)) != T && !FromT(s.c.writing, BlockOf(w))
    ensures w !in s.c.dirty && At(s.m.mem, w) == At(s.latest, w)
  {
    hide Sunk, Grants, Marked, Exclusive, Counts, Kept, Stream, Msgs;
    CleanWord(s.m.mem, s.latest, s.c.cache, s.c.dirty, s.c.held, s.c.writing, w);
  }

  /**
   A Get is answered at once only when the core has nothing newer, and then with the values
   last written; while the core holds T nothing is answered, and a probe of the words asked for
   is wanted behind all others, whose answer will be for this Get and with its words.
   */
  lemma GetIsCurrent(s: Sys, source: int, size: nat, addr: int, pick: int)
    requires Inv(s) && Enabled(s, DoGet(source, size, addr, pick))
    ensures var t := Apply(s, DoGet(source, size, addr, pick));
      && t.Some?
      && (if PermOf(s.m, BlockOf(addr)) == TIP then
            t.value.m.dq == s.m.dq + Answer(s.latest, BurstLen(size), WordOf(addr), source)
          else
            && t.value.m.dq == s.m.dq && |Queue(t.value)| == |Queue(s)| + 1 && Queue(s) <= Queue(t.value)
            && var r := Queue(t.value)[|Queue(s)|];
               && r.addr == addr && r.size == size && r.cap == ToT
               && forall latest :: Served(latest, r.callback) == Answer(latest, BurstLen(size), WordOf(addr), source))
    ensures HeldOf(s.c.held, BlockOf(addr)) == T ==> PermOf(s.m, BlockOf(addr)) != TIP
  {
    hide Probing, Sound, Aligned, BlockOf, WordOf, BurstLen, Answer, Touch, Inv;
    GetKeeps(s, source, size, addr, pick);
    GetSound(s);
    if PermOf(s.m, BlockOf(addr)) == TIP {
      TipCurrent(s, addr, size);
      TipQuiet(s, BlockOf(addr));
    }
  }

  lemma GetSound(s: Sys)
    requires Inv(s)
    ensures Sound(s) && Probing(s, Out(s))
  {
  }

  /** An acquire of a TIP block is granted with the values last written. */
  lemma AcquireIsCurrent(s: Sys, grow: Grow, source: int, addr: int, sink: int, pick: int)
    requires Inv(s) && Enabled(s, DoAcquire(grow, source, addr, sink, pick)) && PermOf(s.m, addr) == TIP
    ensures var t := Apply(s, DoAcquire(grow, source, addr, sink, pick));
      t.Some? && t.value.m.dq == s.m.dq + Grant(s.latest, BEATS, addr, Granted(grow), sink, source)
  {
    hide Probing, Sound, Aligned, BlockOf, WordOf, BurstLen, Grant, Touch, Inv;
    AcquireKeeps(s, grow, source, addr, sink, pick);
    GetSound(s);
    InBlockStart(addr);
    WantingKeeps(s, addr, Granted(grow), sink, Out(s));
    TipQuiet(s, addr);
    GrantSound(Wanting(s, addr, Granted(grow), sink), addr, source);
  }

  /** What the callback of an answered probe queues for the core, with the values last written. */
  function Served(latest: map<int, Word>, cb: Callback): seq<DEntry> {
    match cb
    case AnswerGet(len, addr, source) => Answer(latest, len, addr, source)
    case GrantBlock(cap, sink, len, addr, source) => Grant(latest, len, addr, cap, sink, source)
    case EnableProbe => []
    case ShutdownRest(rest) => []
  }

  /** The words a probe covers are clean when its answer is complete. */
  predicate Covered(s: Sys, r: Probe) {
    forall w :: w in s.c.dirty && BlockOf(w) == BlockOf(r.addr) ==> !InRange(w, r.addr, r.size)
  }

  lemma ServedCurrent(s: Sys, p: int, q: int, out: seq<Probe>)
    requires Probing(s, out) && Sound(s) && out != [] && s.m.drive && s.c.writing.None?
    requires Repicks(s.m, out[0].source, p, q) && Covered(s, out[0])
    ensures Acked(s.m, out[0].source, p, q).Some? && out[0].source in s.m.calls
    ensures Acked(s.m, out[0].source, p, q).value.dq == s.m.dq + Served(s.latest, s.m.calls[out[0].source])
  {
    hide Values, Sunk, Grants, Marked, Exclusive, Counts, Kept, Stream, Msgs, Acked, Books, Fits, Pending, Followed, Covered, Answer, Grant;
    var new_ := AckedBooks(s.m, p, q, out);
    var r := Pending(s.m, out)[0];
    assert Fits(r, s.c.acq, s.m.ongoing, s.listed, s.done);
    match r.callback
    case AnswerGet(len, addr, source) => RangeCurrent(s, r, out[0]);
    case GrantBlock(cap, sink, len, addr, source) => BlockCurrent(s, r);
    case EnableProbe =>
    case ShutdownRest(rest) =>
  }

  lemma RangeCurrent(s: Sys, r: Request, x: Probe)
    requires Sound(s) && Covered(s, x) && r.addr == x.addr && r.size == x.size
    requires r.callback.AnswerGet? && Fits(r, s.c.acq, s.m.ongoing, s.listed, s.done)
    ensures var cb := r.callback; Answer(s.m.mem, cb.len, cb.addr, cb.source) == Answer(s.latest, cb.len, cb.addr, cb.source)
  {
    hide Sound, Answer, BlockOf, WordOf, BurstLen, InRange, Aligned;
    var cb := r.callback;
    forall k | 0 <= k < cb.len
      ensures At(s.m.mem, Nth(cb.addr, k)) == At(s.latest, Nth(cb.addr, k))
    {
      WordIn(r.addr, r.size, k);
      NotDirty(s, Nth(cb.addr, k));
    }
    AnswerSame(s.m.mem, s.latest, cb.len, cb.addr, cb.source);
  }

  lemma NotDirty(s: Sys, w: int)
    requires Sound(s) && w !in s.c.dirty
    ensures At(s.m.mem, w) == At(s.latest, w)
  {
    hide Sunk, Grants, Marked, Exclusive, Counts, Kept, Stream, Msgs;
  }

  lemma BlockCurrent(s: Sys, r: Request)
    requires Sound(s) && s.c.writing.None?
    requires r.callback.GrantBlock? && Fits(r, s.c.acq, s.m.ongoing, s.listed, s.done)
    ensures var cb := r.callback;
            Grant(s.m.mem, cb.len, cb.addr, cb.cap, cb.sink, cb.source) == Grant(s.latest, cb.len, cb.addr, cb.cap, cb.sink, cb.source)
  {
    hide Sound, Grant, PushGrant;
    GrantSound(s, r.callback.addr, r.callback.source);
  }

  lemma ProbeAckIsCurrent(s: Sys, p: int, q: int)
    requires Inv(s) && Enabled(s, DoProbeAck(p, q))
    ensures var t, src := Apply(s, DoProbeAck(p, q)), s.c.probes[0].source;
      t.Some? && src in s.m.calls && t.value.m.dq == s.m.dq + Served(s.latest, s.m.calls[src])
  {
    hide Probing, Sound, BlockOf, Acked, Repicks, Served, InRange;
    var r := s.c.probes[0];
    var b := BlockOf(r.addr);
    var report := Truthful(HeldOf(s.c.held, b), r.cap);
    BlockStart(r.addr);
    NothingLost(s, r, report);
    ReportSound(s, b, report);
    ClearC(s, r.source);
    var s1 := Reporting(s, b, report);
    ProbingSame(s, s1, Out(s));
    RepicksSame(s.m, s1.m, r.source, p, q);
    assert Out(s)[0] == r;
    assert Covered(s1, r);
    ServedCurrent(s1, p, q, Out(s));
  }

  /** The last beat of a probe answered with data: what is read then was just written back. */
  lemma LastBeatIsCurrent(s: Sys, p: int, q: int)
    requires Inv(s) && s.m.drive && s.c.writing.Some? && s.c.writing.value.ack.Some?
    requires var w := s.c.writing.value; w.sent + 1 == BurstLen(w.size) && Repicks(s.m, w.source, p, q)
    ensures var t, src := WriteBeat(s, p, q), s.c.writing.value.source;
      t.Some? && src in s.m.calls && t.value.m.dq == s.m.dq + Served(s.latest, s.m.calls[src])
  {
    hide Probing, Sound, BlockOf, WordOf, Acked, Repicks, BurstLen, Counted, Clear, Served, WriteBeat;
    var w, out := s.c.writing.value, Out(s);
    AckSource(s);
    WrittenSound(s);
    var s1 := Written(s);
    ProbingSame(s, s1, out);
    BeatIs(s, p, q);
    OutFirst(s);
    RepicksSame(s.m, s1.m, w.source, p, q);
    LastCovered(s);
    ServedCurrent(s1, p, q, out);
  }

  lemma OneBeatIsCurrent(s: Sys, p: int, q: int)
    requires Inv(s) && Enabled(s, DoProbeData(p, q)) && BurstLen(s.c.probes[0].size) == 1
    ensures var t, src := Apply(s, DoProbeData(p, q)), s.c.probes[0].source;
      t.Some? && src in s.m.calls && t.value.m.dq == s.m.dq + Served(s.latest, s.m.calls[src])
  {
    hide Probing, Sound, BlockOf, CoveredBy, WriteBeat, Aligned, Repicks, BurstLen, Served;
    var t := Began(s, p, q);
    LastBeatIsCurrent(t, p, q);
  }

  /**
   A Get or an acquire that had to wait for a probe is answered, once the probe is, with the
   values last written: nothing the core modified is missed.
   */
  lemma AnswerIsCurrent(s: Sys, step: Step)
    requires Inv(s) && Enabled(s, step) && Answers(s, step)
    ensures Out(s) != [] && Out(s)[0].source in s.m.calls
    ensures Apply(s, step).Some?
    ensures Apply(s, step).value.m.dq == s.m.dq + Served(s.latest, s.m.calls[Out(s)[0].source])
  {
    hide Inv, Served, WriteBeat;
    match step
    case DoProbeAck(p, q) => ProbeAckIsCurrent(s, p, q);
    case DoProbeData(p, q) => OneBeatIsCurrent(s, p, q);
    case DoBeat(p, q) =>
      GetSound(s);
      AckSource(s);
      LastBeatIsCurrent(s, p, q);
    case _ =>
  }

  /** Before the last beat only its own word is still to be written back. */
  lemma OneLeft(s: Sys, x: int)
    requires Sound(s) && s.c.writing.Some?
    requires var w := s.c.writing.value; w.sent + 1 == BurstLen(w.size) && x in s.c.dirty && InRange(x, w.addr, w.size)
    ensures x == Nth(WordOf(s.c.writing.value.addr), s.c.writing.value.sent)
  {
    hide Sunk, Grants, Marked, Exclusive, Counts, Kept, Stream, Msgs, BlockOf, BurstLen;
    var w := s.c.writing.value;
    assert !Before(w, x);
    WordMultiple(Quot(w.addr, 8));
    if x != Nth(WordOf(w.addr), w.sent) {
      Beyond(WordOf(w.addr), x, w.sent, BurstLen(w.size));
    }
  }

  lemma LastCovered(s: Sys)
    requires Sound(s) && s.c.writing.Some? && s.c.writing.value.ack.Some?
    requires s.c.writing.value.sent + 1 == BurstLen(s.c.writing.value.size)
    ensures Covered(Written(s), s.c.writing.value.ack.value)
  {
    hide Sound, Stored, Counted, Reported, BlockOf, WordOf, BurstLen, InRange, Nth;
    AckSource(s);
    var w := s.c.writing.value;
    forall x | x in Written(s).c.dirty && InRange(x, w.addr, w.size)
      ensures false
    {
      OneLeft(s, x);
    }
  }
}
