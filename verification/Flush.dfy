/**
 The shutdown of the TileLink adapter: it ends if every probe is answered, every listed
 block has been probed and answered by then, and the memory then holds the last values.
 */
module Flush {
  import opened Options
  import opened Bytes
  import opened TileLink
  import opened Client
  import opened Sources
  import opened Invariant
  import opened Coherence
  import opened Runs
  import opened FreeLists

  // ---------- What is flushed ----------

  /** A listed block whose probe has not been answered. */
  ghost predicate Left(s: Sys, b: int) {
    s.listed.Some? && exists i :: |s.done| <= i < |s.listed.value| && s.listed.value[i] == b
  }

  /** The core acquires nothing any more, and what it holds exclusively is still to be probed. */
  ghost predicate Draining(s: Sys) {
    && s.listed.Some? && s.c.acq == map[]
    && (forall b {:trigger HeldOf(s.c.held, b)} {:trigger FromT(s.c.writing, b)} ::
          HeldOf(s.c.held, b) == T || FromT(s.c.writing, b) ==> Left(s, b))
    && Yielded(s)
  }

  /** A probe of the shutdown that is being answered with data leaves the core without T. */
  ghost predicate Yielded(s: Sys) {
    s.c.writing.Some? && s.c.writing.value.ack.Some? && Queue(s) != [] && Queue(s)[0].callback.ShutdownRest? ==>
      HeldOf(s.c.held, BlockOf(s.c.writing.value.addr)) != T
  }

  /** Holding no more than before, with as much left to probe, is still draining. */
  lemma DrainsOn(s: Sys, t: Sys)
    requires Draining(s) && t.listed == s.listed && t.done == s.done && t.c.acq == s.c.acq
    requires forall b {:trigger HeldOf(t.c.held, b)} {:trigger FromT(t.c.writing, b)} ::
               HeldOf(t.c.held, b) == T || FromT(t.c.writing, b) ==> HeldOf(s.c.held, b) == T || FromT(s.c.writing, b)
    requires Yielded(t)
    ensures Draining(t)
  {
    hide FromT, HeldOf, BlockOf, Yielded;
    forall b | HeldOf(t.c.held, b) == T || FromT(t.c.writing, b)
      ensures Left(t, b)
    {
      assert Left(s, b);
    }
  }

  /** The order of the requests keeps the oldest one in its place. */
  lemma YieldsOn(s: Sys, t: Sys)
    requires Yielded(s) && InOrder(s, t, false) && (t.c.writing.Some? && t.c.writing.value.ack.Some? ==>
               && s.c.writing.Some? && s.c.writing.value.ack.Some? && Queue(s) != []
               && t.c.writing.value.addr == s.c.writing.value.addr
               && (HeldOf(t.c.held, BlockOf(t.c.writing.value.addr)) == T ==> HeldOf(s.c.held, BlockOf(s.c.writing.value.addr)) == T))
    ensures Yielded(t)
  {
    hide Queue, HeldOf, BlockOf;
  }

  lemma AckPending(s: Sys)
    requires Inv(s) && s.c.writing.Some? && s.c.writing.value.ack.Some?
    ensures Queue(s) != [] && Out(s) != [] && Out(s)[0] == s.c.writing.value.ack.value
    ensures Out(s)[0].source in s.m.calls && Queue(s)[0].callback == s.m.calls[Out(s)[0].source]
  {
    hide Sound;
    OutFirst(s);
    AnsweredBooks(s.m, Out(s)) by { hide *; OldestBooks(s); }
  }

  /** The block at the head of what is left was given up. */
  lemma DrainsOne(s: Sys, t: Sys, a: int)
    requires Draining(s) && t.listed == s.listed && t.done == s.done + [a] && t.c.acq == s.c.acq && t.c.writing.None?
    requires |s.done| < |s.listed.value| && s.listed.value[|s.done|] == a && HeldOf(t.c.held, a) != T
    requires forall b {:trigger HeldOf(t.c.held, b)} :: HeldOf(t.c.held, b) == T ==> HeldOf(s.c.held, b) == T
    ensures Draining(t)
  {
    hide HeldOf, Queue;
    forall b | HeldOf(t.c.held, b) == T
      ensures Left(t, b)
    {
      var i :| |s.done| <= i < |s.listed.value| && s.listed.value[i] == b;
      assert |t.done| <= i;
    }
  }

  /** What the oldest outstanding probe is for, if it belongs to the shutdown. */
  lemma OldestListed(s: Sys)
    requires Inv(s) && Out(s) != []
    ensures Out(s)[0].source in s.m.calls && Queue(s) != [] && Queue(s)[0].callback == s.m.calls[Out(s)[0].source]
    ensures ForShutdown(s.m, Out(s)[0].source) ==>
      var r := Out(s)[0];
      && r.cap == ToN && r.size == 6 && IsBlock(r.addr) && BlockOf(r.addr) == r.addr
      && s.listed.Some? && |s.done| < |s.listed.value| && s.listed.value[|s.done|] == r.addr
  {
    hide Sound, Books;
    AnsweredBooks(s.m, Out(s)) by { hide *; OldestBooks(s); }
    var r := Queue(s)[0];
    assert Fits(r, s.c.acq, s.m.ongoing, s.listed, s.done);
    if ForShutdown(s.m, Out(s)[0].source) {
      InBlockStart(r.addr);
      assert s.listed.value == s.done + ([r.addr] + r.callback.rest);
    }
  }

  lemma OldestBooks(s: Sys)
    requires Inv(s)
    ensures Books(s.m, Out(s))
  {
  }

  /** A beat of data while draining. */
  lemma DrainBeat(s: Sys, p: int, q: int)
    requires Inv(s) && Draining(s) && s.c.writing.Some? && s.m.drive
    requires s.c.writing.value.ack.Some? ==> Repicks(s.m, s.c.writing.value.source, p, q)
    ensures WriteBeat(s, p, q).Some? && Draining(WriteBeat(s, p, q).value)
  {
    hide Inv, HeldOf, BlockOf, WordOf, BurstLen, OnProbeAckData, OnReleaseData, InOrder, Left, Draining, Queue, Yielded;
    BeatKeeps(s, p, q);
    var t, w := WriteBeat(s, p, q).value, s.c.writing.value;
    DrainingParts(s);
    if w.ack.Some? {
      AckPending(s);
      GetSound(s);
      AckSource(s);
      OldestListed(s);
    }
    if w.sent + 1 == BurstLen(w.size) {
      NoneYields(t);
      if w.ack.Some? && ForShutdown(s.m, w.source) {
        YieldedNow(s);
        DrainsOne(s, t, w.addr);
      } else {
        DrainsOn(s, t);
      }
    } else {
      YieldsOn(s, t);
      DrainsOn(s, t);
    }
  }

  lemma NoneYields(s: Sys)
    requires s.c.writing.None?
    ensures Yielded(s)
  {
  }

  lemma YieldedNow(s: Sys)
    requires Yielded(s) && s.c.writing.Some? && s.c.writing.value.ack.Some? && Queue(s) != [] && Queue(s)[0].callback.ShutdownRest?
    ensures HeldOf(s.c.held, BlockOf(s.c.writing.value.addr)) != T
  {
  }

  lemma DrainingParts(s: Sys)
    requires Draining(s)
    ensures s.c.acq == map[] && s.listed.Some? && Yielded(s)
  {
  }

  lemma AfterLess(held: map<int, Held>, b: int, report: Report, d: int)
    requires Truth(HeldOf(held, b), report)
    ensures HeldOf(held[b := After(report)], d) == T ==> HeldOf(held, d) == T
    ensures report !in {TtoT} ==> HeldOf(held[b := After(report)], b) != T
  {
  }

  lemma DrainAck(s: Sys, p: int, q: int)
    requires Inv(s) && Draining(s) && Enabled(s, DoProbeAck(p, q))
    ensures Apply(s, DoProbeAck(p, q)).Some? && Draining(Apply(s, DoProbeAck(p, q)).value)
  {
    hide Inv, HeldOf, BlockOf, OnProbeAck, InOrder, Left, Draining, CleanFor, Repicks, Queue;
    ProbeAckKeeps(s, p, q);
    var t, r := Apply(s, DoProbeAck(p, q)).value, s.c.probes[0];
    var b := BlockOf(r.addr);
    var report := Truthful(HeldOf(s.c.held, b), r.cap);
    TruthfulTruth(HeldOf(s.c.held, b), r.cap);
    forall d
      ensures HeldOf(t.c.held, d) == T ==> HeldOf(s.c.held, d) == T
    {
      AfterLess(s.c.held, b, report, d);
    }
    DrainingParts(s);
    assert Out(s)[0] == r;
    OldestListed(s);
    if ForShutdown(s.m, r.source) {
      AfterLess(s.c.held, b, report, b);
      DrainsOne(s, t, r.addr);
    } else {
      NoneYields(t);
      DrainsOn(s, t);
    }
  }

  /** Beginning to give up a block with data. */
  lemma DrainBegin(s: Sys, t: Sys, ack: Option<Probe>, source: int, addr: int, size: nat, report: Report)
    requires Draining(s) && s.c.writing.None? && Truth(HeldOf(s.c.held, BlockOf(addr)), report)
    requires ack.Some? && Queue(t) != [] && Queue(t)[0].callback.ShutdownRest? ==> report != TtoT
    requires t == Beginning(s, ack, source, addr, size, report).(c := t.c)
    requires t.c == Beginning(s, ack, source, addr, size, report).c.(probes := t.c.probes)
    ensures Draining(t)
  {
    hide HeldOf, BlockOf, Left, Draining, Queue;
    var b := BlockOf(addr);
    DrainingParts(s);
    AfterLess(s.c.held, b, report, b);
    forall d
      ensures HeldOf(t.c.held, d) == T || FromT(t.c.writing, d) ==> HeldOf(s.c.held, d) == T
    {
      AfterLess(s.c.held, b, report, d);
    }
    DrainsOn(s, t);
  }

  lemma DrainReleaseData(s: Sys, source: int, block: int, report: Report)
    requires Inv(s) && Draining(s) && Enabled(s, DoReleaseData(source, block, report))
    ensures Apply(s, DoReleaseData(source, block, report)).Some?
    ensures Draining(Apply(s, DoReleaseData(source, block, report)).value)
  {
    hide Inv, Draining, HeldOf, BlockOf, WriteBeat, Queue;
    InBlockStart(block);
    PrunesTruth(HeldOf(s.c.held, block), report);
    BeganRelease(s, source, block, report);
    var t := Beginning(s, None, source, block, 6, report);
    DrainBegin(s, t, None, source, block, 6, report);
    DrainBeat(t, 0, 0);
  }

  lemma DrainRelease(s: Sys, source: int, block: int, report: Report)
    requires Inv(s) && Draining(s) && Enabled(s, DoRelease(source, block, report))
    ensures Apply(s, DoRelease(source, block, report)).Some?
    ensures Draining(Apply(s, DoRelease(source, block, report)).value)
  {
    hide Inv, Draining, HeldOf, BlockOf, OnRelease, CleanFor, InOrder;
    ReleaseKeeps(s, source, block, report);
    var t := Apply(s, DoRelease(source, block, report)).value;
    PrunesTruth(HeldOf(s.c.held, block), report);
    DrainingParts(s);
    NoneYields(t);
    forall d
      ensures HeldOf(t.c.held, d) == T ==> HeldOf(s.c.held, d) == T
    {
      AfterLess(s.c.held, block, report, d);
    }
    DrainsOn(s, t);
  }

  /** Every step but an acquire keeps draining. */
  lemma DrainKeeps(s: Sys, step: Step)
    requires Inv(s) && Draining(s) && Enabled(s, step) && !step.DoAcquire?
    ensures Apply(s, step).Some? && Draining(Apply(s, step).value)
  {
    hide Inv, Survives, Draining, Yielded, HeldOf, BlockOf, FromT, OnGet, OnPut, OnHostProbe, ProbeNext, Queue, WriteBeat, CleanFor, CoveredBy, Aligned, InOrder;
    match step
    case DoProbeAck(p, q) => DrainAck(s, p, q);
    case DoProbeData(p, q) => DrainProbeData(s, p, q);
    case DoReleaseData(source, block, report) => DrainReleaseData(s, source, block, report);
    case DoBeat(p, q) => DrainBeat(s, p, q);
    case DoRelease(source, block, report) => DrainRelease(s, source, block, report);
    case Shutdown(addrs, pick) => DrainingParts(s);
    case DoAcquire(grow, source, addr, sink, pick) =>
    case DoGet(source, size, addr, pick) => DrainOther(s, step);
    case DoPut(source, size, addr, mask, data) => DrainOther(s, step);
    case DoStore(addr, data) => DrainOther(s, step);
    case DoGrantAck(block) => DrainingParts(s);
    case TakeD => DrainOther(s, step);
    case TakeB => DrainOther(s, step);
    case SendsD => DrainOther(s, step);
    case SendsB => DrainOther(s, step);
    case HostProbe(addr, pick) => DrainOther(s, step);
  }

  /** A step that changes nothing of what the core holds. */
  lemma DrainOther(s: Sys, step: Step)
    requires Inv(s) && Draining(s) && Enabled(s, step)
    requires step.DoGet? || step.DoPut? || step.DoStore? || step.TakeD? || step.TakeB? || step.SendsD? || step.SendsB? || step.HostProbe?
    ensures Apply(s, step).Some? && Draining(Apply(s, step).value)
  {
    hide Inv, Survives, Draining, Yielded, HeldOf, BlockOf, FromT, OnGet, OnPut, OnHostProbe, SendD, Queue, Aligned, InOrder;
    StepKeeps(s, step);
    SurvivesSome(s, step);
    DrainingParts(s);
    if s.c.writing.Some? && s.c.writing.value.ack.Some? {
      AckPending(s);
    }
    var t := Apply(s, step).value;
    YieldsOn(s, t);
    DrainsOn(s, t);
  }

  lemma DrainProbeData(s: Sys, p: int, q: int)
    requires Inv(s) && Draining(s) && Enabled(s, DoProbeData(p, q))
    ensures Apply(s, DoProbeData(p, q)).Some? && Draining(Apply(s, DoProbeData(p, q)).value)
  {
    hide Inv, Draining, HeldOf, BlockOf, FromT, Queue, WriteBeat, CoveredBy, Aligned;
    var r := s.c.probes[0];
    var h := HeldOf(s.c.held, BlockOf(r.addr));
    TruthfulTruth(h, r.cap);
    assert Out(s)[0] == r;
    OldestListed(s);
    var u := Began(s, p, q);
    DrainBegin(s, u, Some(r), r.source, r.addr, r.size, Truthful(h, r.cap));
    DrainBeat(u, p, q);
  }

  lemma SurvivesSome(s: Sys, step: Step)
    requires Enabled(s, step) && Survives(s, step)
    ensures Apply(s, step).Some? && Inv(Apply(s, step).value) && InOrder(s, Apply(s, step).value, Answers(s, step))
  {
  }

  /** Draining begins with the shutdown, when no acquire is under way. */
  lemma ShutdownDrains(s: Sys, addrs: seq<int>, pick: int)
    requires Inv(s) && Enabled(s, Shutdown(addrs, pick)) && s.c.acq == map[]
    ensures Apply(s, Shutdown(addrs, pick)).Some? && Inv(Apply(s, Shutdown(addrs, pick)).value)
    ensures Draining(Apply(s, Shutdown(addrs, pick)).value)
  {
    hide Inv, HeldOf, FromT, ProbeNext, Queue, BlockOf, Yielded;
    ShutdownKeeps(s, addrs, pick);
    GetSound(s);
    NothingDone(s);
    var t := Apply(s, Shutdown(addrs, pick)).value;
    forall b | HeldOf(s.c.held, b) == T || FromT(s.c.writing, b)
      ensures Left(t, b)
    {
      HeldListed(s, b);
      assert b in addrs;
    }
    if s.c.writing.Some? && s.c.writing.value.ack.Some? {
      AckPending(s);
      NotShutdown(s, addrs);
    }
    YieldsAtFirst(s, t);
  }

  lemma NotShutdown(s: Sys, addrs: seq<int>)
    requires Inv(s) && s.listed.None? && Queue(s) != []
    ensures !Queue(s)[0].callback.ShutdownRest?
  {
    hide Sound;
    NoneListed(s, Out(s), addrs);
  }

  lemma YieldsAtFirst(s: Sys, t: Sys)
    requires InOrder(s, t, false) && t.c.writing == s.c.writing
    requires s.c.writing.Some? && s.c.writing.value.ack.Some? ==> Queue(s) != [] && !Queue(s)[0].callback.ShutdownRest?
    ensures Yielded(t)
  {
    hide Queue;
  }

  lemma NothingDone(s: Sys)
    requires Sound(s) && s.listed.None?
    ensures s.done == []
  {
    hide Values, Sunk, Grants, Marked, Exclusive, Counts, Stream, Msgs;
  }

  lemma HeldListed(s: Sys, b: int)
    requires Sound(s) && (HeldOf(s.c.held, b) == T || FromT(s.c.writing, b))
    ensures b in s.m.perm && s.m.perm[b] != TIP
  {
    hide Values, Sunk, Grants, Marked, Counts, Kept, Stream, Msgs;
    assert PermIn(s.m.perm, b) == TRUNK;
  }

  /** With nothing left to probe, no word is modified anywhere but in memory. */
  lemma FlushedState(s: Sys, w: int)
    requires Inv(s) && Draining(s) && !s.m.drive
    ensures s.listed == Some(s.done) && At(s.m.mem, w) == At(s.latest, w)
  {
    hide Probing, Values, Sunk, Grants, Marked, Exclusive, Counts, Stream, Msgs, HeldOf, FromT, BlockOf, Yielded;
    assert !Left(s, BlockOf(w));
    QuietWord(s, w) by { hide *; GetSound(s); FlushedBlock(s, BlockOf(w)); }
  }

  lemma FlushedBlock(s: Sys, b: int)
    requires Inv(s) && Draining(s) && !s.m.drive
    ensures HeldOf(s.c.held, b) != T && !FromT(s.c.writing, b)
  {
    hide Probing, Values, Sunk, Grants, Marked, Exclusive, Counts, Stream, Msgs, HeldOf, FromT, Yielded;
    assert !Left(s, b);
  }

  lemma {:induction false} DrainRun(s: Sys, steps: seq<Step>)
    requires Inv(s) && Draining(s) && Disciplined(s, steps)
    requires forall i :: 0 <= i < |steps| ==> !steps[i].DoAcquire?
    ensures Run(s, steps).Some? && Inv(Run(s, steps).value) && Draining(Run(s, steps).value)
    decreases |steps|
  {
    hide Inv, Draining, Enabled, Apply, Survives;
    if steps != [] {
      StepKeeps(s, steps[0]);
      SurvivesSome(s, steps[0]);
      DrainKeeps(s, steps[0]);
      var t := Apply(s, steps[0]).value;
      assert forall i :: 0 <= i < |steps[1..]| ==> steps[1..][i] == steps[i + 1];
      DrainRun(t, steps[1..]);
    }
  }

  /**
   When `drive` is cleared, every block that was not TIP when the shutdown began has been
   probed and answered, and if the core acquired nothing since, memory holds the last value
   of every word.
   */
  lemma ShutdownFlushes(s: Sys, addrs: seq<int>, pick: int, steps: seq<Step>, w: int)
    requires Inv(s) && Enabled(s, Shutdown(addrs, pick)) && s.c.acq == map[]
    requires Apply(s, Shutdown(addrs, pick)).Some? && Disciplined(Apply(s, Shutdown(addrs, pick)).value, steps)
    requires forall i :: 0 <= i < |steps| ==> !steps[i].DoAcquire?
    ensures var r := Run(Apply(s, Shutdown(addrs, pick)).value, steps);
      r.Some? && (!r.value.m.drive ==> r.value.listed == Some(r.value.done) && At(r.value.m.mem, w) == At(r.value.latest, w))
  {
    hide Inv, Draining, Enabled, Apply, Disciplined, Run;
    ShutdownDrains(s, addrs, pick);
    var t := Apply(s, Shutdown(addrs, pick)).value;
    DrainRun(t, steps);
    if !Run(t, steps).value.m.drive {
      FlushedState(Run(t, steps).value, w);
    }
  }

  lemma StepLists(s: Sys, step: Step)
    requires Enabled(s, step) && Apply(s, step).Some? && s.listed.Some?
    ensures Apply(s, step).value.listed == s.listed
  {
    hide HeldOf, BlockOf, WordOf, BurstLen, OnGet, OnPut, OnAcquireBlock, OnProbeAck, OnProbeAckData, OnRelease, OnReleaseData,
         OnGrantAck, OnHostProbe, SendD, SendB, Fill, CleanFor, CoveredBy, Aligned, ProbeNext, Masked;
  }

  lemma {:induction false} RunLists(s: Sys, steps: seq<Step>)
    requires Inv(s) && Disciplined(s, steps) && s.listed.Some?
    ensures Run(s, steps).Some? && Inv(Run(s, steps).value) && Run(s, steps).value.listed == s.listed
    decreases |steps|
  {
    hide Inv, Enabled, Apply, Survives;
    if steps != [] {
      StepKeeps(s, steps[0]);
      SurvivesSome(s, steps[0]);
      StepLists(s, steps[0]);
      RunLists(Apply(s, steps[0]).value, steps[1..]);
    }
  }

  /** In every run, when `drive` is cleared the blocks listed when the shutdown began have been probed and answered, in that order. */
  lemma ShutdownProbesAll(s: Sys, addrs: seq<int>, pick: int, steps: seq<Step>)
    requires Inv(s) && Enabled(s, Shutdown(addrs, pick))
    requires Apply(s, Shutdown(addrs, pick)).Some? && Disciplined(Apply(s, Shutdown(addrs, pick)).value, steps)
    ensures var r := Run(Apply(s, Shutdown(addrs, pick)).value, steps);
      r.Some? && (!r.value.m.drive ==> r.value.done == addrs)
  {
    hide Enabled, Disciplined, Run, Values, Sunk, Grants, Marked, Exclusive, Counts, Survives, ProbeNext, Probing;
    StepKeeps(s, Shutdown(addrs, pick));
    SurvivesSome(s, Shutdown(addrs, pick));
    RunLists(Apply(s, Shutdown(addrs, pick)).value, steps);
  }

  // ---------- The shutdown ends ----------

  /** A shutdown under way has a probe wanted or outstanding. */
  ghost predicate Alive(s: Sys) {
    && s.m.all != {} && s.listed.Some?
    && (s.m.drive ==> exists i :: 0 <= i < |Queue(s)| && Queue(s)[i].callback.ShutdownRest?)
  }

  /** The steps by which messages are delivered and probes answered. */
  predicate Delivers(step: Step) {
    step.DoProbeAck? || step.DoProbeData? || step.DoBeat? || step.TakeD? || step.TakeB? || step.SendsD? || step.SendsB?
  }

  /** How many probes a request stands for. */
  function Weight(r: Request): nat {
    1 + if r.callback.ShutdownRest? then |r.callback.rest| else 0
  }

  function Total(q: seq<Request>): nat {
    if q == [] then 0 else Weight(q[0]) + Total(q[1..])
  }

  lemma {:induction false} TotalApp(q: seq<Request>, r: seq<Request>)
    ensures Total(q + r) == Total(q) + Total(r)
    decreases |q|
  {
    if q == [] {
      assert q + r == r;
    } else {
      assert (q + r)[1..] == q[1..] + r;
      TotalApp(q[1..], r);
    }
  }

  /** Answering a request leaves one probe less to answer. */
  lemma TotalServed(q: seq<Request>)
    requires q != []
    ensures Total(q[1..] + Followed(q[0].callback)) == Total(q) - 1
  {
    TotalApp(q[1..], Followed(q[0].callback));
    var f := Followed(q[0].callback);
    if f != [] {
      assert f[1..] == [];
    }
  }

  function Port<A>(o: Option<A>): nat {
    if o.Some? then 1 else 0
  }

  /** The beats still to come of a message with data. */
  function Beats(w: Option<Writing>): nat {
    if w.Some? && w.value.sent < BurstLen(w.value.size) then BurstLen(w.value.size) - w.value.sent else 0
  }

  /** How much delivering and answering there is to do: it bounds the steps that do it. */
  function Work(s: Sys): int {
    400 * Total(Queue(s)) + 46 * (|s.m.waiting| + |s.m.bq|) + 42 * Port(s.m.bPort) + 40 * |s.c.probes|
      + 4 * Beats(s.c.writing) + 2 * |s.m.dq| + Port(s.m.dPort)
  }

  lemma QueueSame(s: Sys, t: Sys)
    requires t.m.calls == s.m.calls && t.m.waiting == s.m.waiting && Out(t) == Out(s)
    ensures Queue(t) == Queue(s)
  {
  }

  lemma QueueSize(s: Sys)
    ensures |Queue(s)| == |s.m.waiting| + |s.m.bq| + Port(s.m.bPort) + |s.c.probes|
                          + if s.c.writing.Some? && s.c.writing.value.ack.Some? then 1 else 0
  {
  }

  lemma ServedSize(s: Sys)
    requires Inv(s) && Queue(s) != []
    ensures |Served(s.latest, Queue(s)[0].callback)| <= BEATS
  {
    hide Sound, Books, Queue, Aligned;
    var r := Queue(s)[0];
    BurstLens();
    assert Fits(r, s.c.acq, s.m.ongoing, s.listed, s.done) by { hide *; HeadFits(s); }
    if r.callback.AnswerGet? {
      SizeIn(r.addr, r.size);
    }
  }

  lemma HeadFits(s: Sys)
    requires Inv(s) && Queue(s) != []
    ensures Fits(Queue(s)[0], s.c.acq, s.m.ongoing, s.listed, s.done)
  {
    hide Sound, Books, Fits;
  }

  lemma SizeIn(addr: int, size: nat)
    requires Aligned(addr, size)
    ensures BurstLen(size) <= BEATS
  {
    BurstLens();
  }

  /** An answered probe: the work shrinks by far more than the answer adds. */
  lemma WorkAnswered(s: Sys, t: Sys)
    requires Inv(s) && InOrder(s, t, true) && Out(s) != [] && Out(s)[0].source in s.m.calls
    requires t.m.dq == s.m.dq + Served(s.latest, s.m.calls[Out(s)[0].source])
    requires t.m.bPort == s.m.bPort && t.m.dPort == s.m.dPort && t.c.writing.None?
    requires |t.c.probes| <= |s.c.probes| <= |t.c.probes| + 1
    requires if s.c.writing.Some? && s.c.writing.value.ack.Some? then |t.c.probes| == |s.c.probes|
             else |t.c.probes| + 1 == |s.c.probes|
    ensures Work(t) < Work(s)
  {
    hide Inv, Queue, Total, Served, BurstLen, Followed;
    OldestListed(s);
    ServedSize(s);
    TotalServed(Queue(s));
    QueueSize(s);
    QueueSize(t);
    assert |Followed(Queue(s)[0].callback)| <= 1 by { hide *; OneFollows(Queue(s)[0].callback); }
  }

  lemma OneFollows(cb: Callback)
    ensures |Followed(cb)| <= 1
  {
  }

  lemma TakeDWork(s: Sys)
    requires Enabled(s, TakeD)
    ensures Apply(s, TakeD).Some? && Work(Apply(s, TakeD).value) < Work(s)
  {
    hide Queue, Total, BurstLen, Fill;
    var t := Apply(s, TakeD).value;
    FillKeepsCore(s.c, s.m.dPort.value);
    assert Out(t) == Out(s);
    QueueSame(s, t);
  }

  lemma FillKeepsCore(c: Core, msg: DMsg)
    ensures msg.GrantData? ==>
      Fill(c, msg.block, msg.data).probes == c.probes && Fill(c, msg.block, msg.data).writing == c.writing
  {
  }

  lemma TakeBWork(s: Sys)
    requires Enabled(s, TakeB)
    ensures Apply(s, TakeB).Some? && Work(Apply(s, TakeB).value) < Work(s)
  {
    hide Queue, Total, BurstLen;
    var t := Apply(s, TakeB).value;
    assert Out(t) == Out(s);
    QueueSame(s, t);
  }

  lemma SendDFields(m: Manager)
    requires m.dPort.None? && m.dq != []
    ensures var n := SendD(m);
      && n.dq == m.dq[1..] && n.dPort.Some? && n.bq == m.bq && n.bPort == m.bPort
      && n.calls == m.calls && n.waiting == m.waiting && n.all == m.all
  {
  }

  lemma SendsDWork(s: Sys)
    requires Enabled(s, SendsD)
    ensures Apply(s, SendsD).Some? && Work(Apply(s, SendsD).value) < Work(s)
  {
    hide Queue, Total, BurstLen, Beats, SendD;
    SendDFields(s.m);
    var t := Apply(s, SendsD).value;
    assert Out(t) == Out(s);
    QueueSame(s, t);
  }

  lemma SendsBWork(s: Sys)
    requires Enabled(s, SendsB)
    ensures Apply(s, SendsB).Some? && Work(Apply(s, SendsB).value) < Work(s)
  {
    hide Queue, Total, BurstLen;
    var t := Apply(s, SendsB).value;
    assert Out(t) == Out(s);
    QueueSame(s, t);
  }

  /** A beat that is not the last of an answer. */
  lemma BeatWork(s: Sys, p: int, q: int)
    requires Inv(s) && s.m.drive && s.c.writing.Some?
    requires var w := s.c.writing.value; !(w.ack.Some? && w.sent + 1 == BurstLen(w.size))
    ensures WriteBeat(s, p, q).Some? && Work(WriteBeat(s, p, q).value) < Work(s)
  {
    hide Inv, Queue, BurstLen, Clear, Written, WriteBeat, Sound, Acked, Work, Beats, Out, Beat;
    GetSound(s);
    WrittenSound(s);
    BeatIs(s, p, q);
    BeatsLeft(s);
    WrittenFields(s);
    var t, w := WriteBeat(s, p, q).value, s.c.writing.value;
    assert Out(t) == Out(s) by { SameOut(s, t); }
    QueueSame(s, t);
    OneBeatLess(w);
    LessWork(s, t);
  }

  lemma SameOut(s: Sys, t: Sys)
    requires t.c.probes == s.c.probes && t.m.bPort == s.m.bPort && t.m.bq == s.m.bq && s.c.writing.Some?
    requires if t.c.writing.Some? then t.c.writing.value.ack == s.c.writing.value.ack else s.c.writing.value.ack.None?
    ensures Out(t) == Out(s)
  {
  }

  lemma OneBeatLess(w: Writing)
    requires w.sent < BurstLen(w.size)
    ensures Beats(if w.sent + 1 == BurstLen(w.size) then None else Some(w.(sent := w.sent + 1))) == Beats(Some(w)) - 1
  {
    hide BurstLen;
  }

  lemma LessWork(s: Sys, t: Sys)
    requires Queue(t) == Queue(s) && t.m.waiting == s.m.waiting && t.m.bq == s.m.bq && t.m.bPort == s.m.bPort
    requires t.c.probes == s.c.probes && t.m.dPort == s.m.dPort && |t.m.dq| <= |s.m.dq| + 1
    requires Beats(t.c.writing) < Beats(s.c.writing)
    ensures Work(t) < Work(s)
  {
    hide Queue, Total, Beats;
  }

  lemma BeatsLeft(s: Sys)
    requires Sound(s) && s.c.writing.Some?
    ensures s.c.writing.value.sent < BurstLen(s.c.writing.value.size)
  {
    hide Values, Sunk, Grants, Marked, Exclusive, Kept, Stream, Msgs;
  }

  lemma AckWork(s: Sys, p: int, q: int)
    requires Inv(s) && Enabled(s, DoProbeAck(p, q))
    ensures Apply(s, DoProbeAck(p, q)).Some? && Work(Apply(s, DoProbeAck(p, q)).value) < Work(s)
  {
    hide Inv, Work, OnProbeAck, Served, InOrder, CleanFor, Repicks;
    ProbeAckKeeps(s, p, q);
    ProbeAckIsCurrent(s, p, q);
    AckedPorts(s.m, s.c.probes[0], Truthful(HeldOf(s.c.held, BlockOf(s.c.probes[0].addr)), s.c.probes[0].cap), p, q);
    WorkAnswered(s, Apply(s, DoProbeAck(p, q)).value);
  }

  lemma AckedPorts(m: Manager, r: Probe, report: Report, p: int, q: int)
    ensures var n := OnProbeAck(m, r.source, r.addr, report, p, q);
            n.Some? ==> n.value.bPort == m.bPort && n.value.dPort == m.dPort && n.value.all == m.all
  {
    AckedKeepsPorts(Reported(m, BlockOf(r.addr), report), r.source, p, q);
  }

  /** The fields that no callback touches. */
  predicate SamePorts(m: Manager, n: Manager) {
    n.bPort == m.bPort && n.dPort == m.dPort && n.all == m.all
  }

  lemma AckedKeepsPorts(m: Manager, source: int, p: int, q: int)
    ensures Acked(m, source, p, q).Some? ==> SamePorts(m, Acked(m, source, p, q).value)
  {
    hide CallBack, Release, SamePorts;
    CallKeepsPorts(m, source, p);
    if CallBack(m, source, p).Some? {
      var n := CallBack(m, source, p).value;
      ReleaseKeepsPorts(n, source, q);
      PortsTwice(m, n);
    }
  }

  lemma PortsTwice(m: Manager, n: Manager)
    requires SamePorts(m, n)
    ensures forall k :: SamePorts(n, k) ==> SamePorts(m, k)
  {
  }

  lemma CallKeepsPorts(m: Manager, source: int, p: int)
    ensures CallBack(m, source, p).Some? ==> SamePorts(m, CallBack(m, source, p).value)
  {
    hide RunCallback;
    if source in m.calls {
      RunKeepsPorts(m.(calls := m.calls - {source}), m.calls[source], p);
    }
  }

  lemma RunKeepsPorts(m: Manager, cb: Callback, p: int)
    ensures RunCallback(m, cb, p).Some? ==> SamePorts(m, RunCallback(m, cb, p).value)
  {
    hide Touch, Answer, Grant, Send;
    forall n, r
      ensures Send(n, r, p).Some? ==> SamePorts(n, Send(n, r, p).value)
    {
      SendKeepsPorts(n, r, p);
    }
  }

  lemma SendKeepsPorts(m: Manager, r: Request, pick: int)
    ensures Send(m, r, pick).Some? ==> SamePorts(m, Send(m, r, pick).value)
  {
  }

  lemma ReleaseKeepsPorts(m: Manager, source: int, q: int)
    ensures Release(m, source, q).Some? ==> SamePorts(m, Release(m, source, q).value)
  {
    hide Send;
    if m.waiting != [] {
      SendKeepsPorts(m.(free := m.free + {source}, waiting := m.waiting[1..]), m.waiting[0], q);
    }
  }

  /** The last beat of an answer. */
  lemma LastBeatWork(s: Sys, p: int, q: int)
    requires Inv(s) && s.m.drive && s.c.writing.Some? && s.c.writing.value.ack.Some? && Repicks(s.m, s.c.writing.value.source, p, q)
    requires s.c.writing.value.sent + 1 == BurstLen(s.c.writing.value.size)
    ensures WriteBeat(s, p, q).Some? && Work(WriteBeat(s, p, q).value) < Work(s)
  {
    hide Inv, Work, Acked, Served, InOrder, BurstLen, BlockOf, WordOf, Counted, Clear, Repicks, Queue;
    BeatKeeps(s, p, q);
    LastBeatIsCurrent(s, p, q);
    AckPending(s);
    GetSound(s);
    AckSource(s);
    WrittenSound(s);
    BeatIs(s, p, q);
    WrittenFields(s);
    AckedKeepsPorts(Written(s).m, s.c.writing.value.source, p, q);
    WorkAnswered(s, WriteBeat(s, p, q).value);
  }

  /** Beginning to answer with data is less work than the probe that asks for it. */
  lemma BeginWork(s: Sys, t: Sys)
    requires Queue(t) == Queue(s) && t.m == s.m && s.c.probes != [] && t.c.probes == s.c.probes[1..]
    requires s.c.writing.None? && t.c.writing.Some? && t.c.writing.value.sent == 0 && BurstLen(t.c.writing.value.size) <= BEATS
    ensures Work(t) < Work(s)
  {
    hide Queue, Total, BurstLen;
  }

  lemma ProbeDataWork(s: Sys, p: int, q: int)
    requires Inv(s) && Enabled(s, DoProbeData(p, q))
    ensures Apply(s, DoProbeData(p, q)).Some? && Work(Apply(s, DoProbeData(p, q)).value) < Work(s)
  {
    hide Inv, Work, WriteBeat, BurstLen, CoveredBy, Repicks, Queue, BlockOf, Aligned;
    var t := Began(s, p, q);
    var r := s.c.probes[0];
    assert Out(s)[0] == r;
    GetSound(s);
    ProbeAligned(s, Out(s));
    SizeIn(r.addr, r.size);
    BeginWork(s, t);
    if BurstLen(r.size) == 1 {
      LastBeatWork(t, p, q);
    } else {
      BeatWork(t, p, q);
    }
  }

  /** Every delivery and every beat of an answer is progress. */
  lemma DeliveryWorks(s: Sys, step: Step)
    requires Inv(s) && Enabled(s, step) && Delivers(step)
    ensures Apply(s, step).Some? && Work(Apply(s, step).value) < Work(s)
  {
    hide Inv, Work, Repicks, WriteBeat;
    match step
    case DoProbeAck(p, q) => AckWork(s, p, q);
    case DoProbeData(p, q) => ProbeDataWork(s, p, q);
    case DoBeat(p, q) =>
      var w := s.c.writing.value;
      if w.ack.Some? && w.sent + 1 == BurstLen(w.size) {
        LastBeatWork(s, p, q);
      } else {
        BeatWork(s, p, q);
      }
    case TakeD => TakeDWork(s);
    case TakeB => TakeBWork(s);
    case SendsD => SendsDWork(s);
    case SendsB => SendsBWork(s);
    case _ =>
  }

  /** No run of deliveries and answers is longer than the work there is. */
  lemma {:induction false} DeliveriesEnd(s: Sys, steps: seq<Step>)
    requires Inv(s) && Disciplined(s, steps) && (forall i :: 0 <= i < |steps| ==> Delivers(steps[i]))
    ensures |steps| <= Work(s)
    decreases |steps|
  {
    hide Inv, Enabled, Apply, Survives, Work, Delivers;
    if steps == [] {
      WorkNat(s);
    } else {
      StepKeeps(s, steps[0]);
      SurvivesSome(s, steps[0]);
      DeliveryWorks(s, steps[0]);
      assert forall i :: 0 <= i < |steps[1..]| ==> steps[1..][i] == steps[i + 1];
      DeliveriesEnd(Apply(s, steps[0]).value, steps[1..]);
    }
  }

  lemma WorkNat(s: Sys)
    ensures Work(s) >= 0
  {
  }

  // ---------- Progress ----------

  /** A grant that has begun to arrive has more to come. */
  lemma FillingFlies(s: Sys, b: int)
    requires Sound(s) && Filling(s.c.acq, b)
    ensures s.m.dPort.Some? || s.m.dq != []
  {
    hide Values, Sunk, Marked, Exclusive, Counts, Kept;
    assert Granting(b, s.c.acq[b], s.m.ongoing, Flight(s.m), s.latest, s.c.cache, s.c.held);
    assert |Stream(b, Flight(s.m))| > 0;
    FlightOf(s.m);
  }

  lemma FlightOf(m: Manager)
    ensures m.dPort.None? && m.dq == [] ==> Flight(m) == []
  {
  }

  /** A choice that the free list allows. */
  lemma Choice(m: Manager) returns (pick: int)
    ensures Picks(m, pick)
  {
    pick := 0;
    if m.free != {} {
      HasMember(m.free);
      pick :| pick in m.free;
    }
  }

  /** The core can answer its oldest probe. */
  lemma CanAnswer(s: Sys) returns (step: Step)
    requires Inv(s) && s.m.drive && s.c.writing.None? && s.c.probes != []
    requires !Filling(s.c.acq, BlockOf(s.c.probes[0].addr))
    ensures Enabled(s, step) && Delivers(step)
  {
    hide Inv, Filling, CleanFor, CoveredBy, BlockOf, HeldOf;
    var r := s.c.probes[0];
    var h := HeldOf(s.c.held, BlockOf(r.addr));
    assert Out(s)[0] == r;
    GetSound(s);
    var p := Choice(s.m);
    if h == N {
      step := DoProbeAck(p, r.source);
      NothingHeld(s, BlockOf(r.addr), NtoN, r);
    } else {
      step := DoProbeData(p, r.source);
      AllCovered(s, r);
    }
  }

  lemma NothingHeld(s: Sys, b: int, report: Report, r: Probe)
    requires Sound(s) && s.c.writing.None? && b == BlockOf(r.addr) && HeldOf(s.c.held, b) == N
    ensures CleanFor(s.c.dirty, report, r.addr, r.size)
  {
    hide Sunk, Grants, Marked, Exclusive, Counts, Kept, Stream, Msgs;
  }

  lemma AllCovered(s: Sys, r: Probe)
    requires Inv(s) && Out(s) != [] && Out(s)[0] == r && s.c.writing.None?
    ensures CoveredBy(s.c.dirty, Truthful(HeldOf(s.c.held, BlockOf(r.addr)), r.cap), r.addr, r.size)
  {
    hide Probing, Sound, HeldOf, BlockOf, Values;
    OldestFits(s);
    if r.cap == ToT {
      CappedAtT(s, r);
    } else {
      GetSound(s);
      WholeBlock(s, Truthful(HeldOf(s.c.held, BlockOf(r.addr)), r.cap), r.addr);
    }
  }

  /** A core that answers a cap of T keeps T, or has nothing modified. */
  lemma CappedAtT(s: Sys, r: Probe)
    requires Inv(s) && Out(s) != [] && Out(s)[0] == r && r.cap == ToT && s.c.writing.None?
    ensures CoveredBy(s.c.dirty, Truthful(HeldOf(s.c.held, BlockOf(r.addr)), r.cap), r.addr, r.size)
  {
    hide Probing, Sunk, Grants, Marked, Exclusive, Counts, Kept, Stream, Msgs, BlockOf, HeldOf;
  }

  /** A probe that takes permissions away is for a whole block. */
  lemma OldestFits(s: Sys)
    requires Inv(s) && Out(s) != []
    ensures var r := Out(s)[0]; r.cap == ToT || (r.size == 6 && IsBlock(r.addr))
  {
    hide Sound, Books;
    AnsweredBooks(s.m, Out(s)) by { hide *; OldestBooks(s); }
    assert Fits(Queue(s)[0], s.c.acq, s.m.ongoing, s.listed, s.done);
  }

  /** While the shutdown is under way something can be delivered or answered. */
  lemma Progress(s: Sys) returns (step: Step)
    requires Inv(s) && Alive(s) && s.m.drive
    ensures Enabled(s, step) && Delivers(step)
  {
    hide Inv, Queue, Enabled, Filling, BlockOf, Alive;
    GetSound(s);
    Deliverable(s);
    if s.m.dPort.Some? {
      step := TakeD;
    } else if s.m.dq != [] {
      step := SendsD;
    } else if s.c.writing.Some? {
      var p := Choice(s.m);
      step := DoBeat(p, s.c.writing.value.source);
      BeatDeliverable(s, p);
    } else if s.c.probes != [] {
      if Filling(s.c.acq, BlockOf(s.c.probes[0].addr)) {
        FillingFlies(s, BlockOf(s.c.probes[0].addr));
      }
      step := CanAnswer(s);
    } else if s.m.bPort.Some? {
      step := TakeB;
    } else if s.m.bq != [] {
      step := SendsB;
    } else {
      StillAlive(s);
      SomethingOut(s);
      assert false;
    }
  }

  lemma Deliverable(s: Sys)
    requires s.m.drive
    ensures s.m.dPort.Some? ==> Enabled(s, TakeD)
    ensures s.m.dPort.None? && s.m.dq != [] ==> Enabled(s, SendsD)
    ensures s.m.bPort.Some? ==> Enabled(s, TakeB)
    ensures s.m.bPort.None? && s.m.bq != [] ==> Enabled(s, SendsB)
  {
  }

  lemma BeatDeliverable(s: Sys, p: int)
    requires s.m.drive && s.c.writing.Some? && Picks(s.m, p)
    ensures Enabled(s, DoBeat(p, s.c.writing.value.source))
  {
  }

  lemma StillAlive(s: Sys)
    requires Alive(s) && s.m.drive
    ensures Queue(s) != [] && s.m.all != {}
  {
    hide Queue;
  }

  lemma SomethingOut(s: Sys)
    requires Inv(s) && Queue(s) != [] && s.m.all != {}
    ensures Out(s) != []
  {
    hide Sound, Asked;
    if s.m.waiting != [] {
      HasMember(s.m.all);
      var k :| k in s.m.all;
      assert k in s.m.calls;
    }
  }

  /** No step ends the shutdown but the last answer, and none changes the sources. */
  lemma AliveKeeps(s: Sys, step: Step)
    requires Inv(s) && s.m.all != {} && (s.listed.Some? ==> Alive(s)) && Enabled(s, step) && Survives(s, step)
    ensures Apply(s, step).Some? && var t := Apply(s, step).value; t.m.all != {} && (t.listed.Some? ==> Alive(t))
  {
    hide Inv, Queue, Survives, WriteBeat, ProbeNext;
    SurvivesSome(s, step);
    var t := Apply(s, step).value;
    AllKept(s, step);
    if s.listed.None? {
      if step.Shutdown? && t.m.drive {
        FirstAsked(s, step.addrs, step.pick);
      }
    } else if t.m.drive {
      var i :| 0 <= i < |Queue(s)| && Queue(s)[i].callback.ShutdownRest?;
      if !Answers(s, step) {
        assert Queue(t)[i] == Queue(s)[i];
      } else if i > 0 {
        assert Queue(t)[i - 1] == Queue(s)[i];
      } else {
        assert Queue(t)[|Queue(s)| - 1] == Followed(Queue(s)[0].callback)[0];
      }
    }
  }

  /** The shutdown's first probe is the last of the requests. */
  lemma FirstAsked(s: Sys, addrs: seq<int>, pick: int)
    requires Inv(s) && Enabled(s, Shutdown(addrs, pick)) && Apply(s, Shutdown(addrs, pick)).Some?
    requires Apply(s, Shutdown(addrs, pick)).value.m.drive
    ensures var q := Queue(Apply(s, Shutdown(addrs, pick)).value); q != [] && q[|q| - 1].callback.ShutdownRest?
  {
    hide Probing, Sound, Retrieve, Pending;
    var out := Out(s);
    NoneListed(s, out, addrs);
    ListedAligned(s, addrs);
    var s1 := s.(listed := Some(addrs));
    if addrs != [] {
      var r := Request(ToN, 6, addrs[0], ShutdownRest(addrs[1..]));
      FirstFits(s, addrs);
      var new_ := AskKeeps(s1, r, pick, out);
      OutMore(s1, s1.(m := Retrieve(s.m, r, pick).value), new_);
    }
  }

  lemma AllKept(s: Sys, step: Step)
    requires Enabled(s, step) && Apply(s, step).Some?
    ensures Apply(s, step).value.m.all == s.m.all
    ensures !step.Shutdown? ==> Apply(s, step).value.listed == s.listed
  {
    hide Counted, BlockOf, WordOf, Fill, CleanFor, CoveredBy, Repicks, WriteBeat, HeldOf, Aligned,
         OnGet, OnPut, OnAcquireBlock, OnHostProbe, ProbeNext, OnProbeAck, OnRelease, SendD;
    match step
    case DoGet(source, size, addr, pick) => GetAll(s.m, source, size, addr, pick);
    case DoPut(source, size, addr, mask, data) => PutAll(s.m, source, size, addr, mask, data);
    case DoAcquire(grow, source, addr, sink, pick) => AcquireAll(s.m, grow, source, addr, sink, pick);
    case DoProbeAck(p, q) =>
      var r := s.c.probes[0];
      AckedPorts(s.m, r, Truthful(HeldOf(s.c.held, BlockOf(r.addr)), r.cap), p, q);
    case DoProbeData(p, q) =>
      var r := s.c.probes[0];
      var h := HeldOf(s.c.held, BlockOf(r.addr));
      BeatAll(s.(c := s.c.(held := s.c.held[BlockOf(r.addr) := After(Truthful(h, r.cap))], probes := s.c.probes[1..],
                           writing := Some(Writing(Some(r), r.source, r.addr, r.size, Truthful(h, r.cap), h == T, 0)))), p, q);
    case DoRelease(source, block, report) => ReleaseAll(s.m, source, block, report);
    case DoReleaseData(source, block, report) =>
      BeatAll(s.(c := s.c.(held := s.c.held[block := After(report)],
                           writing := Some(Writing(None, source, block, 6, report, HeldOf(s.c.held, block) == T, 0)))), 0, 0);
    case DoBeat(p, q) => BeatAll(s, p, q);
    case DoStore(addr, data) =>
    case DoGrantAck(block) =>
    case TakeD =>
    case TakeB =>
    case SendsD => SendDFields(s.m);
    case SendsB =>
    case HostProbe(addr, pick) => HostAll(s.m, addr, pick);
    case Shutdown(addrs, pick) => NextAll(s.m, addrs, pick);
  }

  lemma GetAll(m: Manager, source: int, size: nat, addr: int, pick: int)
    ensures OnGet(m, source, size, addr, pick).Some? ==> OnGet(m, source, size, addr, pick).value.all == m.all
  {
    hide Touch, Answer, BlockOf, WordOf, BurstLen;
  }

  lemma PutAll(m: Manager, source: int, size: nat, addr: int, mask: Mask, data: Word)
    ensures OnPut(m, source, size, addr, mask, data).Some? ==> OnPut(m, source, size, addr, mask, data).value.all == m.all
  {
    hide Masked, BlockOf, WordOf, BurstLen;
  }

  lemma AcquireAll(m: Manager, grow: Grow, source: int, addr: int, sink: int, pick: int)
    ensures var n := OnAcquireBlock(m, grow, source, 6, addr, sink, pick); n.Some? ==> n.value.all == m.all
  {
    hide Touch, Grant, BlockOf, WordOf, BurstLen;
  }

  lemma ReleaseAll(m: Manager, source: int, block: int, report: Report)
    ensures OnRelease(m, source, block, report).Some? ==> OnRelease(m, source, block, report).value.all == m.all
  {
  }

  lemma HostAll(m: Manager, addr: int, pick: int)
    ensures OnHostProbe(m, addr, pick).Some? ==> OnHostProbe(m, addr, pick).value.all == m.all
  {
  }

  lemma NextAll(m: Manager, addrs: seq<int>, pick: int)
    ensures ProbeNext(m, addrs, pick).Some? ==> ProbeNext(m, addrs, pick).value.all == m.all
  {
  }

  lemma BeatAll(s: Sys, p: int, q: int)
    requires s.c.writing.Some? && WriteBeat(s, p, q).Some?
    ensures WriteBeat(s, p, q).value.m.all == s.m.all && WriteBeat(s, p, q).value.listed == s.listed
  {
    hide Acked, Counted, BlockOf, WordOf, BurstLen, Clear;
    var w := s.c.writing.value;
    var m1 := Stored(s.m, w.source, w.addr, At(s.c.cache, Nth(WordOf(w.addr), w.sent))).(cBurst := Counted(s.m.cBurst, w.source, BurstLen(w.size)));
    AckedKeepsPorts(Reported(m1, BlockOf(w.addr), w.report), w.source, p, q);
  }

  /**
   A shutdown under way ends by deliveries and answers alone, with every listed block probed
   and answered.
   */
  lemma {:induction false} ShutdownEnds(s: Sys) returns (steps: seq<Step>)
    requires Inv(s) && Alive(s)
    ensures Disciplined(s, steps) && (forall i :: 0 <= i < |steps| ==> Delivers(steps[i]))
    ensures Run(s, steps).Some?
    ensures var t := Run(s, steps).value; !t.m.drive && t.listed == s.listed == Some(t.done)
    decreases Work(s)
  {
    hide Inv, Enabled, Apply, Survives, Work, Delivers, Queue;
    WorkNat(s);
    if !s.m.drive {
      steps := [];
      GetSound(s);
      AllDone(s);
    } else {
      var step := Progress(s);
      StepKeeps(s, step);
      SurvivesSome(s, step);
      DeliveryWorks(s, step);
      AliveKeeps(s, step);
      AllKept(s, step);
      DeliversOnly(step);
      var more := ShutdownEnds(Apply(s, step).value);
      steps := [step] + more;
      assert steps[1..] == more;
    }
  }

  lemma DeliversOnly(step: Step)
    requires Delivers(step)
    ensures !step.Shutdown?
  {
  }

  lemma AllDone(s: Sys)
    requires Sound(s) && !s.m.drive
    ensures s.listed == Some(s.done)
  {
    hide Values, Sunk, Grants, Marked, Exclusive, Counts, Stream, Msgs;
  }

  lemma {:induction false} AliveRun(s: Sys, steps: seq<Step>)
    requires Inv(s) && s.m.all != {} && (s.listed.Some? ==> Alive(s)) && Disciplined(s, steps)
    ensures Run(s, steps).Some? && var t := Run(s, steps).value; Inv(t) && (t.listed.Some? ==> Alive(t))
    decreases |steps|
  {
    hide Inv, Enabled, Apply, Survives, Alive;
    if steps != [] {
      StepKeeps(s, steps[0]);
      SurvivesSome(s, steps[0]);
      AliveKeeps(s, steps[0]);
      AliveRun(Apply(s, steps[0]).value, steps[1..]);
    }
  }

  /**
   Wherever a run with at least one probe source has got to after `stop`, deliveries and
   answers alone can finish the shutdown, and no more of them than the work there is can be
   made without finishing it.
   */
  lemma EveryShutdownEnds(mem: map<int, Word>, sources: set<int>, steps: seq<Step>) returns (more: seq<Step>)
    requires sources != {} && Disciplined(Initial(mem, sources), steps)
    ensures Run(Initial(mem, sources), steps).Some?
    ensures var s := Run(Initial(mem, sources), steps).value;
      s.listed.Some? ==>
        && Disciplined(s, more) && (forall i :: 0 <= i < |more| ==> Delivers(more[i])) && |more| <= Work(s)
        && Run(s, more).Some? && !Run(s, more).value.m.drive
        && s.listed == Some(Run(s, more).value.done)
  {
    hide Inv, Disciplined, Run, Alive, Work, Delivers;
    InitialKeeps(mem, sources);
    AliveRun(Initial(mem, sources), steps);
    var s := Run(Initial(mem, sources), steps).value;
    more := [];
    if s.listed.Some? {
      more := ShutdownEnds(s);
      DeliveriesEnd(s, more);
    }
  }
}
