/** Every ask is answered once, in its turn, with its own words, and nothing else is said to the core. */
module Replies {
  import opened Options
  import opened Bytes
  import opened TileLink
  import opened Client
  import opened Sources
  import opened Invariant
  import opened Asks
  import opened Coherence
  import opened Runs

  // ---------- What asks are owed ----------

  /** The messages that an ask is owed when the words last written are `latest`. */
  function Reply(a: Ask, latest: map<int, Word>): seq<DMsg> {
    match a
    case Read(source, size, addr) => seq(BurstLen(size), i => AccessAckData(source, At(latest, Nth(WordOf(addr), i))))
    case Hold(want, source, addr, sink) =>
      seq(BEATS, i => GrantData(if want == B then ToB else ToT, sink, source, addr, At(latest, Nth(addr, i))))
    case Look(_) => []
    case Close(_) => []
  }

  /** The ask that a step makes and that is answered at once. */
  function Prompt(s: Sys, step: Step): seq<Ask> {
    if Waits(s, step).Some? then []
    else
      match step
      case DoGet(source, size, addr, _) => [Read(source, size, addr)]
      case DoAcquire(grow, source, addr, sink, _) => [Hold(Wanted(grow), source, addr, sink)]
      case _ => []
  }

  /** The acknowledgement of a write or of a release whose last beat the step brings. */
  function Receipt(s: Sys, step: Step): seq<DMsg>
    requires Enabled(s, step)
  {
    match step
    case DoPut(source, size, _, _, _) =>
      var sent := if s.c.putting.Some? then s.c.putting.value.sent else 0;
      if sent + 1 == BurstLen(size) then [AccessAck(source)] else []
    case DoRelease(source, _, _) => [ReleaseAck(source)]
    case DoBeat(_, _) =>
      var w := s.c.writing.value;
      if w.ack.None? && w.sent + 1 == BurstLen(w.size) then [ReleaseAck(w.source)] else []
    case _ => []
  }

  function Replied(as_: seq<Ask>, latest: map<int, Word>): seq<DMsg> {
    if as_ == [] then [] else Reply(as_[0], latest) + Replied(as_[1..], latest)
  }

  // ---------- The log of a run ----------

  /**
   All asks made, those still open in their order, those answered in the order of their
   answers, the messages that were owed, and the messages the core has taken.
   */
  datatype Log = Log(made: seq<Ask>, open: seq<Ask>, done: seq<Ask>, owed: seq<DMsg>, taken: seq<DMsg>)

  /** A shutdown goes on with the next block. */
  function Further(a: Ask): seq<Ask> {
    if a.Close? && |a.addrs| > 1 then [Close(a.addrs[1..])] else []
  }

  /** What the step adds to the log. The oldest open ask is the one that an answered probe is for. */
  function Note(s: Sys, log: Log, step: Step): Log
    requires Enabled(s, step)
  {
    if step.TakeD? then log.(taken := log.taken + [s.m.dPort.value])
    else if Answers(s, step) && log.open != [] then
      var a := log.open[0];
      log.(made := log.made + Further(a), open := log.open[1..] + Further(a), done := log.done + [a], owed := log.owed + Reply(a, s.latest))
    else
      var w, p := Waits(s, step), Prompt(s, step);
      log.(made := log.made + (if w.Some? then [w.value] else p), open := log.open + (if w.Some? then [w.value] else []),
           done := log.done + p, owed := log.owed + Replied(p, s.latest) + Receipt(s, step))
  }

  function Watch(s: Sys, log: Log, steps: seq<Step>): Log
    requires Disciplined(s, steps)
    decreases |steps|
  {
    if steps == [] then log
    else
      match Apply(s, steps[0])
      case None => log
      case Some(t) => Watch(t, Note(s, log, steps[0]), steps[1..])
  }

  const NO_LOG: Log := Log([], [], [], [], [])

  // ---------- The log is right ----------

  predicate Proper(a: Ask) {
    a.Close? ==> a.addrs != []
  }

  /** The open asks are what the adapter has pending, in order. */
  ghost predicate Awaited(open: seq<Ask>, queue: seq<Request>) {
    |open| == |queue| && forall i :: 0 <= i < |open| ==> Proper(open[i]) && queue[i] == Meant(open[i])
  }

  /** Every ask is open or answered, and once only; the core was told, or is about to be told, what was owed and nothing else. */
  ghost predicate Honest(s: Sys, log: Log) {
    && Awaited(log.open, Queue(s))
    && multiset(log.made) == multiset(log.open) + multiset(log.done)
    && log.taken + Flight(s.m) == log.owed
  }

  lemma AnswerIs(latest: map<int, Word>, size: nat, addr: int, source: int)
    ensures Msgs(Answer(latest, BurstLen(size), WordOf(addr), source)) == Reply(Read(source, size, addr), latest)
  {
    hide BurstLen, WordOf;
  }

  lemma GrantIs(latest: map<int, Word>, addr: int, cap: Cap, sink: int, source: int, want: Held)
    requires IsBlock(addr) && cap == (if want == B then ToB else ToT)
    ensures Msgs(Grant(latest, BEATS, addr, cap, sink, source)) == Reply(Hold(want, source, addr, sink), latest)
  {
    hide BlockOf;
  }

  /** What the callback of an open ask queues is what the ask is owed. */
  lemma ServedIs(a: Ask, latest: map<int, Word>)
    requires Proper(a) && (a.Hold? ==> IsBlock(a.addr))
    ensures Msgs(Served(latest, Meant(a).callback)) == Reply(a, latest)
    ensures Followed(Meant(a).callback) == (if Further(a) == [] then [] else [Meant(Further(a)[0])])
  {
    hide BurstLen, WordOf, BlockOf, Answer, Grant;
    match a
    case Read(source, size, addr) => AnswerIs(latest, size, addr, source);
    case Hold(want, source, addr, sink) => GrantIs(latest, addr, if want == B then ToB else ToT, sink, source, want);
    case Look(_) =>
    case Close(_) =>
  }

  // ---------- Messages per step ----------

  /** The step adds these messages to those in flight. */
  ghost predicate Says(s: Sys, t: Sys, msgs: seq<DMsg>) {
    Flight(t.m) == Flight(s.m) + msgs
  }

  lemma SaysMore(s: Sys, t: Sys, q: seq<DEntry>)
    requires t.m.dPort == s.m.dPort && t.m.dq == s.m.dq + q
    ensures Says(s, t, Msgs(q))
  {
    MsgsApp(s.m.dq, q);
  }

  lemma SaysOne(s: Sys, t: Sys, msg: DMsg)
    requires t.m.dPort == s.m.dPort && t.m.dq == s.m.dq + [DEntry(msg, None)]
    ensures Says(s, t, [msg])
  {
    SaysMore(s, t, [DEntry(msg, None)]);
    assert Msgs([DEntry(msg, None)]) == [msg];
  }

  lemma SaysNothing(s: Sys, t: Sys)
    requires t.m.dPort == s.m.dPort && t.m.dq == s.m.dq
    ensures Says(s, t, [])
  {
  }

  lemma RetrieveSays(m: Manager, r: Request, pick: int)
    requires Retrieve(m, r, pick).Some?
    ensures Retrieve(m, r, pick).value.dq == m.dq && Retrieve(m, r, pick).value.dPort == m.dPort
  {
  }

  lemma OneReplied(a: Ask, latest: map<int, Word>)
    ensures Replied([a], latest) == Reply(a, latest) && Replied([], latest) == []
  {
    hide Reply;
    assert Replied([a][1..], latest) == [];
  }

  lemma GetSays(s: Sys, source: int, size: nat, addr: int, pick: int)
    requires Inv(s) && Enabled(s, DoGet(source, size, addr, pick))
    ensures var t := Apply(s, DoGet(source, size, addr, pick));
            t.Some? && Says(s, t.value, Replied(Prompt(s, DoGet(source, size, addr, pick)), s.latest))
  {
    hide Inv, Aligned, BlockOf, WordOf, BurstLen, Answer, Touch, Reply, Replied, Says, Retrieve;
    GetIsCurrent(s, source, size, addr, pick);
    var t := Apply(s, DoGet(source, size, addr, pick)).value;
    OneReplied(Read(source, size, addr), s.latest);
    if PermOf(s.m, BlockOf(addr)) == TIP {
      SaysMore(s, t, Answer(s.latest, BurstLen(size), WordOf(addr), source));
      AnswerIs(s.latest, size, addr, source);
    } else {
      RetrieveSays(Listed(s.m, BlockOf(addr)), Request(ToT, size, addr, AnswerGet(BurstLen(size), WordOf(addr), source)), pick);
      SaysNothing(s, t);
    }
  }

  lemma AcquireSays(s: Sys, grow: Grow, source: int, addr: int, sink: int, pick: int)
    requires Inv(s) && Enabled(s, DoAcquire(grow, source, addr, sink, pick))
    ensures var t := Apply(s, DoAcquire(grow, source, addr, sink, pick));
            t.Some? && Says(s, t.value, Replied(Prompt(s, DoAcquire(grow, source, addr, sink, pick)), s.latest))
  {
    hide Inv, Aligned, BlockOf, WordOf, BurstLen, Grant, Touch, Reply, Replied, Says, Retrieve;
    AcquireKeeps(s, grow, source, addr, sink, pick);
    var t := Apply(s, DoAcquire(grow, source, addr, sink, pick)).value;
    OneReplied(Hold(Wanted(grow), source, addr, sink), s.latest);
    BlockIs(addr);
    if PermOf(s.m, addr) == TIP {
      AcquireIsCurrent(s, grow, source, addr, sink, pick);
      SaysMore(s, t, Grant(s.latest, BEATS, addr, Granted(grow), sink, source));
      GrantIs(s.latest, addr, Granted(grow), sink, source, Wanted(grow));
    } else {
      var m1 := s.m.(perm := s.m.perm[addr := PermOf(s.m, addr)], sinks := s.m.sinks - {sink});
      RetrieveSays(m1, Request(if grow == NtoB then ToB else ToN, 6, addr,
                               GrantBlock(Granted(grow), sink, BurstLen(6), WordOf(addr), source)), pick);
      SaysNothing(s, t);
    }
  }

  lemma BlockIs(addr: int)
    requires IsBlock(addr)
    ensures BlockOf(addr) == addr
  {
  }

  lemma PutSays(s: Sys, source: int, size: nat, addr: int, mask: Mask, data: Word)
    requires Inv(s) && Enabled(s, DoPut(source, size, addr, mask, data))
    ensures var t := Apply(s, DoPut(source, size, addr, mask, data));
            t.Some? && Says(s, t.value, Receipt(s, DoPut(source, size, addr, mask, data)))
  {
    hide Inv, Aligned, BlockOf, WordOf, BurstLen, Says, Masked, HeldOf, BusyOn;
    PutKeeps(s, source, size, addr, mask, data);
    var t := Apply(s, DoPut(source, size, addr, mask, data)).value;
    PutBeat(s);
    if Beat(s.m.aBurst, source) + 1 == BurstLen(size) {
      SaysOne(s, t, AccessAck(source));
    } else {
      SaysNothing(s, t);
    }
  }

  lemma PutBeat(s: Sys)
    requires Inv(s)
    ensures forall source {:trigger Beat(s.m.aBurst, source)} ::
              (s.c.putting.None? ==> Beat(s.m.aBurst, source) == 0)
              && (s.c.putting.Some? && s.c.putting.value.source == source ==> Beat(s.m.aBurst, source) == s.c.putting.value.sent)
  {
    hide Probing, Values, Sunk, Grants, Marked, Exclusive, Kept, BurstLen, Aligned;
  }

  lemma WriteSays(s: Sys, p: int, q: int)
    requires Inv(s) && s.m.drive && s.c.writing.Some? && WriteBeat(s, p, q).Some?
    requires !(s.c.writing.value.ack.Some? && s.c.writing.value.sent + 1 == BurstLen(s.c.writing.value.size))
    ensures var w, t := s.c.writing.value, WriteBeat(s, p, q).value;
            Says(s, t, if w.ack.None? && w.sent + 1 == BurstLen(w.size) then [ReleaseAck(w.source)] else [])
  {
    hide Inv, BlockOf, WordOf, BurstLen, Says, Acked, Reported, Stored;
    var w, t := s.c.writing.value, WriteBeat(s, p, q).value;
    CountedBeat(s);
    StoredSays(s.m, w.source, w.addr, At(s.c.cache, Nth(WordOf(w.addr), w.sent)), w.report);
    if w.ack.None? && w.sent + 1 == BurstLen(w.size) {
      SaysOne(s, t, ReleaseAck(w.source));
    } else {
      SaysNothing(s, t);
    }
  }

  lemma StoredSays(m: Manager, source: int, addr: int, data: Word, report: Report)
    ensures var n := Stored(m, source, addr, data); n.dq == m.dq && n.dPort == m.dPort
    ensures forall n: Manager, b {:trigger Reported(n, b, report)} :: Reported(n, b, report).dq == n.dq && Reported(n, b, report).dPort == n.dPort
  {
  }

  lemma CountedBeat(s: Sys)
    requires Inv(s) && s.c.writing.Some?
    ensures Beat(s.m.cBurst, s.c.writing.value.source) == s.c.writing.value.sent
  {
    hide Probing, Values, Sunk, Grants, Marked, Exclusive, Kept, BurstLen, Aligned;
  }

  lemma ReleaseSays(s: Sys, source: int, block: int, report: Report)
    requires Inv(s) && Enabled(s, DoRelease(source, block, report))
    ensures var t := Apply(s, DoRelease(source, block, report));
            t.Some? && Says(s, t.value, [ReleaseAck(source)])
  {
    hide Inv, BlockOf, Says, CleanFor, HeldOf, Reported;
    ReleaseKeeps(s, source, block, report);
    var t := Apply(s, DoRelease(source, block, report)).value;
    StoredSays(s.m, source, block, NOP_DATA, report);
    SaysOne(s, t, ReleaseAck(source));
  }

  /** A release with data has more than one beat. */
  lemma ReleaseBegins(s: Sys, source: int, block: int, report: Report)
    requires Inv(s) && Enabled(s, DoReleaseData(source, block, report))
    ensures var t := Apply(s, DoReleaseData(source, block, report));
            t.Some? && Says(s, t.value, [])
  {
    hide Inv, BlockOf, WordOf, BurstLen, Says, HeldOf, WriteBeat, Beginning;
    ReleaseDataKeeps(s, source, block, report);
    BeganRelease(s, source, block, report);
    var u := Beginning(s, None, source, block, 6, report);
    BeganWriting(s, None, source, block, 6, report);
    WriteSays(u, 0, 0);
    BurstLens();
    SameSays(s, u, Apply(s, DoReleaseData(source, block, report)).value, []);
  }

  lemma BeganWriting(s: Sys, ack: Option<Probe>, source: int, addr: int, size: nat, report: Report)
    ensures var u := Beginning(s, ack, source, addr, size, report);
      && u.m == s.m && u.latest == s.latest && u.c.writing.Some?
      && u.c.writing.value.ack == ack && u.c.writing.value.source == source && u.c.writing.value.size == size && u.c.writing.value.sent == 0
  {
  }

  lemma SameSays(s: Sys, u: Sys, t: Sys, msgs: seq<DMsg>)
    requires u.m == s.m && Says(u, t, msgs)
    ensures Says(s, t, msgs)
  {
  }

  /** The first of several beats of an answer with data. */
  lemma ProbeDataBegins(s: Sys, p: int, q: int)
    requires Inv(s) && Enabled(s, DoProbeData(p, q)) && !Answers(s, DoProbeData(p, q))
    ensures var t := Apply(s, DoProbeData(p, q));
            t.Some? && Says(s, t.value, [])
  {
    hide Inv, BlockOf, WordOf, BurstLen, Says, HeldOf, WriteBeat, CoveredBy, Repicks;
    ProbeDataKeeps(s, p, q);
    var u := Began(s, p, q);
    WriteSays(u, p, q);
    SameSays(s, u, Apply(s, DoProbeData(p, q)).value, []);
  }

  lemma BeatSays(s: Sys, p: int, q: int)
    requires Inv(s) && Enabled(s, DoBeat(p, q)) && !Answers(s, DoBeat(p, q))
    ensures var t := Apply(s, DoBeat(p, q));
            t.Some? && Says(s, t.value, Receipt(s, DoBeat(p, q)))
  {
    hide Inv, BurstLen, Says, WriteBeat, Repicks;
    MoreBeats(s, p, q);
    WriteSays(s, p, q);
  }

  /** Steps that say nothing. */
  lemma SilentSays(s: Sys, step: Step)
    requires Inv(s) && Enabled(s, step)
    requires step.DoStore? || step.DoGrantAck? || step.TakeB? || step.SendsB? || step.SendsD?
    ensures Apply(s, step).Some? && Says(s, Apply(s, step).value, [])
  {
    hide Inv, HeldOf, BlockOf, BusyOn;
    match step
    case DoStore(_, _) =>
    case DoGrantAck(block) => GrantAckKeeps(s, block);
    case TakeB =>
    case SendsB =>
    case SendsD =>
      assert s.m.dq == [s.m.dq[0]] + s.m.dq[1..];
      MsgsApp([s.m.dq[0]], s.m.dq[1..]);
      assert Msgs([s.m.dq[0]]) == [s.m.dq[0].msg];
  }

  lemma ProbingSays(s: Sys, step: Step)
    requires Inv(s) && Enabled(s, step) && (step.HostProbe? || step.Shutdown?)
    ensures Apply(s, step).Some? && Says(s, Apply(s, step).value, [])
  {
    hide Inv, Retrieve, BlockOf, ToProbe, Picks;
    match step
    case HostProbe(addr, pick) =>
      HostProbeKeeps(s, addr, pick);
      var r := Request(ToN, 6, addr, EnableProbe);
      if Retrieve(s.m.(probeEn := false), r, pick).Some? {
        RetrieveSays(s.m.(probeEn := false), r, pick);
      }
      SaysNothing(s, Apply(s, step).value);
    case Shutdown(addrs, pick) =>
      ShutdownKeeps(s, addrs, pick);
      if addrs != [] {
        RetrieveSays(s.m, Request(ToN, 6, addrs[0], ShutdownRest(addrs[1..])), pick);
      }
      SaysNothing(s, Apply(s, step).value);
  }

  /** What a step says that answers no probe. */
  lemma PlainSays(s: Sys, step: Step)
    requires Inv(s) && Enabled(s, step) && !Answers(s, step) && !step.TakeD?
    ensures Apply(s, step).Some? && Says(s, Apply(s, step).value, Replied(Prompt(s, step), s.latest) + Receipt(s, step))
  {
    hide Inv, Says, Enabled, Apply, Answers, Replied, Receipt, Reply;
    NoReply(s.latest);
    match step
    case DoGet(source, size, addr, pick) => GetSays(s, source, size, addr, pick); NoReceipt(s, step);
    case DoAcquire(grow, source, addr, sink, pick) => AcquireSays(s, grow, source, addr, sink, pick); NoReceipt(s, step);
    case DoPut(source, size, addr, mask, data) => PutSays(s, source, size, addr, mask, data);
    case DoProbeAck(p, q) => AlwaysAnswers(s, p, q);
    case DoProbeData(p, q) => ProbeDataBegins(s, p, q); NoReceipt(s, step);
    case DoRelease(source, block, report) => ReleaseSays(s, source, block, report); OneReceipt(s, source, block, report);
    case DoReleaseData(source, block, report) => ReleaseBegins(s, source, block, report); NoReceipt(s, step);
    case DoBeat(p, q) => BeatSays(s, p, q);
    case HostProbe(_, _) => ProbingSays(s, step); NoReceipt(s, step);
    case Shutdown(_, _) => ProbingSays(s, step); NoReceipt(s, step);
    case _ => SilentSays(s, step); NoReceipt(s, step);
  }

  lemma NoReply(latest: map<int, Word>)
    ensures Replied([], latest) == []
    ensures forall x: seq<DMsg> :: x + [] == x && [] + x == x
  {
  }

  lemma NoReceipt(s: Sys, step: Step)
    requires Enabled(s, step) && !step.DoPut? && !step.DoRelease? && !step.DoBeat?
    ensures Receipt(s, step) == []
  {
    hide Enabled;
  }

  lemma OneReceipt(s: Sys, source: int, block: int, report: Report)
    requires Enabled(s, DoRelease(source, block, report))
    ensures Receipt(s, DoRelease(source, block, report)) == [ReleaseAck(source)]
  {
    hide Enabled;
  }

  lemma AlwaysAnswers(s: Sys, p: int, q: int)
    requires Enabled(s, DoProbeAck(p, q))
    ensures Answers(s, DoProbeAck(p, q))
  {
    hide Enabled;
  }

  /** An answered probe: what its callback queues is what the oldest open ask is owed. */
  lemma AnswerSays(s: Sys, step: Step, open: seq<Ask>)
    requires Inv(s) && Enabled(s, step) && Answers(s, step) && Awaited(open, Queue(s))
    ensures open != [] && Out(s) != [] && Apply(s, step).Some? && Says(s, Apply(s, step).value, Reply(open[0], s.latest))
  {
    hide Inv, Says, Enabled, Apply, Answers, Reply, Served, Queue, Meant;
    AnswerIsCurrent(s, step);
    OldestAsk(s);
    assert Proper(open[0]) && Queue(s)[0] == Meant(open[0]);
    HeldBlock(s, open[0]);
    ServedIs(open[0], s.latest);
    PortKept(s, step);
    SaysMore(s, Apply(s, step).value, Served(s.latest, s.m.calls[Out(s)[0].source]));
  }

  lemma OldestAsk(s: Sys)
    requires Inv(s) && Out(s) != []
    ensures Queue(s) != [] && Out(s)[0].source in s.m.calls && Queue(s)[0].callback == s.m.calls[Out(s)[0].source]
    ensures Fits(Queue(s)[0], s.c.acq, s.m.ongoing, s.listed, s.done)
  {
    hide Sound, Booked, Fits;
    AnsweredBooks(s.m, Out(s));
  }

  lemma HeldBlock(s: Sys, a: Ask)
    requires Proper(a) && Fits(Meant(a), s.c.acq, s.m.ongoing, s.listed, s.done)
    ensures a.Hold? ==> IsBlock(a.addr)
  {
  }

  lemma CallBackPort(m: Manager, source: int, p: int)
    requires CallBack(m, source, p).Some?
    ensures CallBack(m, source, p).value.dPort == m.dPort
  {
    hide Touch, Answer, Grant;
  }

  lemma AckedPort(m: Manager, source: int, p: int, q: int)
    requires Acked(m, source, p, q).Some?
    ensures Acked(m, source, p, q).value.dPort == m.dPort
  {
    hide CallBack;
    CallBackPort(m, source, p);
  }

  /** Answers leave the port alone. */
  lemma PortKept(s: Sys, step: Step)
    requires Enabled(s, step) && Answers(s, step) && Apply(s, step).Some?
    ensures Apply(s, step).value.m.dPort == s.m.dPort
  {
    hide Aligned, CleanFor, CoveredBy, Repicks, Filling, BlockOf, WordOf, BurstLen, HeldOf, OnProbeAck, OnProbeAckData;
    match step
    case DoProbeAck(p, q) =>
      var r := s.c.probes[0];
      AckPort(s.m, r.source, r.addr, Truthful(HeldOf(s.c.held, BlockOf(r.addr)), r.cap), p, q);
    case DoProbeData(p, q) =>
      var r := s.c.probes[0];
      forall report, data {
        AckDataPort(s.m, r.source, r.size, r.addr, report, data, p, q);
      }
    case DoBeat(p, q) =>
      var w := s.c.writing.value;
      AckDataPort(s.m, w.source, w.size, w.addr, w.report, At(s.c.cache, Nth(WordOf(w.addr), w.sent)), p, q);
  }

  lemma AckPort(m: Manager, source: int, addr: int, report: Report, p: int, q: int)
    ensures var n := OnProbeAck(m, source, addr, report, p, q); n.Some? ==> n.value.dPort == m.dPort
  {
    hide Acked, BlockOf, Clear;
    var m1 := Reported(m, BlockOf(addr), report);
    if Acked(m1, source, p, q).Some? {
      AckedPort(m1, source, p, q);
    }
  }

  lemma AckDataPort(m: Manager, source: int, size: nat, addr: int, report: Report, data: Word, p: int, q: int)
    ensures var n := OnProbeAckData(m, source, size, addr, report, data, p, q); n.Some? ==> n.value.dPort == m.dPort
  {
    hide Acked, BlockOf, WordOf, BurstLen, Clear, Counted;
    var m1 := Reported(Stored(m, source, addr, data).(cBurst := Counted(m.cBurst, source, BurstLen(size))), BlockOf(addr), report);
    if Acked(m1, source, p, q).Some? {
      AckedPort(m1, source, p, q);
    }
  }

  // ---------- The log of every run is right ----------

  lemma AwaitedMore(open: seq<Ask>, queue: seq<Request>, a: Ask)
    requires Awaited(open, queue) && Proper(a)
    ensures Awaited(open + [a], queue + [Meant(a)])
  {
    hide Meant;
  }

  lemma AwaitedLess(open: seq<Ask>, queue: seq<Request>)
    requires Awaited(open, queue) && open != []
    ensures Awaited(open[1..], queue[1..])
  {
    hide Meant;
  }

  lemma StepHonest(s: Sys, log: Log, step: Step)
    requires Inv(s) && Enabled(s, step) && Honest(s, log)
    ensures Apply(s, step).Some? && Honest(Apply(s, step).value, Note(s, log, step))
  {
    hide Inv, Enabled, Apply, Answers, Honest, Note;
    if step.TakeD? {
      TakeHonest(s, log, step);
    } else if Answers(s, step) {
      AnswerHonest(s, log, step);
    } else {
      PlainHonest(s, log, step);
    }
  }

  lemma Survived(s: Sys, step: Step)
    requires Inv(s) && Enabled(s, step)
    ensures Apply(s, step).Some?
    ensures Answers(s, step) ==> InOrder(s, Apply(s, step).value, true)
    ensures !Answers(s, step) ==> Queue(Apply(s, step).value) == Queue(s) + Added(s, step)
  {
    hide Inv, Enabled, Apply, Answers, InOrder, Queue, Added;
    StepKeeps(s, step);
  }

  lemma TakeHonest(s: Sys, log: Log, step: Step)
    requires Inv(s) && Enabled(s, step) && Honest(s, log) && step.TakeD?
    ensures Apply(s, step).Some? && Honest(Apply(s, step).value, Note(s, log, step))
  {
    hide Inv, Enabled, Apply, Answers, Queue, Flight, Waits, Awaited;
    Survived(s, step);
    TakeSays(s);
    TakeWaits(s, step);
    var t := Apply(s, step).value;
    assert Queue(s) + [] == Queue(s);
    assert log.taken + [s.m.dPort.value] + Flight(t.m) == log.taken + ([s.m.dPort.value] + Flight(t.m));
  }

  lemma AnswerHonest(s: Sys, log: Log, step: Step)
    requires Inv(s) && Enabled(s, step) && Honest(s, log) && Answers(s, step)
    ensures Apply(s, step).Some? && Honest(Apply(s, step).value, Note(s, log, step))
  {
    hide Inv, Enabled, Apply, Answers, Reply, Queue, Flight, Waits, Prompt, Receipt, InOrder, Awaited, Further;
    Survived(s, step);
    var t := Apply(s, step).value;
    AnswerSays(s, step, log.open);
    AnswerAwaited(s, t, log.open);
    OpenSplit(log.open, Further(log.open[0]));
    TakesNot(s, step);
    assert log.taken + Flight(s.m) + Reply(log.open[0], s.latest) == log.taken + (Flight(s.m) + Reply(log.open[0], s.latest));
  }

  lemma TakesNot(s: Sys, step: Step)
    requires Enabled(s, step) && Answers(s, step)
    ensures !step.TakeD?
  {
    hide Enabled;
  }

  lemma PlainHonest(s: Sys, log: Log, step: Step)
    requires Inv(s) && Enabled(s, step) && Honest(s, log) && !Answers(s, step) && !step.TakeD?
    ensures Apply(s, step).Some? && Honest(Apply(s, step).value, Note(s, log, step))
  {
    hide Inv, Enabled, Apply, Answers, Reply, Replied, Queue, Meant, Flight, Waits, Prompt, Receipt, Awaited;
    Survived(s, step);
    PlainSays(s, step);
    var w, p := Waits(s, step), Prompt(s, step);
    if w.Some? {
      AwaitedMore(log.open, Queue(s), w.value);
      NoPrompt(s, step);
    } else {
      assert log.open + [] == log.open && Queue(s) + [] == Queue(s);
    }
    assert log.taken + (Flight(s.m) + (Replied(p, s.latest) + Receipt(s, step)))
           == log.taken + Flight(s.m) + Replied(p, s.latest) + Receipt(s, step);
  }

  lemma NoPrompt(s: Sys, step: Step)
    requires Waits(s, step).Some?
    ensures Prompt(s, step) == []
  {
  }

  lemma TakeSays(s: Sys)
    requires Enabled(s, TakeD)
    ensures s.m.dPort.Some? && Apply(s, TakeD).Some? && [s.m.dPort.value] + Flight(Apply(s, TakeD).value.m) == Flight(s.m)
  {
  }

  lemma TakeWaits(s: Sys, step: Step)
    requires Enabled(s, step) && step.TakeD?
    ensures Waits(s, step).None? && !Answers(s, step)
  {
    hide Enabled;
  }

  lemma AnswerAwaited(s: Sys, t: Sys, open: seq<Ask>)
    requires Inv(s) && Out(s) != [] && Awaited(open, Queue(s)) && InOrder(s, t, true)
    ensures open != [] && Awaited(open[1..] + Further(open[0]), Queue(t))
  {
    hide Inv, Queue, Meant, Fits, Served;
    OldestAsk(s);
    HeldBlock(s, open[0]);
    ServedIs(open[0], s.latest);
    AwaitedLess(open, Queue(s));
    if Further(open[0]) == [] {
      assert open[1..] + [] == open[1..];
    } else {
      AwaitedMore(open[1..], Queue(s)[1..], Further(open[0])[0]);
    }
  }

  lemma OpenSplit(open: seq<Ask>, more: seq<Ask>)
    requires open != []
    ensures multiset(open) == multiset(open[1..]) + multiset([open[0]])
    ensures multiset(open[1..] + more) == multiset(open[1..]) + multiset(more)
  {
    assert open == [open[0]] + open[1..];
  }

  lemma {:induction false} RunHonest(s: Sys, log: Log, steps: seq<Step>)
    requires Inv(s) && Disciplined(s, steps) && Honest(s, log)
    ensures Run(s, steps).Some? && Honest(Run(s, steps).value, Watch(s, log, steps))
    decreases |steps|
  {
    hide Inv, Enabled, Apply, Honest, Note;
    if steps != [] {
      StepKeeps(s, steps[0]);
      StepHonest(s, log, steps[0]);
      RunHonest(Apply(s, steps[0]).value, Note(s, log, steps[0]), steps[1..]);
    }
  }

  /**
   In every run each Get and each acquire is answered once or still open, in the order of
   asking among those that wait; an answer is made of the words last written, under the
   asker's own source; and the core has been told what was owed, in that order, and nothing else.
   */
  lemma EveryReply(mem: map<int, Word>, sources: set<int>, steps: seq<Step>)
    requires Disciplined(Initial(mem, sources), steps)
    ensures Run(Initial(mem, sources), steps).Some?
    ensures Honest(Run(Initial(mem, sources), steps).value, Watch(Initial(mem, sources), NO_LOG, steps))
  {
    hide Inv, Disciplined, Run, Watch;
    InitialKeeps(mem, sources);
    NothingAsked(mem, sources);
    RunHonest(Initial(mem, sources), NO_LOG, steps);
  }

  lemma NothingAsked(mem: map<int, Word>, sources: set<int>)
    ensures Honest(Initial(mem, sources), NO_LOG)
  {
  }
}
