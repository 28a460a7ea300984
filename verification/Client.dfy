/**
 The core under test as the adapter's environment, and the runs of both together.

 The core answers each probe once and in the order received, reports its permissions
 truthfully, keeps at most one acquire outstanding per block and no more of them than the
 adapter has sinks, and does not interleave the beats of a message. It does not write through
 the adapter to a block that it holds or is acquiring. The host asks only for probes of
 blocks that the adapter has listed.
 */
module Client {
  import opened Options
  import opened Bytes
  import opened TileLink

  datatype Held = N | B | T

  /** An acquire not yet acknowledged: what it asked for and how many beats of the grant came. */
  datatype Acq = Acq(cap: Cap, sink: int, arrived: nat)

  /** A message with data under way on channel C; `fromT` when it writes back an exclusive copy. */
  datatype Writing = Writing(ack: Option<Probe>, source: int, addr: int, size: nat, report: Report, fromT: bool, sent: nat)

  /** A write burst under way on channel A. */
  datatype Putting = Putting(source: int, addr: int, size: nat, sent: nat)

  datatype Core = Core(
    held: map<int, Held>, cache: map<int, Word>, dirty: set<int>, acq: map<int, Acq>,
    probes: seq<Probe>, writing: Option<Writing>, putting: Option<Putting>)

  /**
   The adapter, the core, the value last written to each word, and the history of the
   shutdown: the blocks listed when it began and those whose probes were answered.
   */
  datatype Sys = Sys(m: Manager, c: Core, latest: map<int, Word>, listed: Option<seq<int>>, done: seq<int>)

  function HeldOf(held: map<int, Held>, b: int): Held {
    if b in held then held[b] else N
  }

  predicate BusyOn(writing: Option<Writing>, b: int) {
    writing.Some? && BlockOf(writing.value.addr) == b
  }

  /** A grant for the block has begun to arrive and has not fully arrived. */
  predicate Filling(acq: map<int, Acq>, b: int) {
    b in acq && 0 < acq[b].arrived < BEATS
  }

  /** A message of more than one beat is aligned to its size; none is larger than a block. */
  predicate Aligned(addr: int, size: nat) {
    || size <= 3
    || (size == 4 && addr == 16 * Quot(addr, 16))
    || (size == 5 && addr == 32 * Quot(addr, 32))
    || (size == 6 && IsBlock(addr))
  }

  /** The words of a message of `2^size` bytes. */
  predicate InRange(w: int, addr: int, size: nat) {
    IsWord(w) && WordOf(addr) <= w < Nth(WordOf(addr), BurstLen(size))
  }

  /** What a core that holds `h` reports when its permission is capped. */
  function Truthful(h: Held, cap: Cap): Report {
    match h
    case N => NtoN
    case B => if cap == ToN then BtoN else BtoB
    case T => if cap == ToN then TtoN else if cap == ToB then TtoB else TtoT
  }

  function After(r: Report): Held {
    match r
    case TtoT => T
    case TtoB => B
    case BtoB => B
    case TtoN => N
    case BtoN => N
    case NtoN => N
  }

  /** A release gives something up. */
  predicate Prunes(h: Held, r: Report) {
    match h
    case N => false
    case B => r == BtoN
    case T => r == TtoB || r == TtoN
  }

  /** Giving up T without data, nothing may be lost; a copy kept as T may stay modified elsewhere. */
  predicate CleanFor(dirty: set<int>, report: Report, addr: int, size: nat) {
    forall w :: w in dirty && BlockOf(w) == BlockOf(addr) ==> report == TtoT && !InRange(w, addr, size)
  }

  /** Giving up T with data, the data covers what was modified. */
  predicate CoveredBy(dirty: set<int>, report: Report, addr: int, size: nat) {
    forall w :: w in dirty && BlockOf(w) == BlockOf(addr) ==> report == TtoT || InRange(w, addr, size)
  }

  datatype Step =
    | DoGet(source: int, size: nat, addr: int, pick: int)
    | DoPut(source: int, size: nat, addr: int, mask: Mask, data: Word)
    | DoAcquire(grow: Grow, source: int, addr: int, sink: int, pick: int)
    | DoProbeAck(p: int, q: int)
    | DoProbeData(p: int, q: int)
    | DoRelease(source: int, block: int, report: Report)
    | DoReleaseData(source: int, block: int, report: Report)
    | DoBeat(p: int, q: int)
    | DoStore(addr: int, data: Word)
    | DoGrantAck(block: int)
    | TakeD
    | TakeB
    | SendsD
    | SendsB
    | HostProbe(addr: int, pick: int)
    | Shutdown(addrs: seq<int>, pick: int)

  /** The blocks that `probe_blocks` lists, in any order. */
  predicate ToProbe(m: Manager, addrs: seq<int>) {
    && (forall i :: 0 <= i < |addrs| ==> addrs[i] in m.perm && m.perm[addrs[i]] != TIP)
    && (forall b :: b in m.perm && m.perm[b] != TIP ==> b in addrs)
  }

  /** The source that the next request may be sent under, whatever was chosen before. */
  predicate Picks(m: Manager, pick: int) {
    m.free != {} ==> pick in m.free
  }

  /** On an answer the released source may be picked as well. */
  predicate Repicks(m: Manager, source: int, p: int, q: int) {
    Picks(m, p) && (q == source || q in m.free)
  }

  /** What the environment may do. */
  predicate Enabled(s: Sys, step: Step) {
    var m, c := s.m, s.c;
    && m.drive
    && match step
       case DoGet(source, size, addr, pick) =>
         c.putting.None? && 0 <= addr && Aligned(addr, size) && Picks(m, pick)
       case DoPut(source, size, addr, mask, data) =>
         && 0 <= addr && Aligned(addr, size)
         && HeldOf(c.held, BlockOf(addr)) == N && BlockOf(addr) !in c.acq && !BusyOn(c.writing, BlockOf(addr))
         && (c.putting.Some? ==> c.putting.value.(sent := 0) == Putting(source, addr, size, 0))
       case DoAcquire(grow, source, addr, sink, pick) =>
         && c.putting.None? && 0 <= addr && IsBlock(addr) && addr !in c.acq
         && HeldOf(c.held, addr) == (if grow == BtoT then B else N)
         && |c.acq| < |SINKS| && (m.sinks != {} ==> sink in m.sinks) && Picks(m, pick)
       case DoProbeAck(p, q) =>
         && c.writing.None? && c.probes != [] && Repicks(m, c.probes[0].source, p, q)
         && var r := c.probes[0];
            !Filling(c.acq, BlockOf(r.addr)) && CleanFor(c.dirty, Truthful(HeldOf(c.held, BlockOf(r.addr)), r.cap), r.addr, r.size)
       case DoProbeData(p, q) =>
         && c.writing.None? && c.probes != [] && Repicks(m, c.probes[0].source, p, q)
         && var r := c.probes[0];
            !Filling(c.acq, BlockOf(r.addr)) && HeldOf(c.held, BlockOf(r.addr)) != N
            && CoveredBy(c.dirty, Truthful(HeldOf(c.held, BlockOf(r.addr)), r.cap), r.addr, r.size)
       case DoRelease(source, block, report) =>
         && c.writing.None? && 0 <= block && IsBlock(block) && !Filling(c.acq, block)
         && Prunes(HeldOf(c.held, block), report) && CleanFor(c.dirty, report, block, 6)
       case DoReleaseData(source, block, report) =>
         && c.writing.None? && 0 <= block && IsBlock(block) && !Filling(c.acq, block)
         && Prunes(HeldOf(c.held, block), report)
       case DoBeat(p, q) => c.writing.Some? && Repicks(m, c.writing.value.source, p, q)
       case DoStore(addr, data) =>
         0 <= addr && IsWord(addr) && HeldOf(c.held, BlockOf(addr)) == T && !BusyOn(c.writing, BlockOf(addr))
       case DoGrantAck(block) => block in c.acq && c.acq[block].arrived == BEATS
       case TakeD => m.dPort.Some?
       case TakeB => m.bPort.Some?
       case SendsD => m.dPort.None? && m.dq != []
       case SendsB => m.bPort.None? && m.bq != []
       case HostProbe(addr, pick) => 0 <= addr && IsBlock(addr) && addr in m.perm && Picks(m, pick)
       case Shutdown(addrs, pick) => s.listed.None? && ToProbe(m, addrs) && Picks(m, pick)
  }

  // ---------- Steps ----------

  function With(s: Sys, m: Option<Manager>): Option<Sys> {
    match m
    case None => None
    case Some(x) => Some(s.(m := x))
  }

  /** The callback that an answer under `source` will run belongs to the shutdown. */
  predicate ForShutdown(m: Manager, source: int) {
    source in m.calls && m.calls[source].ShutdownRest?
  }

  /** The next beat of the message under way on channel C. */
  function WriteBeat(s: Sys, p: int, q: int): Option<Sys>
    requires s.c.writing.Some?
  {
    var w := s.c.writing.value;
    var a := Nth(WordOf(w.addr), w.sent);
    var last := w.sent + 1 == BurstLen(w.size);
    var data := At(s.c.cache, a);
    var c1 := s.c.(dirty := s.c.dirty - {a}, writing := if last then None else Some(w.(sent := w.sent + 1)));
    var m1 := if w.ack.Some? then OnProbeAckData(s.m, w.source, w.size, w.addr, w.report, data, p, q)
              else OnReleaseData(s.m, w.source, w.size, w.addr, w.report, data);
    var done := if last && w.ack.Some? && ForShutdown(s.m, w.source) then s.done + [w.addr] else s.done;
    With(s.(c := c1, done := done), m1)
  }

  /** A beat of a grant arrives; the last one brings the permission. */
  function Fill(c: Core, b: int, data: Word): Core {
    if b !in c.acq then c
    else
      var a := c.acq[b];
      c.(cache := c.cache[Nth(b, a.arrived) := data],
         acq := c.acq[b := a.(arrived := a.arrived + 1)],
         held := if a.arrived + 1 == BEATS then c.held[b := if a.cap == ToT then T else B] else c.held)
  }

  /** The step brings the last beat of an answer to a probe. */
  predicate Answers(s: Sys, step: Step)
    requires Enabled(s, step)
  {
    match step
    case DoProbeAck(p, q) => true
    case DoProbeData(p, q) => BurstLen(s.c.probes[0].size) == 1
    case DoBeat(p, q) => s.c.writing.value.ack.Some? && s.c.writing.value.sent + 1 == BurstLen(s.c.writing.value.size)
    case _ => false
  }

  function Apply(s: Sys, step: Step): Option<Sys>
    requires Enabled(s, step)
  {
    var m, c := s.m, s.c;
    match step
    case DoGet(source, size, addr, pick) => With(s, OnGet(m, source, size, addr, pick))
    case DoPut(source, size, addr, mask, data) =>
      var sent := if c.putting.Some? then c.putting.value.sent else 0;
      var a := Nth(WordOf(addr), sent);
      With(s.(latest := s.latest[a := Masked(At(s.latest, a), mask, data)],
              c := c.(putting := if sent + 1 == BurstLen(size) then None else Some(Putting(source, addr, size, sent + 1)))),
           OnPut(m, source, size, addr, mask, data))
    case DoAcquire(grow, source, addr, sink, pick) =>
      With(s.(c := c.(acq := c.acq[addr := Acq(Granted(grow), sink, 0)])),
           OnAcquireBlock(m, grow, source, 6, addr, sink, pick))
    case DoProbeAck(p, q) =>
      var r := c.probes[0];
      var report := Truthful(HeldOf(c.held, BlockOf(r.addr)), r.cap);
      With(s.(c := c.(held := c.held[BlockOf(r.addr) := After(report)], probes := c.probes[1..]),
              done := if ForShutdown(m, r.source) then s.done + [r.addr] else s.done),
           OnProbeAck(m, r.source, r.addr, report, p, q))
    case DoProbeData(p, q) =>
      var r := c.probes[0];
      var h := HeldOf(c.held, BlockOf(r.addr));
      var report := Truthful(h, r.cap);
      WriteBeat(s.(c := c.(held := c.held[BlockOf(r.addr) := After(report)], probes := c.probes[1..],
                           writing := Some(Writing(Some(r), r.source, r.addr, r.size, report, h == T, 0)))), p, q)
    case DoRelease(source, block, report) =>
      With(s.(c := c.(held := c.held[block := After(report)])), OnRelease(m, source, block, report))
    case DoReleaseData(source, block, report) =>
      WriteBeat(s.(c := c.(held := c.held[block := After(report)],
                           writing := Some(Writing(None, source, block, 6, report, HeldOf(c.held, block) == T, 0)))), 0, 0)
    case DoBeat(p, q) => WriteBeat(s, p, q)
    case DoStore(addr, data) =>
      Some(s.(latest := s.latest[addr := data], c := c.(cache := c.cache[addr := data], dirty := c.dirty + {addr})))
    case DoGrantAck(block) =>
      With(s.(c := c.(acq := c.acq - {block})), OnGrantAck(m, c.acq[block].sink))
    case TakeD =>
      var msg := m.dPort.value;
      Some(s.(m := m.(dPort := None), c := if msg.GrantData? then Fill(c, msg.block, msg.data) else c))
    case TakeB => Some(s.(m := m.(bPort := None), c := c.(probes := c.probes + [m.bPort.value])))
    case SendsD => Some(s.(m := SendD(m)))
    case SendsB => Some(s.(m := SendB(m)))
    case HostProbe(addr, pick) => With(s, OnHostProbe(m, addr, pick))
    case Shutdown(addrs, pick) => With(s.(listed := Some(addrs)), ProbeNext(m, addrs, pick))
  }

  /** Every step of the run is one that the environment may take where it is taken. */
  predicate Disciplined(s: Sys, steps: seq<Step>)
    decreases |steps|
  {
    steps == [] ||
    (Enabled(s, steps[0]) &&
     match Apply(s, steps[0])
     case None => true
     case Some(t) => Disciplined(t, steps[1..]))
  }

  /** Where a run leads; nowhere when a handler fails. */
  function Run(s: Sys, steps: seq<Step>): Option<Sys>
    requires Disciplined(s, steps)
    decreases |steps|
  {
    if steps == [] then Some(s)
    else
      match Apply(s, steps[0])
      case None => None
      case Some(t) => Run(t, steps[1..])
  }

  /** The system before the first step. */
  function Initial(mem: map<int, Word>, sources: set<int>): Sys {
    Sys(Started(mem, sources), Core(map[], map[], {}, map[], [], None, None), mem, None, [])
  }
}
