/**
 The TileLink TL-C adapter of adapter.py and utils.py as a state machine: one function per
 iteration of one of its coroutines, on the state they share.

 A handler that meets a failing assertion, or a path that cannot run as written, returns
 `None`. Random choices from a free list are parameters.
 */
module TileLink {
  import opened Options
  import opened Bytes

  // ---------- Words, blocks, messages ----------

  const BEATS: int := 8

  const NOP_DATA: bytes := [0, 0, 0, 0, 0, 0, 0, 0]

  /** The content of one data port, byte `i` selected by mask bit `i`. */
  type Word = w: bytes | |w| == 8 witness NOP_DATA

  type Mask = m: seq<bool> | |m| == 8 witness [false, false, false, false, false, false, false, false]

  /** How often `n` goes into `a`, rounded down. */
  function Quot(a: int, n: int): (q: int)
    requires n > 0
    ensures n == 8 ==> 8 * q <= a < 8 * q + 8
    ensures n == 16 ==> 16 * q <= a < 16 * q + 16
    ensures n == 32 ==> 32 * q <= a < 32 * q + 32
    ensures n == 64 ==> 64 * q <= a < 64 * q + 64
    decreases if a < 0 then n - a else a
  {
    if a < 0 then Quot(a + n, n) - 1 else if a < n then 0 else Quot(a - n, n) + 1
  }

  function BlockOf(a: int): (b: int)
    ensures b <= a < b + 64
  {
    64 * Quot(a, 64)
  }

  function WordOf(a: int): (w: int)
    ensures w <= a < w + 8
  {
    8 * Quot(a, 8)
  }

  /** Blocks and words are the multiples of 64 and of 8 below the address. */
  lemma AddressParts(a: int) returns (k: int, j: int)
    ensures BlockOf(a) == 64 * k && WordOf(a) == 8 * j
    ensures 64 * k <= a < 64 * (k + 1) && 8 * j <= a < 8 * (j + 1)
  {
    k, j := Quot(a, 64), Quot(a, 8);
  }

  /** The address is a multiple of 64. */
  predicate IsBlock(a: int) {
    BlockOf(a) == a
  }

  /** The address is a multiple of 8. */
  predicate IsWord(a: int) {
    WordOf(a) == a
  }

  /** The address of the word `k` places behind `a`. */
  function Nth(a: int, k: int): int {
    a + 8 * k
  }

  /** Beats of a message of `2^size` bytes. */
  function BurstLen(size: nat): (n: nat)
    ensures n >= 1
  {
    if size <= 3 then 1 else 2 * BurstLen(size - 1)
  }

  /** What the memory dictionary holds at an address it may not list yet. */
  function At(mem: map<int, Word>, a: int): Word {
    if a in mem then mem[a] else NOP_DATA
  }

  datatype Perm = TIP | TRUNK

  datatype Cap = ToT | ToB | ToN

  datatype Grow = NtoB | NtoT | BtoT

  datatype Report = TtoB | TtoN | BtoN | TtoT | BtoB | NtoN

  /** What is done once a probe is answered. */
  datatype Callback =
    | AnswerGet(len: nat, addr: int, source: int)
    | GrantBlock(cap: Cap, sink: int, len: nat, addr: int, source: int)
    | EnableProbe
    | ShutdownRest(rest: seq<int>)

  /** A probe that is wanted, with what its answer is for. */
  datatype Request = Request(cap: Cap, size: nat, addr: int, callback: Callback)

  /** A message on channel B. */
  datatype Probe = Probe(cap: Cap, size: nat, source: int, addr: int)

  /** A message on channel D. The block of a grant is the one its source asked for. */
  datatype DMsg =
    | AccessAckData(source: int, data: Word)
    | AccessAck(source: int)
    | ReleaseAck(source: int)
    | GrantData(cap: Cap, sink: int, source: int, block: int, data: Word)

  /** A queued message; `grant` is the permission update that runs when it is sent. */
  datatype DEntry = DEntry(msg: DMsg, grant: Option<(int, Cap)>)

  datatype Manager = Manager(
    mem: map<int, Word>, perm: map<int, Perm>,
    dq: seq<DEntry>, dPort: Option<DMsg>,
    bq: seq<Probe>, bPort: Option<Probe>,
    all: set<int>, free: set<int>, waiting: seq<Request>, calls: map<int, Callback>,
    sinks: set<int>, ongoing: map<int, int>,
    aBurst: map<int, nat>, cBurst: map<int, nat>,
    drive: bool, probeEn: bool)

  const SINKS: set<int> := {0, 1, 2, 3}

  /** The state that `drive_input` sets up for a memory and a list of probe sources. */
  function Started(mem: map<int, Word>, all: set<int>): Manager {
    Manager(mem, map a | a in mem :: BlockOf(a) := TIP, [], None, [], None, all, all, [], map[],
            SINKS, map[], map[], map[], true, true)
  }

  function PermOf(m: Manager, b: int): Perm {
    if b in m.perm then m.perm[b] else TIP
  }

  // ---------- Probe sources ----------

  /** `retrieveBlock_cb`: sends the probe under a free source and stores its callback. */
  function Send(m: Manager, r: Request, pick: int): Option<Manager> {
    if pick !in m.free || pick !in m.all || pick in m.calls then None
    else Some(m.(free := m.free - {pick}, calls := m.calls[pick := r.callback],
                 bq := m.bq + [Probe(r.cap, r.size, pick, r.addr)]))
  }

  /** `retrieveBlock`: sends the probe, or queues it until a source is released. */
  function Retrieve(m: Manager, r: Request, pick: int): Option<Manager> {
    if m.free != {} then Send(m, r, pick)
    else Some(m.(waiting := m.waiting + [r]))
  }

  /** `probe_blocks_rec`. */
  function ProbeNext(m: Manager, addrs: seq<int>, pick: int): Option<Manager> {
    if addrs == [] then Some(m.(drive := false))
    else Retrieve(m, Request(ToN, 6, addrs[0], ShutdownRest(addrs[1..])), pick)
  }

  // ---------- Answers ----------

  /** The messages that `get_d_messages` builds for a Get. */
  function Answer(mem: map<int, Word>, len: nat, addr: int, source: int): (q: seq<DEntry>)
    ensures |q| == len
  {
    seq(len, i => DEntry(AccessAckData(source, At(mem, Nth(addr, i))), None))
  }

  /** The grant burst; the permission changes when its first beat is sent. */
  function Grant(mem: map<int, Word>, len: nat, addr: int, cap: Cap, sink: int, source: int): (q: seq<DEntry>)
    ensures |q| == len
  {
    seq(len, i => DEntry(GrantData(cap, sink, source, BlockOf(addr), At(mem, Nth(addr, i))),
                         if i == 0 then Some((BlockOf(addr), cap)) else None))
  }

  /** Reading `len` words lists the missing ones in the dictionary. */
  function Touch(mem: map<int, Word>, addr: int, len: nat): (r: map<int, Word>)
    ensures forall a :: At(r, a) == At(mem, a)
    decreases len
  {
    if len == 0 then mem
    else Touch(if addr in mem then mem else mem[addr := NOP_DATA], addr + 8, len - 1)
  }

  function PushAnswer(m: Manager, len: nat, addr: int, source: int): Manager {
    m.(mem := Touch(m.mem, addr, len), dq := m.dq + Answer(m.mem, len, addr, source))
  }

  function PushGrant(m: Manager, len: nat, addr: int, cap: Cap, sink: int, source: int): Manager {
    m.(mem := Touch(m.mem, addr, len), ongoing := m.ongoing[sink := BlockOf(addr)],
       dq := m.dq + Grant(m.mem, len, addr, cap, sink, source))
  }

  function RunCallback(m: Manager, cb: Callback, pick: int): Option<Manager> {
    match cb
    case AnswerGet(len, addr, source) => Some(PushAnswer(m, len, addr, source))
    case GrantBlock(cap, sink, len, addr, source) => Some(PushGrant(m, len, addr, cap, sink, source))
    case EnableProbe => Some(m.(probeEn := true))
    case ShutdownRest(rest) => ProbeNext(m, rest, pick)
  }

  /** `srcToCallback.call`. */
  function CallBack(m: Manager, source: int, pick: int): Option<Manager> {
    if source !in m.all then None
    else if source in m.calls then RunCallback(m.(calls := m.calls - {source}), m.calls[source], pick)
    else Some(m)
  }

  /** `FreeList.release` of a probe source: the longest waiting request gets it. */
  function Release(m: Manager, source: int, pick: int): Option<Manager> {
    if source !in m.all || source in m.free then None
    else
      var m1 := m.(free := m.free + {source});
      if m.waiting == [] then Some(m1)
      else Send(m1.(waiting := m.waiting[1..]), m.waiting[0], pick)
  }

  /** A probe is answered: its callback runs, then its source is released. */
  function Acked(m: Manager, source: int, p: int, q: int): Option<Manager> {
    match CallBack(m, source, p)
    case None => None
    case Some(m1) => Release(m1, source, q)
  }

  // ---------- Channel A ----------

  /** Messages on one channel are not interleaved. */
  predicate Clear(burst: map<int, nat>, source: int) {
    burst == map[] || source in burst
  }

  function Beat(burst: map<int, nat>, source: int): nat {
    if source in burst then burst[source] else 0
  }

  /** Counts one more beat of a burst of `len`. */
  function Counted(burst: map<int, nat>, source: int, len: nat): map<int, nat> {
    var count := Beat(burst, source);
    if count + 1 != len then burst[source := count + 1]
    else if count > 0 then burst - {source}
    else burst
  }

  function Listed(m: Manager, b: int): Manager {
    m.(perm := m.perm[b := PermOf(m, b)])
  }

  function OnGet(m: Manager, source: int, size: nat, addr: int, pick: int): Option<Manager> {
    var b := BlockOf(addr);
    var m1 := Listed(m, b);
    if !Clear(m.aBurst, source) then None
    else if PermOf(m, b) != TIP then
      Retrieve(m1, Request(ToT, size, addr, AnswerGet(BurstLen(size), WordOf(addr), source)), pick)
    else Some(PushAnswer(m1, BurstLen(size), WordOf(addr), source))
  }

  /** The bytes that the mask selects, the old ones elsewhere. */
  function Masked(was: Word, mask: Mask, data: Word): Word {
    seq(8, i requires 0 <= i < 8 => if mask[i] then data[i] else was[i])
  }

  /** One beat of PutFullData or PutPartialData. On a block that is not TIP the callback cannot run. */
  function OnPut(m: Manager, source: int, size: nat, addr: int, mask: Mask, data: Word): Option<Manager> {
    var b := BlockOf(addr);
    var m1 := Listed(m, b);
    if !Clear(m.aBurst, source) || PermOf(m, b) != TIP then None
    else
      var a := Nth(WordOf(addr), Beat(m.aBurst, source));
      var last := Beat(m.aBurst, source) + 1 == BurstLen(size);
      Some(m1.(mem := m.mem[a := Masked(At(m.mem, a), mask, data)],
               dq := m.dq + if last then [DEntry(AccessAck(source), None)] else [],
               aBurst := Counted(m.aBurst, source, BurstLen(size))))
  }

  function Granted(grow: Grow): Cap {
    if grow == NtoB then ToB else ToT
  }

  function OnAcquireBlock(m: Manager, grow: Grow, source: int, size: nat, addr: int, sink: int, pick: int): Option<Manager> {
    var b := BlockOf(addr);
    var m1 := m.(perm := m.perm[b := PermOf(m, b)], sinks := m.sinks - {sink});
    var cap := Granted(grow);
    if !Clear(m.aBurst, source) || sink !in m.sinks then None
    else if PermOf(m, b) != TIP then
      Retrieve(m1, Request(if grow == NtoB then ToB else ToN, size, addr,
                           GrantBlock(cap, sink, BurstLen(size), WordOf(addr), source)), pick)
    else Some(PushGrant(m1, BurstLen(size), WordOf(addr), cap, sink, source))
  }

  // ---------- Channel C ----------

  /** A report of giving up T makes the block TIP again. */
  function Reported(m: Manager, b: int, report: Report): Manager {
    if report == TtoB || report == TtoN then m.(perm := m.perm[b := TIP]) else m
  }

  function OnProbeAck(m: Manager, source: int, addr: int, report: Report, p: int, q: int): Option<Manager> {
    if !Clear(m.cBurst, source) then None
    else Acked(Reported(m, BlockOf(addr), report), source, p, q)
  }

  /** One beat of data from the client. */
  function Stored(m: Manager, source: int, addr: int, data: Word): Manager {
    m.(mem := m.mem[Nth(WordOf(addr), Beat(m.cBurst, source)) := data])
  }

  function OnProbeAckData(m: Manager, source: int, size: nat, addr: int, report: Report, data: Word, p: int, q: int): Option<Manager> {
    var m1 := Stored(m, source, addr, data).(cBurst := Counted(m.cBurst, source, BurstLen(size)));
    if !Clear(m.cBurst, source) then None
    else if Beat(m.cBurst, source) + 1 == BurstLen(size) then
      Acked(Reported(m1, BlockOf(addr), report), source, p, q)
    else Some(m1)
  }

  function OnRelease(m: Manager, source: int, addr: int, report: Report): Option<Manager> {
    if !Clear(m.cBurst, source) then None
    else
      var m1 := Reported(m, BlockOf(addr), report);
      Some(m1.(dq := m1.dq + [DEntry(ReleaseAck(source), None)]))
  }

  function OnReleaseData(m: Manager, source: int, size: nat, addr: int, report: Report, data: Word): Option<Manager> {
    var m1 := Stored(m, source, addr, data).(cBurst := Counted(m.cBurst, source, BurstLen(size)));
    if !Clear(m.cBurst, source) then None
    else if Beat(m.cBurst, source) + 1 == BurstLen(size) then
      var m2 := Reported(m1, BlockOf(addr), report);
      Some(m2.(dq := m2.dq + [DEntry(ReleaseAck(source), None)]))
    else Some(m1)
  }

  // ---------- Channel E and the drivers ----------

  function OnGrantAck(m: Manager, sink: int): Option<Manager> {
    if sink !in SINKS || sink in m.sinks || sink !in m.ongoing then None
    else Some(m.(sinks := m.sinks + {sink}, ongoing := m.ongoing - {sink}))
  }

  /** The D driver takes the next message; a grant of T is recorded now. */
  function SendD(m: Manager): Manager
    requires m.dPort.None? && m.dq != []
  {
    var e := m.dq[0];
    m.(dq := m.dq[1..], dPort := Some(e.msg),
       perm := if e.grant.Some? && e.grant.value.1 == ToT then m.perm[e.grant.value.0 := TRUNK] else m.perm)
  }

  function SendB(m: Manager): Manager
    requires m.bPort.None? && m.bq != []
  {
    m.(bq := m.bq[1..], bPort := Some(m.bq[0]))
  }

  /** The host interface probes the block of an address it is told to look at. */
  function OnHostProbe(m: Manager, addr: int, pick: int): Option<Manager> {
    if !m.probeEn || addr in m.ongoing.Values then Some(m)
    else if BlockOf(addr) !in m.perm then None
    else if PermOf(m, BlockOf(addr)) == TIP then Some(m)
    else Retrieve(m.(probeEn := false), Request(ToN, 6, addr, EnableProbe), pick)
  }
}
