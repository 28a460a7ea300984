/**
 What every reachable state of the TileLink system keeps: exclusive copies are recorded,
 the memory is current wherever the core cannot have modified it, grants in flight carry
 current data, and the bookkeeping of probes is exact.
 */
module Invariant {
  import opened Options
  import opened Bytes
  import opened TileLink
  import opened Client
  import opened Sources

  // ---------- Outstanding probes and pending requests ----------

  /** The probes sent and not answered, oldest first. */
  function Out(s: Sys): seq<Probe> {
    (if s.c.writing.Some? then OptSeq(s.c.writing.value.ack) else []) + s.c.probes + OptSeq(s.m.bPort) + s.m.bq
  }

  /** A request that fits its callback, and a callback that fits the state. */
  ghost predicate Fits(r: Request, acq: map<int, Acq>, ongoing: map<int, int>, listed: Option<seq<int>>, done: seq<int>) {
    match r.callback
    case AnswerGet(len, addr, source) =>
      r.cap == ToT && Aligned(r.addr, r.size) && addr == WordOf(r.addr) && len == BurstLen(r.size)
    case GrantBlock(cap, sink, len, addr, source) =>
      && r.size == 6 && IsBlock(r.addr) && r.cap == (if cap == ToB then ToB else ToN)
      && addr == r.addr && len == BEATS && addr in acq && acq[addr] == Acq(cap, sink, 0) && sink !in ongoing
    case EnableProbe => r.cap == ToN && r.size == 6 && IsBlock(r.addr)
    case ShutdownRest(rest) =>
      && r.cap == ToN && r.size == 6 && IsBlock(r.addr)
      && listed.Some? && listed.value == done + [r.addr] + rest
  }

  /** Of such callbacks only one can be pending. */
  predicate Kin(a: Callback, b: Callback) {
    || (a.GrantBlock? && b.GrantBlock? && a.addr == b.addr)
    || (a.ShutdownRest? && b.ShutdownRest?)
  }

  ghost predicate Asked(pending: seq<Request>, acq: map<int, Acq>, ongoing: map<int, int>, listed: Option<seq<int>>, done: seq<int>) {
    && (forall i :: 0 <= i < |pending| ==> Fits(pending[i], acq, ongoing, listed, done))
    && (forall i, j :: 0 <= i < j < |pending| ==> !Kin(pending[i].callback, pending[j].callback))
  }

  // ---------- Values ----------

  /** A modified word whose block is being written back and whose turn has not come. */
  predicate Behind(writing: Option<Writing>, w: int) {
    writing.Some? &&
    var x := writing.value;
    && x.fromT && BlockOf(w) == BlockOf(x.addr)
    && Nth(WordOf(x.addr), x.sent) <= w < Nth(WordOf(x.addr), BurstLen(x.size))
  }

  /** The word's turn in a message with data has come. */
  predicate Before(x: Writing, w: int) {
    w < Nth(WordOf(x.addr), x.sent)
  }

  /** Memory differs from the last values only where the core holds the modified word; copies hold the last values. */
  ghost predicate Values(mem: map<int, Word>, latest: map<int, Word>, cache: map<int, Word>, dirty: set<int>,
                         held: map<int, Held>, writing: Option<Writing>) {
    && (forall w {:trigger At(mem, w)} {:trigger At(latest, w)} :: w !in dirty ==> At(mem, w) == At(latest, w))
    && (forall w :: w in dirty ==> IsWord(w) && (HeldOf(held, BlockOf(w)) == T || Behind(writing, w)))
    && (forall w {:trigger At(cache, w)} :: IsWord(w) && HeldOf(held, BlockOf(w)) != N ==> At(cache, w) == At(latest, w))
    && (writing.Some? ==> forall w {:trigger At(cache, w)} :: InRange(w, writing.value.addr, writing.value.size) ==> At(cache, w) == At(latest, w))
    && (writing.Some? ==> forall w :: w in dirty && InRange(w, writing.value.addr, writing.value.size) ==> !Before(writing.value, w))
  }

  // ---------- Grants ----------

  /** The data of the block's grant among the messages. */
  function Stream(b: int, msgs: seq<DMsg>): seq<Word> {
    if msgs == [] then []
    else (if msgs[0].GrantData? && msgs[0].block == b then [msgs[0].data] else []) + Stream(b, msgs[1..])
  }

  function Msgs(dq: seq<DEntry>): (r: seq<DMsg>)
    ensures |r| == |dq|
  {
    seq(|dq|, i requires 0 <= i < |dq| => dq[i].msg)
  }

  function Flight(m: Manager): seq<DMsg> {
    OptSeq(m.dPort) + Msgs(m.dq)
  }

  /** The words of a block from beat `k` on. */
  function Line(latest: map<int, Word>, b: int, k: nat): (r: seq<Word>)
    requires k <= BEATS
    ensures |r| == BEATS - k
  {
    seq<Word>(BEATS - k, i => At(latest, Nth(b, k + i)))
  }

  predicate Issued(acq: map<int, Acq>, ongoing: map<int, int>, b: int) {
    b in acq && acq[b].sink in ongoing
  }

  /** The acquire of `b`: what is in flight and what has arrived, together, are the last values. */
  ghost predicate Granting(b: int, a: Acq, ongoing: map<int, int>, flight: seq<DMsg>, latest: map<int, Word>,
                           cache: map<int, Word>, held: map<int, Held>) {
    && IsBlock(b) && a.cap != ToN && a.arrived <= BEATS
    && (a.arrived < BEATS ==> HeldOf(held, b) != T)
    && (if a.sink in ongoing then
          && Stream(b, flight) == Line(latest, b, a.arrived)
          && forall i {:trigger At(cache, Nth(b, i))} :: 0 <= i < a.arrived ==> At(cache, Nth(b, i)) == At(latest, Nth(b, i))
        else Stream(b, flight) == [] && a.arrived == 0)
  }

  /** Sinks and acquires belong together one to one. */
  ghost predicate Sunk(acq: map<int, Acq>, ongoing: map<int, int>, sinks: set<int>) {
    && sinks <= SINKS
    && (forall b :: b in acq ==> acq[b].sink in SINKS && acq[b].sink !in sinks)
    && (forall b, d :: b in acq && d in acq && acq[b].sink == acq[d].sink ==> b == d)
    && (forall k :: k in ongoing ==> ongoing[k] in acq && acq[ongoing[k]].sink == k)
    && (forall k :: k in SINKS && k !in sinks ==> exists b :: b in acq && acq[b].sink == k)
  }

  /** Every grant in flight belongs to an acquire. */
  ghost predicate Owned(flight: seq<DMsg>, acq: map<int, Acq>) {
    forall i :: 0 <= i < |flight| && flight[i].GrantData? ==>
      flight[i].block in acq && flight[i].cap == acq[flight[i].block].cap && flight[i].sink == acq[flight[i].block].sink
  }

  ghost predicate Grants(acq: map<int, Acq>, ongoing: map<int, int>, flight: seq<DMsg>, latest: map<int, Word>,
                         cache: map<int, Word>, held: map<int, Held>) {
    && Owned(flight, acq)
    && forall b :: b in acq ==> Granting(b, acq[b], ongoing, flight, latest, cache, held)
  }

  /** Exactly the first beat of a grant carries the permission update. */
  ghost predicate Marked(dq: seq<DEntry>) {
    forall k :: 0 <= k < |dq| ==> MarkedAt(dq, k)
  }

  ghost predicate MarkedAt(dq: seq<DEntry>, k: int)
    requires 0 <= k < |dq|
  {
    dq[k].grant == if dq[k].msg.GrantData? && |Stream(dq[k].msg.block, Msgs(dq[k..]))| == BEATS
                   then Some((dq[k].msg.block, dq[k].msg.cap)) else None
  }

  // ---------- Permissions ----------

  function PermIn(perm: map<int, Perm>, b: int): Perm {
    if b in perm then perm[b] else TIP
  }

  /** A modified copy is being given up. */
  predicate FromT(writing: Option<Writing>, b: int) {
    BusyOn(writing, b) && writing.value.fromT
  }

  /** A grant of T was issued and has not arrived. */
  predicate OnItsWay(acq: map<int, Acq>, ongoing: map<int, int>, b: int) {
    Issued(acq, ongoing, b) && acq[b].cap == ToT && acq[b].arrived < BEATS
  }

  /** TRUNK is recorded exactly while the core holds T, gives it up, or was sent part of the grant of it. */
  ghost predicate Exclusive(perm: map<int, Perm>, held: map<int, Held>, writing: Option<Writing>, acq: map<int, Acq>,
                            ongoing: map<int, int>, dq: seq<DEntry>) {
    && (forall b {:trigger PermIn(perm, b)} {:trigger HeldOf(held, b)} {:trigger FromT(writing, b)} {:trigger OnItsWay(acq, ongoing, b)} ::
          PermIn(perm, b) == TRUNK <==>
          HeldOf(held, b) == T || FromT(writing, b) || (OnItsWay(acq, ongoing, b) && |Stream(b, Msgs(dq))| < BEATS))
    && (forall b {:trigger FromT(writing, b)} {:trigger OnItsWay(acq, ongoing, b)} ::
          FromT(writing, b) ==> !(Issued(acq, ongoing, b) && acq[b].arrived < BEATS))
    && (writing.Some? ==>
          var x := writing.value;
          if x.fromT then x.report in {TtoT, TtoB, TtoN} && HeldOf(held, BlockOf(x.addr)) == After(x.report)
          else x.report !in {TtoB, TtoN})
  }

  // ---------- Counters and keys ----------

  predicate Counts(aBurst: map<int, nat>, cBurst: map<int, nat>, putting: Option<Putting>, writing: Option<Writing>) {
    && (match putting
        case None => aBurst == map[]
        case Some(x) => aBurst == map[x.source := x.sent] && 0 < x.sent < BurstLen(x.size) && Aligned(x.addr, x.size))
    && (match writing
        case None => cBurst == map[]
        case Some(x) =>
          && cBurst == (if x.sent == 0 then map[] else map[x.source := x.sent])
          && x.sent < BurstLen(x.size) && Aligned(x.addr, x.size)
          && (x.ack.Some? ==> x.ack.value.source == x.source && x.ack.value.addr == x.addr && x.ack.value.size == x.size))
  }

  /** Permissions are kept per block; a finished shutdown has had every listed block answered. */
  ghost predicate Kept(perm: map<int, Perm>, listed: Option<seq<int>>, done: seq<int>, drive: bool) {
    && (forall b :: b in perm ==> IsBlock(b))
    && (listed.Some? ==> forall i :: 0 <= i < |listed.value| ==> IsBlock(listed.value[i]))
    && (!drive ==> listed == Some(done))
    && (listed.None? ==> done == [])
  }

  /** All of the invariant that is not about probes. */
  ghost predicate Sound(s: Sys) {
    var m, c := s.m, s.c;
    && Values(m.mem, s.latest, c.cache, c.dirty, c.held, c.writing)
    && Sunk(c.acq, m.ongoing, m.sinks)
    && Grants(c.acq, m.ongoing, Flight(m), s.latest, c.cache, c.held)
    && Marked(m.dq)
    && Exclusive(m.perm, c.held, c.writing, c.acq, m.ongoing, m.dq)
    && Counts(m.aBurst, m.cBurst, c.putting, c.writing)
    && Kept(m.perm, s.listed, s.done, m.drive)
  }

  /** The probes `out` are outstanding, and what is pending fits the state. */
  ghost predicate Probing(s: Sys, out: seq<Probe>) {
    Books(s.m, out) && Asked(Pending(s.m, out), s.c.acq, s.m.ongoing, s.listed, s.done)
  }

  /** Everything asked for and not answered, oldest first. */
  function Queue(s: Sys): seq<Request> {
    Pending(s.m, Out(s))
  }

  ghost predicate Inv(s: Sys) {
    Probing(s, Out(s)) && Sound(s)
  }

  lemma InitialKeeps(mem: map<int, Word>, sources: set<int>)
    ensures Inv(Initial(mem, sources))
  {
    hide Sound, Probing;
    InitialSound(mem, sources);
    InitialProbing(mem, sources);
  }

  lemma InitialProbing(mem: map<int, Word>, sources: set<int>)
    ensures Probing(Initial(mem, sources), [])
    ensures Out(Initial(mem, sources)) == []
  {
    hide BlockOf, Fits, Kin;
  }

  lemma InitialSound(mem: map<int, Word>, sources: set<int>)
    ensures Sound(Initial(mem, sources))
  {
    hide Values, Exclusive, Stream, HeldOf;
    var s := Initial(mem, sources);
    assert Values(mem, mem, map[], {}, map[], None) by {
      hide *;
      NothingHeld(mem);
    }
    AllTip(s.m.perm);
    assert s.m.perm.Keys == set a | a in mem :: BlockOf(a);
    forall b | b in s.m.perm
      ensures IsBlock(b)
    {
      var a :| a in mem && BlockOf(a) == b;
      BlockOfBlock(a);
    }
  }

  lemma BlockOfBlock(a: int)
    ensures IsBlock(BlockOf(a))
  {
  }

  lemma NothingHeld(mem: map<int, Word>)
    ensures Values(mem, mem, map[], {}, map[], None)
  {
    hide At;
  }

  lemma AllTip(perm: map<int, Perm>)
    requires forall b :: b in perm ==> perm[b] == TIP
    ensures Exclusive(perm, map[], None, map[], map[], [])
  {
    hide Stream;
  }
}
