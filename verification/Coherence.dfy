/** Every step of the TileLink system keeps its invariant, and no handler fails. */
module Coherence {
  import opened Options
  import opened Bytes
  import opened TileLink
  import opened Client
  import opened Sources
  import opened Invariant
  import opened Asks
  import FreeLists

  // ---------- Streams ----------

  lemma {:induction false} StreamApp(b: int, x: seq<DMsg>, y: seq<DMsg>)
    ensures Stream(b, x + y) == Stream(b, x) + Stream(b, y)
    decreases |x|
  {
    if x == [] {
      assert x + y == y;
    } else {
      assert (x + y)[1..] == x[1..] + y;
      StreamApp(b, x[1..], y);
    }
  }

  /** Messages that grant nothing of the block. */
  lemma {:induction false} StreamOther(b: int, x: seq<DMsg>)
    requires forall i :: 0 <= i < |x| && x[i].GrantData? ==> x[i].block != b
    ensures Stream(b, x) == []
    decreases |x|
  {
    if x != [] {
      assert forall i :: 0 <= i < |x[1..]| ==> x[1..][i] == x[i + 1];
      StreamOther(b, x[1..]);
    }
  }

  lemma {:induction false} StreamHas(b: int, x: seq<DMsg>, i: int)
    requires 0 <= i < |x| && x[i].GrantData? && x[i].block == b
    ensures Stream(b, x) != []
    decreases |x|
  {
    if i > 0 {
      StreamHas(b, x[1..], i - 1);
    }
  }

  /** The grant burst of a block, from beat `k` on. */
  lemma {:induction false} StreamBurst(b: int, mem: map<int, Word>, cap: Cap, sink: int, source: int, k: nat)
    requires IsBlock(b) && k <= BEATS
    ensures Stream(b, Msgs(Grant(mem, BEATS, b, cap, sink, source)[k..])) == Line(mem, b, k)
    decreases BEATS - k
  {
    var q := Grant(mem, BEATS, b, cap, sink, source);
    if k < BEATS {
      StreamBurst(b, mem, cap, sink, source, k + 1);
      assert Msgs(q[k..])[1..] == Msgs(q[k + 1..]);
      assert Msgs(q[k..])[0] == q[k].msg;
      assert Line(mem, b, k) == [At(mem, Nth(b, k))] + Line(mem, b, k + 1);
    }
  }

  lemma MsgsApp(x: seq<DEntry>, y: seq<DEntry>)
    ensures Msgs(x + y) == Msgs(x) + Msgs(y)
  {
  }

  // ---------- Queue pushes ----------

  predicate Plain(q: seq<DEntry>) {
    forall i :: 0 <= i < |q| ==> !q[i].msg.GrantData? && q[i].grant.None?
  }

  /** Acknowledgements and answers change nothing about grants. */
  lemma PlainPushed(dq: seq<DEntry>, q: seq<DEntry>, port: seq<DMsg>, b: int)
    requires Plain(q)
    ensures Stream(b, Msgs(dq + q)) == Stream(b, Msgs(dq))
    ensures Stream(b, port + Msgs(dq + q)) == Stream(b, port + Msgs(dq))
  {
    MsgsApp(dq, q);
    StreamApp(b, Msgs(dq), Msgs(q));
    StreamOther(b, Msgs(q));
    StreamApp(b, port, Msgs(dq + q));
    StreamApp(b, port, Msgs(dq));
  }

  lemma PlainMarked(dq: seq<DEntry>, q: seq<DEntry>)
    requires Marked(dq) && Plain(q)
    ensures Marked(dq + q)
  {
    forall k | 0 <= k < |dq + q|
      ensures MarkedAt(dq + q, k)
    {
      if k < |dq| {
        assert MarkedAt(dq, k);
        assert (dq + q)[k..] == dq[k..] + q;
        if dq[k].msg.GrantData? {
          PlainPushed(dq[k..], q, [], dq[k].msg.block);
        }
      }
    }
  }

  lemma PlainKeeps(dq: seq<DEntry>, q: seq<DEntry>, port: seq<DMsg>, acq: map<int, Acq>, ongoing: map<int, int>, perm: map<int, Perm>,
                   latest: map<int, Word>, cache: map<int, Word>, held: map<int, Held>, writing: Option<Writing>)
    requires Plain(q) && Marked(dq)
    requires Grants(acq, ongoing, port + Msgs(dq), latest, cache, held) && Exclusive(perm, held, writing, acq, ongoing, dq)
    ensures Marked(dq + q)
    ensures Grants(acq, ongoing, port + Msgs(dq + q), latest, cache, held) && Exclusive(perm, held, writing, acq, ongoing, dq + q)
  {
    hide Marked, Plain;
    PlainMarked(dq, q);
    forall b
      ensures Stream(b, Msgs(dq + q)) == Stream(b, Msgs(dq))
      ensures Stream(b, port + Msgs(dq + q)) == Stream(b, port + Msgs(dq))
    {
      PlainPushed(dq, q, port, b);
    }
    MsgsApp(dq, q);
    OwnedPlain(port + Msgs(dq), q, acq);
    assert port + Msgs(dq) + Msgs(q) == port + Msgs(dq + q);
    forall b | b in acq
      ensures Granting(b, acq[b], ongoing, port + Msgs(dq + q), latest, cache, held)
    {
      assert Granting(b, acq[b], ongoing, port + Msgs(dq), latest, cache, held);
    }
    ExclusiveSame(perm, held, writing, acq, ongoing, dq, dq + q);
  }

  /** Only how much of each grant is still queued matters for the permissions. */
  lemma ExclusiveSame(perm: map<int, Perm>, held: map<int, Held>, writing: Option<Writing>, acq: map<int, Acq>,
                      ongoing: map<int, int>, dq: seq<DEntry>, dq': seq<DEntry>)
    requires Exclusive(perm, held, writing, acq, ongoing, dq)
    requires forall b {:trigger Stream(b, Msgs(dq'))} :: Stream(b, Msgs(dq')) == Stream(b, Msgs(dq))
    ensures Exclusive(perm, held, writing, acq, ongoing, dq')
  {
    hide Stream, Msgs;
    forall b
      ensures PermIn(perm, b) == TRUNK <==>
              HeldOf(held, b) == T || FromT(writing, b) || (OnItsWay(acq, ongoing, b) && |Stream(b, Msgs(dq'))| < BEATS)
    {
      assert Stream(b, Msgs(dq')) == Stream(b, Msgs(dq));
    }
  }

  lemma OwnedPlain(flight: seq<DMsg>, q: seq<DEntry>, acq: map<int, Acq>)
    requires Owned(flight, acq) && Plain(q)
    ensures Owned(flight + Msgs(q), acq)
  {
  }

  // ---------- A grant is issued ----------

  /** Nothing of an acquire's grant is in flight before it is issued. */
  lemma Unsent(b: int, dq: seq<DEntry>, port: seq<DMsg>, k: int)
    requires Stream(b, port + Msgs(dq)) == [] && 0 <= k < |dq|
    ensures !(dq[k].msg.GrantData? && dq[k].msg.block == b)
  {
    StreamApp(b, port, Msgs(dq));
    if dq[k].msg.GrantData? && dq[k].msg.block == b {
      StreamHas(b, Msgs(dq), k);
    }
  }

  lemma GrantMarked(dq: seq<DEntry>, port: seq<DMsg>, mem: map<int, Word>, b: int, cap: Cap, sink: int, source: int)
    requires Marked(dq) && Stream(b, port + Msgs(dq)) == [] && IsBlock(b)
    ensures Marked(dq + Grant(mem, BEATS, b, cap, sink, source))
  {
    var q := Grant(mem, BEATS, b, cap, sink, source);
    forall k | 0 <= k < |dq + q|
      ensures MarkedAt(dq + q, k)
    {
      if k < |dq| {
        assert MarkedAt(dq, k);
        Unsent(b, dq, port, k);
        assert (dq + q)[k..] == dq[k..] + q;
        MsgsApp(dq[k..], q);
        if dq[k].msg.GrantData? {
          var d := dq[k].msg.block;
          StreamApp(d, Msgs(dq[k..]), Msgs(q));
          StreamOther(d, Msgs(q));
        }
      } else {
        assert (dq + q)[k..] == q[k - |dq|..];
        StreamBurst(b, mem, cap, sink, source, k - |dq|);
      }
    }
  }

  /** Issuing the grant of an acquire whose block is clean in memory. */
  lemma GrantPushed(dq: seq<DEntry>, port: seq<DMsg>, mem: map<int, Word>, b: int, source: int, acq: map<int, Acq>,
                    ongoing: map<int, int>, latest: map<int, Word>, cache: map<int, Word>, held: map<int, Held>, d: int)
    requires Grants(acq, ongoing, port + Msgs(dq), latest, cache, held)
    requires b in acq && acq[b].arrived == 0 && acq[b].sink !in ongoing && d in acq
    requires forall e :: e in acq && acq[e].sink == acq[b].sink ==> e == b
    requires forall i {:trigger At(mem, Nth(b, i))} :: 0 <= i < BEATS ==> At(mem, Nth(b, i)) == At(latest, Nth(b, i))
    ensures var q := Grant(mem, BEATS, b, acq[b].cap, acq[b].sink, source);
            && Granting(d, acq[d], ongoing[acq[b].sink := b], port + Msgs(dq + q), latest, cache, held)
            && Stream(d, Msgs(dq + q)) == if d == b then Line(latest, b, 0) else Stream(d, Msgs(dq))
  {
    hide Grant, Stream, Msgs;
    var q := Grant(mem, BEATS, b, acq[b].cap, acq[b].sink, source);
    assert Granting(d, acq[d], ongoing, port + Msgs(dq), latest, cache, held);
    assert Granting(b, acq[b], ongoing, port + Msgs(dq), latest, cache, held);
    MsgsApp(dq, q);
    StreamApp(d, Msgs(dq), Msgs(q));
    StreamApp(d, port, Msgs(dq));
    StreamApp(d, port, Msgs(dq) + Msgs(q));
    if d == b {
      StreamBurst(b, mem, acq[b].cap, acq[b].sink, source, 0);
      assert q[0..] == q;
      assert Line(mem, b, 0) == Line(latest, b, 0);
    } else {
      GrantOther(d, mem, b, acq[b].cap, acq[b].sink, source);
    }
  }

  lemma GrantOther(d: int, mem: map<int, Word>, b: int, cap: Cap, sink: int, source: int)
    requires d != b && IsBlock(b)
    ensures Stream(d, Msgs(Grant(mem, BEATS, b, cap, sink, source))) == []
  {
    StreamOther(d, Msgs(Grant(mem, BEATS, b, cap, sink, source)));
  }

  lemma OwnedGrant(flight: seq<DMsg>, acq: map<int, Acq>, mem: map<int, Word>, b: int, source: int)
    requires Owned(flight, acq) && b in acq && IsBlock(b)
    ensures Owned(flight + Msgs(Grant(mem, BEATS, b, acq[b].cap, acq[b].sink, source)), acq)
  {
  }

  lemma GrantKeeps(dq: seq<DEntry>, port: seq<DMsg>, mem: map<int, Word>, b: int, source: int, acq: map<int, Acq>,
                   ongoing: map<int, int>, sinks: set<int>, perm: map<int, Perm>, latest: map<int, Word>,
                   cache: map<int, Word>, held: map<int, Held>, writing: Option<Writing>)
    requires Marked(dq) && Grants(acq, ongoing, port + Msgs(dq), latest, cache, held) && Sunk(acq, ongoing, sinks)
    requires Exclusive(perm, held, writing, acq, ongoing, dq)
    requires b in acq && acq[b].arrived == 0 && acq[b].sink !in ongoing && !FromT(writing, b)
    requires forall i {:trigger At(mem, Nth(b, i))} :: 0 <= i < BEATS ==> At(mem, Nth(b, i)) == At(latest, Nth(b, i))
    ensures var q, g := Grant(mem, BEATS, b, acq[b].cap, acq[b].sink, source), ongoing[acq[b].sink := b];
            && Marked(dq + q) && Grants(acq, g, port + Msgs(dq + q), latest, cache, held) && Sunk(acq, g, sinks)
            && Exclusive(perm, held, writing, acq, g, dq + q)
  {
    hide Stream, Msgs, Grant, Granting, Marked, Owned;
    var q, g := Grant(mem, BEATS, b, acq[b].cap, acq[b].sink, source), ongoing[acq[b].sink := b];
    assert Granting(b, acq[b], ongoing, port + Msgs(dq), latest, cache, held);
    NotYet(b, acq[b], ongoing, port + Msgs(dq), latest, cache, held);
    GrantMarked(dq, port, mem, b, acq[b].cap, acq[b].sink, source);
    OwnedGrant(port + Msgs(dq), acq, mem, b, source);
    MsgsApp(dq, q);
    assert port + Msgs(dq) + Msgs(q) == port + Msgs(dq + q);
    forall d | d in acq
      ensures Granting(d, acq[d], g, port + Msgs(dq + q), latest, cache, held)
      ensures Stream(d, Msgs(dq + q)) == if d == b then Line(latest, b, 0) else Stream(d, Msgs(dq))
    {
      GrantPushed(dq, port, mem, b, source, acq, ongoing, latest, cache, held, d);
    }
    GrantExclusive(perm, held, writing, acq, ongoing, dq, dq + q, b, latest);
  }

  lemma NotYet(b: int, a: Acq, ongoing: map<int, int>, flight: seq<DMsg>, latest: map<int, Word>, cache: map<int, Word>, held: map<int, Held>)
    requires Granting(b, a, ongoing, flight, latest, cache, held) && a.sink !in ongoing
    ensures IsBlock(b) && Stream(b, flight) == [] && HeldOf(held, b) != T
  {
  }

  lemma GrantExclusive(perm: map<int, Perm>, held: map<int, Held>, writing: Option<Writing>, acq: map<int, Acq>,
                       ongoing: map<int, int>, dq: seq<DEntry>, dq': seq<DEntry>, b: int, latest: map<int, Word>)
    requires Exclusive(perm, held, writing, acq, ongoing, dq) && b in acq && acq[b].sink !in ongoing && !FromT(writing, b)
    requires forall e :: e in acq && acq[e].sink == acq[b].sink ==> e == b
    requires forall d :: d in acq ==> Stream(d, Msgs(dq')) == if d == b then Line(latest, b, 0) else Stream(d, Msgs(dq))
    ensures Exclusive(perm, held, writing, acq, ongoing[acq[b].sink := b], dq')
  {
    hide Stream, Msgs, PermIn, HeldOf, FromT;
    var g := ongoing[acq[b].sink := b];
    forall d
      ensures PermIn(perm, d) == TRUNK <==>
              HeldOf(held, d) == T || FromT(writing, d) || (OnItsWay(acq, g, d) && |Stream(d, Msgs(dq'))| < BEATS)
      ensures FromT(writing, d) ==> !(Issued(acq, g, d) && acq[d].arrived < BEATS)
    {
      assert d != b ==> (OnItsWay(acq, g, d) <==> OnItsWay(acq, ongoing, d));
      assert !OnItsWay(acq, ongoing, b);
    }
  }

  // ---------- Clean words ----------

  lemma BurstLens()
    ensures BurstLen(0) == BurstLen(1) == BurstLen(2) == BurstLen(3) == 1
    ensures BurstLen(4) == 2 && BurstLen(5) == 4 && BurstLen(6) == BEATS
  {
  }

  lemma InBlock(q: int, r: int)
    requires 0 <= r < 64
    ensures BlockOf(64 * q + r) == 64 * q
  {
  }

  lemma WordMultiple(u: int)
    ensures IsWord(8 * u)
  {
  }

  /** The words of an aligned message lie in one block. */
  lemma WordIn(addr: int, size: nat, k: int)
    requires Aligned(addr, size) && 0 <= k < BurstLen(size)
    ensures BlockOf(Nth(WordOf(addr), k)) == BlockOf(addr) && IsWord(Nth(WordOf(addr), k))
    ensures InRange(Nth(WordOf(addr), k), addr, size)
  {
    BurstLens();
    EndsInBlock(addr, size);
    var q, u := Quot(addr, 64), Quot(addr, 8);
    hide BlockOf, Aligned;
    InBlock(q, addr - 64 * q);
    InBlock(q, 8 * u + 8 * k - 64 * q);
    WordMultiple(u + k);
  }

  /** An aligned message ends in the block it begins in. */
  lemma EndsInBlock(addr: int, size: nat)
    requires Aligned(addr, size)
    ensures 64 * Quot(addr, 64) <= WordOf(addr) && WordOf(addr) + 8 * BurstLen(size) <= 64 * Quot(addr, 64) + 64
  {
    BurstLens();
    WordStart(addr);
    if size == 4 {
      WordMultiple(2 * Quot(addr, 16));
      RoomIn16(Quot(addr, 16), Quot(addr, 64));
    } else if size == 5 {
      WordMultiple(4 * Quot(addr, 32));
      RoomIn32(Quot(addr, 32), Quot(addr, 64));
    } else if size == 6 {
      WordMultiple(8 * Quot(addr, 64));
    } else {
      hide BurstLen;
      assert BurstLen(size) == 1;
    }
  }

  /** A word lies in the block of each of its bytes. */
  lemma WordStart(addr: int)
    ensures 64 * Quot(addr, 64) <= WordOf(addr) <= 64 * Quot(addr, 64) + 56
  {
    hide Quot;
    var q, u := Quot(addr, 64), Quot(addr, 8);
    assert 8 * q < u + 1 && u < 8 * q + 8;
  }

  lemma RoomIn16(v: int, q: int)
    requires 64 * q <= 16 * v < 64 * q + 64
    ensures 16 * v + 16 <= 64 * q + 64
  {
    assert v < 4 * q + 4;
  }

  lemma RoomIn32(v: int, q: int)
    requires 64 * q <= 32 * v < 64 * q + 64
    ensures 32 * v + 32 <= 64 * q + 64
  {
    assert v < 2 * q + 2;
  }

  lemma WordInBlock(b: int, k: int)
    requires IsBlock(b) && 0 <= k < BEATS
    ensures BlockOf(Nth(b, k)) == b && IsWord(Nth(b, k)) && WordOf(b) == b
  {
    var q := Quot(b, 64);
    InBlock(q, 8 * k);
    WordMultiple(8 * q + k);
    WordMultiple(8 * q);
  }

  /** A word that the core neither holds modified nor is writing back is current in memory. */
  lemma CleanWord(mem: map<int, Word>, latest: map<int, Word>, cache: map<int, Word>, dirty: set<int>,
                  held: map<int, Held>, writing: Option<Writing>, w: int)
    requires Values(mem, latest, cache, dirty, held, writing)
    requires HeldOf(held, BlockOf(w)) != T && !FromT(writing, BlockOf(w))
    ensures w !in dirty && At(mem, w) == At(latest, w)
  {
  }

  /** Answering from a memory that is current on the range is answering with the last values. */
  lemma AnswerSame(mem: map<int, Word>, latest: map<int, Word>, len: nat, addr: int, source: int)
    requires forall k {:trigger At(mem, Nth(addr, k))} :: 0 <= k < len ==> At(mem, Nth(addr, k)) == At(latest, Nth(addr, k))
    ensures Answer(mem, len, addr, source) == Answer(latest, len, addr, source)
  {
    var x, y := Answer(mem, len, addr, source), Answer(latest, len, addr, source);
    forall k | 0 <= k < len
      ensures x[k] == y[k]
    {
      assert At(mem, Nth(addr, k)) == At(latest, Nth(addr, k));
    }
  }

  lemma ValuesMem(mem: map<int, Word>, mem': map<int, Word>, latest: map<int, Word>, cache: map<int, Word>, dirty: set<int>,
                  held: map<int, Held>, writing: Option<Writing>)
    requires Values(mem, latest, cache, dirty, held, writing)
    requires forall a :: At(mem', a) == At(mem, a)
    ensures Values(mem', latest, cache, dirty, held, writing)
  {
    hide At, HeldOf, Behind, InRange;
  }

  // ---------- Pending requests ----------

  lemma BooksSame(m: Manager, n: Manager, out: seq<Probe>)
    requires Books(m, out) && n.all == m.all && n.free == m.free && n.calls == m.calls && n.waiting == m.waiting
    ensures Books(n, out) && Pending(n, out) == Pending(m, out)
  {
  }

  /** One more request that fits. */
  lemma AskedMore(pending: seq<Request>, r: Request, acq: map<int, Acq>, ongoing: map<int, int>, listed: Option<seq<int>>, done: seq<int>)
    requires Asked(pending, acq, ongoing, listed, done) && Fits(r, acq, ongoing, listed, done)
    requires forall i :: 0 <= i < |pending| ==> !Kin(pending[i].callback, r.callback)
    ensures Asked(pending + [r], acq, ongoing, listed, done)
  {
    hide Fits, Kin;
  }

  /** The oldest request is served, and changes nothing that the others depend on. */
  lemma AskedTail(pending: seq<Request>, acq: map<int, Acq>, ongoing: map<int, int>, listed: Option<seq<int>>, done: seq<int>,
                  acq': map<int, Acq>, ongoing': map<int, int>, done': seq<int>)
    requires Asked(pending, acq, ongoing, listed, done) && pending != []
    requires forall i :: 1 <= i < |pending| ==> Fits(pending[i], acq', ongoing', listed, done')
    ensures Asked(pending[1..], acq', ongoing', listed, done')
  {
    hide Fits, Kin;
    assert forall i :: 0 <= i < |pending[1..]| ==> pending[1..][i] == pending[i + 1];
  }

  /** The effect that a served request has on the grants and the shutdown keeps the others fitting. */
  lemma AskedServed(pending: seq<Request>, acq: map<int, Acq>, ongoing: map<int, int>, sinks: set<int>, listed: Option<seq<int>>, done: seq<int>)
    requires Asked(pending, acq, ongoing, listed, done) && pending != [] && Sunk(acq, ongoing, sinks)
    requires listed.Some? ==> forall i :: 0 <= i < |listed.value| ==> IsBlock(listed.value[i])
    ensures var r := pending[0];
            var cb := r.callback;
            var g := if cb.GrantBlock? then ongoing[cb.sink := cb.addr] else ongoing;
            var d := if cb.ShutdownRest? then done + [r.addr] else done;
            Asked(pending[1..] + Followed(cb), acq, g, listed, d)
  {
    var r := pending[0];
    var cb := r.callback;
    var g := if cb.GrantBlock? then ongoing[cb.sink := cb.addr] else ongoing;
    var d := if cb.ShutdownRest? then done + [r.addr] else done;
    assert Fits(r, acq, ongoing, listed, done);
    forall i | 1 <= i < |pending|
      ensures Fits(pending[i], acq, g, listed, d)
    {
      assert Fits(pending[i], acq, ongoing, listed, done) && !Kin(cb, pending[i].callback);
    }
    AskedTail(pending, acq, ongoing, listed, done, acq, g, d);
    if Followed(cb) == [] {
      assert pending[1..] + Followed(cb) == pending[1..];
    } else {
      var next := Followed(cb)[0];
      NextFits(r, acq, ongoing, listed, done);
      forall i | 0 <= i < |pending[1..]|
        ensures !Kin(pending[1..][i].callback, next.callback)
      {
        assert pending[1..][i] == pending[i + 1] && !Kin(cb, pending[i + 1].callback);
      }
      AskedMore(pending[1..], next, acq, g, listed, d);
    }
  }

  lemma NextFits(r: Request, acq: map<int, Acq>, ongoing: map<int, int>, listed: Option<seq<int>>, done: seq<int>)
    requires Fits(r, acq, ongoing, listed, done) && Followed(r.callback) != []
    requires listed.Some? ==> forall i :: 0 <= i < |listed.value| ==> IsBlock(listed.value[i])
    ensures Fits(Followed(r.callback)[0], acq, ongoing, listed, done + [r.addr])
  {
    var rest := r.callback.rest;
    assert listed.value[|done| + 1] == rest[0];
    assert listed.value == (done + [r.addr]) + [rest[0]] + rest[1..];
  }

  // ---------- An answered probe ----------

  /** The state with other bookkeeping is as sound. */
  lemma SoundSame(s: Sys, m: Manager)
    requires Sound(s) && m == Rebooked(s.m, m)
    ensures Sound(s.(m := m))
  {
    hide Values, Sunk, Grants, Marked, Exclusive, Counts, Kept, Stream;
  }

  /** Messages other than grants, built from memory, leave the state sound. */
  lemma PushedSound(s: Sys, mem: map<int, Word>, q: seq<DEntry>)
    requires Sound(s) && Plain(q) && (forall a :: At(mem, a) == At(s.m.mem, a))
    ensures Sound(s.(m := s.m.(mem := mem, dq := s.m.dq + q)))
  {
    hide Values, Sunk, Grants, Marked, Exclusive, Counts, Kept, Stream, Msgs, Plain;
    var m, c := s.m, s.c;
    ValuesMem(m.mem, mem, s.latest, c.cache, c.dirty, c.held, c.writing);
    PlainKeeps(m.dq, q, OptSeq(m.dPort), c.acq, m.ongoing, m.perm, s.latest, c.cache, c.held, c.writing);
  }

  lemma AnswerPlain(mem: map<int, Word>, len: nat, addr: int, source: int)
    ensures Plain(Answer(mem, len, addr, source))
  {
  }

  /** The grant of an acquire that waits for it leaves the state sound. */
  lemma GrantSound(s: Sys, b: int, source: int)
    requires Sound(s) && b in s.c.acq && s.c.acq[b].arrived == 0 && s.c.acq[b].sink !in s.m.ongoing && !FromT(s.c.writing, b)
    ensures Sound(s.(m := PushGrant(s.m, BEATS, b, s.c.acq[b].cap, s.c.acq[b].sink, source)))
    ensures Grant(s.m.mem, BEATS, b, s.c.acq[b].cap, s.c.acq[b].sink, source) == Grant(s.latest, BEATS, b, s.c.acq[b].cap, s.c.acq[b].sink, source)
  {
    hide Values, Sunk, Marked, Exclusive, Counts, Kept, Stream, Msgs, Granting, Owned;
    var m, c := s.m, s.c;
    assert Granting(b, c.acq[b], m.ongoing, Flight(m), s.latest, c.cache, c.held);
    NotYet(b, c.acq[b], m.ongoing, Flight(m), s.latest, c.cache, c.held);
    forall i | 0 <= i < BEATS
      ensures At(m.mem, Nth(b, i)) == At(s.latest, Nth(b, i))
    {
      WordInBlock(b, i);
      CleanWord(m.mem, s.latest, c.cache, c.dirty, c.held, c.writing, Nth(b, i));
    }
    WordInBlock(b, 0);
    var mem := Touch(m.mem, b, BEATS);
    GrantSame(m.mem, s.latest, b, c.acq[b].cap, c.acq[b].sink, source);
    ValuesMem(m.mem, mem, s.latest, c.cache, c.dirty, c.held, c.writing);
    SinkAlone(c.acq, m.ongoing, m.sinks, b);
    GrantKeeps(m.dq, OptSeq(m.dPort), m.mem, b, source, c.acq, m.ongoing, m.sinks, m.perm, s.latest, c.cache, c.held, c.writing);
  }

  lemma SinkAlone(acq: map<int, Acq>, ongoing: map<int, int>, sinks: set<int>, b: int)
    requires Sunk(acq, ongoing, sinks) && b in acq
    ensures forall e :: e in acq && acq[e].sink == acq[b].sink ==> e == b
  {
  }

  lemma GrantSame(mem: map<int, Word>, latest: map<int, Word>, b: int, cap: Cap, sink: int, source: int)
    requires forall i {:trigger At(mem, Nth(b, i))} :: 0 <= i < BEATS ==> At(mem, Nth(b, i)) == At(latest, Nth(b, i))
    ensures Grant(mem, BEATS, b, cap, sink, source) == Grant(latest, BEATS, b, cap, sink, source)
  {
    var x, y := Grant(mem, BEATS, b, cap, sink, source), Grant(latest, BEATS, b, cap, sink, source);
    forall i | 0 <= i < BEATS
      ensures x[i] == y[i]
    {
      assert At(mem, Nth(b, i)) == At(latest, Nth(b, i));
    }
  }

  /** What a served callback does leaves the state sound. */
  lemma EffectSound(s: Sys, r: Request)
    requires Sound(s) && s.m.drive && s.c.writing.None? && Fits(r, s.c.acq, s.m.ongoing, s.listed, s.done)
    ensures Sound(s.(m := Effect(s.m, r.callback), done := if r.callback.ShutdownRest? then s.done + [r.addr] else s.done))
  {
    hide Sound, Aligned, Answer, Grant;
    match r.callback
    case AnswerGet(len, addr, source) =>
      AnswerPlain(s.m.mem, len, addr, source);
      PushedSound(s, Touch(s.m.mem, addr, len), Answer(s.m.mem, len, addr, source));
    case GrantBlock(cap, sink, len, addr, source) =>
      GrantSound(s, addr, source);
    case EnableProbe => ProbeOn(s);
    case ShutdownRest(rest) => OneDone(s, r, rest);
  }

  lemma ProbeOn(s: Sys)
    requires Sound(s)
    ensures Sound(s.(m := s.m.(probeEn := true)))
  {
    hide Values, Sunk, Grants, Marked, Exclusive, Counts, Kept, Stream, Msgs;
  }

  /** One more listed block is done, and with the last one the adapter stops. */
  lemma OneDone(s: Sys, r: Request, rest: seq<int>)
    requires Sound(s) && s.m.drive && r.callback == ShutdownRest(rest) && Fits(r, s.c.acq, s.m.ongoing, s.listed, s.done)
    ensures Sound(s.(m := Effect(s.m, r.callback), done := s.done + [r.addr]))
  {
    hide Values, Sunk, Grants, Marked, Exclusive, Counts, Stream, Msgs;
    if rest == [] {
      assert s.listed.value == s.done + [r.addr];
    }
  }

  /** The oldest probe is answered with the words it covers clean. */
  lemma AckKeeps(s: Sys, p: int, q: int, out: seq<Probe>) returns (t: Sys, new_: seq<Probe>)
    requires Probing(s, out) && Sound(s) && out != [] && s.m.drive && s.c.writing.None?
    requires Repicks(s.m, out[0].source, p, q)
    ensures Acked(s.m, out[0].source, p, q).Some?
    ensures t == s.(m := Acked(s.m, out[0].source, p, q).value,
                    done := if ForShutdown(s.m, out[0].source) then s.done + [out[0].addr] else s.done)
    ensures Probing(t, out[1..] + new_) && Sound(t) && t.m.bq == s.m.bq + new_ && t.m.bPort == s.m.bPort
    ensures Pending(s.m, out) != []
    ensures Pending(t.m, out[1..] + new_) == Pending(s.m, out)[1..] + Followed(Pending(s.m, out)[0].callback)
    ensures t.m.drive <==> Pending(s.m, out)[0].callback != ShutdownRest([])
  {
    hide Sound, Sunk, Acked, Fits, Pending, Followed, Books, Effect;
    var m, c := s.m, s.c;
    SoundSunk(s);
    new_ := AckedBooks(m, p, q, out);
    var r := Pending(m, out)[0];
    var m' := Acked(m, out[0].source, p, q).value;
    var done := if r.callback.ShutdownRest? then s.done + [r.addr] else s.done;
    t := s.(m := m', done := done);
    AskedServed(Pending(m, out), c.acq, m.ongoing, m.sinks, s.listed, s.done);
    assert Fits(r, c.acq, m.ongoing, s.listed, s.done);
    ServedOngoing(m, r, c.acq, s.listed, s.done);
    EffectSound(s, r);
    SoundSame(s.(m := Effect(m, r.callback), done := done), m');
    EffectDrive(m, r.callback);
  }

  lemma EffectDrive(m: Manager, cb: Callback)
    requires m.drive
    ensures Effect(m, cb).drive <==> cb != ShutdownRest([])
    ensures Effect(m, cb).bPort == m.bPort
  {
  }

  lemma SoundSunk(s: Sys)
    requires Sound(s)
    ensures Sunk(s.c.acq, s.m.ongoing, s.m.sinks)
    ensures s.listed.Some? ==> forall i :: 0 <= i < |s.listed.value| ==> IsBlock(s.listed.value[i])
  {
    hide Values, Sunk, Grants, Marked, Exclusive, Counts, Stream, Msgs;
  }

  lemma ServedOngoing(m: Manager, r: Request, acq: map<int, Acq>, listed: Option<seq<int>>, done: seq<int>)
    requires Fits(r, acq, m.ongoing, listed, done)
    ensures Effect(m, r.callback).ongoing == if r.callback.GrantBlock? then m.ongoing[r.callback.sink := r.callback.addr] else m.ongoing
  {
    if r.callback.GrantBlock? {
      WordInBlock(r.callback.addr, 0);
    }
  }

  // ---------- Steps of channel A ----------

  /**
   Requests are served in the order in which they were made: an answer removes the oldest,
   and only a step of the shutdown then adds the next one.
   */
  ghost predicate InOrder(s: Sys, t: Sys, answered: bool) {
    if answered then
      && Queue(s) != [] && Queue(t) == Queue(s)[1..] + Followed(Queue(s)[0].callback)
      && (t.m.drive <==> Queue(s)[0].callback != ShutdownRest([]))
    else
      Queue(s) <= Queue(t) && |Queue(t)| <= |Queue(s)| + 1
  }

  /** The step succeeds, keeps the invariant and the order of the requests, and adds those that it is to add. */
  ghost predicate Survives(s: Sys, step: Step)
    requires Enabled(s, step)
  {
    && Apply(s, step).Some? && Inv(Apply(s, step).value) && InOrder(s, Apply(s, step).value, Answers(s, step))
    && (!Answers(s, step) ==> Queue(Apply(s, step).value) == Queue(s) + Added(s, step))
  }

  /** Listing a block records nothing new. */
  lemma ListedSound(s: Sys, b: int)
    requires Sound(s) && IsBlock(b)
    ensures Sound(s.(m := Listed(s.m, b))) && PermOf(Listed(s.m, b), b) == PermOf(s.m, b) == PermIn(s.m.perm, b)
  {
    hide Values, Sunk, Grants, Marked, Counts, Stream, Msgs, FromT, OnItsWay;
    var perm := Listed(s.m, b).perm;
    PermSame(s.m.perm, perm, s.c.held, s.c.writing, s.c.acq, s.m.ongoing, s.m.dq);
  }

  lemma PermSame(perm: map<int, Perm>, perm': map<int, Perm>, held: map<int, Held>, writing: Option<Writing>, acq: map<int, Acq>,
                 ongoing: map<int, int>, dq: seq<DEntry>)
    requires Exclusive(perm, held, writing, acq, ongoing, dq)
    requires forall b :: PermIn(perm', b) == PermIn(perm, b)
    ensures Exclusive(perm', held, writing, acq, ongoing, dq)
  {
    hide Stream, Msgs, FromT, OnItsWay, PermIn, HeldOf;
    forall b
      ensures PermIn(perm', b) == TRUNK <==>
              HeldOf(held, b) == T || FromT(writing, b) || (OnItsWay(acq, ongoing, b) && |Stream(b, Msgs(dq))| < BEATS)
    {
      assert PermIn(perm', b) == PermIn(perm, b);
    }
  }

  /** A request that fits is sent or queued. */
  lemma AskKeeps(s: Sys, r: Request, pick: int, out: seq<Probe>) returns (new_: seq<Probe>)
    requires Probing(s, out) && Sound(s) && Picks(s.m, pick) && Fits(r, s.c.acq, s.m.ongoing, s.listed, s.done)
    requires forall i :: 0 <= i < |Pending(s.m, out)| ==> !Kin(Pending(s.m, out)[i].callback, r.callback)
    ensures var m := Retrieve(s.m, r, pick);
            && m.Some?
            && var t := s.(m := m.value);
               && Probing(t, out + new_) && Sound(t) && t.m.bq == s.m.bq + new_ && t.m.bPort == s.m.bPort
               && Pending(t.m, out + new_) == Pending(s.m, out) + [r]
  {
    hide Sound, Fits, Booked, Pending, Kin;
    new_ := RetrieveBooks(s.m, r, pick, out, {});
    var m := Retrieve(s.m, r, pick).value;
    AskedMore(Pending(s.m, out), r, s.c.acq, s.m.ongoing, s.listed, s.done);
    SoundSame(s, m);
  }

  /** New probes go to the end of the outstanding ones. */
  lemma OutMore(s: Sys, t: Sys, new_: seq<Probe>)
    requires t.c.probes == s.c.probes && t.c.writing == s.c.writing && t.m.bPort == s.m.bPort && t.m.bq == s.m.bq + new_
    ensures Out(t) == Out(s) + new_
  {
  }

  /** Other fields of the adapter do not touch the bookkeeping. */
  lemma ProbingSame(s: Sys, t: Sys, out: seq<Probe>)
    requires Probing(s, out)
    requires t.m.all == s.m.all && t.m.free == s.m.free && t.m.calls == s.m.calls && t.m.waiting == s.m.waiting
    requires t.c.acq == s.c.acq && t.m.ongoing == s.m.ongoing && t.listed == s.listed && t.done == s.done
    ensures Probing(t, out) && Pending(t.m, out) == Pending(s.m, out)
  {
    hide Books, Pending;
    BooksSame(s.m, t.m, out);
  }

  lemma GetKeeps(s: Sys, source: int, size: nat, addr: int, pick: int)
    requires Inv(s) && Enabled(s, DoGet(source, size, addr, pick))
    ensures Survives(s, DoGet(source, size, addr, pick))
  {
    hide Probing, Sound, Retrieve, BurstLen, Aligned, BlockOf, WordOf, Answer, Touch, Fits;
    var b := BlockOf(addr);
    assert s.m.aBurst == map[] by { hide *; ClearA(s); }
    BlockStart(addr);
    ListedSound(s, b);
    var s1 := s.(m := Listed(s.m, b));
    ProbingSame(s, s1, Out(s));
    assert Out(s1) == Out(s);
    if PermOf(s.m, b) != TIP {
      var r := Request(ToT, size, addr, AnswerGet(BurstLen(size), WordOf(addr), source));
      GetFits(r, s);
      var new_ := AskKeeps(s1, r, pick, Out(s));
      OutMore(s1, s1.(m := Retrieve(s1.m, r, pick).value), new_);
    } else {
      AnswerPlain(s.m.mem, BurstLen(size), WordOf(addr), source);
      PushedSound(s1, Touch(s.m.mem, WordOf(addr), BurstLen(size)), Answer(s.m.mem, BurstLen(size), WordOf(addr), source));
      var t := s.(m := PushAnswer(s1.m, BurstLen(size), WordOf(addr), source));
      ProbingSame(s1, t, Out(s));
      assert Out(t) == Out(s);
    }
  }

  lemma ClearA(s: Sys)
    requires Sound(s) && s.c.putting.None?
    ensures s.m.aBurst == map[]
  {
  }

  lemma GetFits(r: Request, s: Sys)
    requires r.callback.AnswerGet? && r.cap == ToT && Aligned(r.addr, r.size)
    requires r.callback.addr == WordOf(r.addr) && r.callback.len == BurstLen(r.size)
    ensures Fits(r, s.c.acq, s.m.ongoing, s.listed, s.done)
    ensures forall c :: !Kin(c, r.callback)
  {
  }

  /** A word of an aligned message lies in the message's block. */
  lemma RangeIn(w: int, addr: int, size: nat)
    requires Aligned(addr, size) && InRange(w, addr, size)
    ensures BlockOf(w) == BlockOf(addr)
  {
    hide BlockOf, Aligned, BurstLen;
    var k := (w - WordOf(addr)) / 8;
    assert w == Nth(WordOf(addr), k) && 0 <= k < BurstLen(size);
    WordIn(addr, size, k);
  }

  /** A write to a block without a grant under way leaves the grants as they are. */
  lemma GrantsWritten(acq: map<int, Acq>, ongoing: map<int, int>, flight: seq<DMsg>, latest: map<int, Word>,
                      cache: map<int, Word>, cache': map<int, Word>, held: map<int, Held>, a: int, v: Word)
    requires Grants(acq, ongoing, flight, latest, cache, held)
    requires BlockOf(a) in acq ==> acq[BlockOf(a)].arrived == BEATS && At(cache', a) == v
    requires forall w :: w != a ==> At(cache', w) == At(cache, w)
    ensures Grants(acq, ongoing, flight, latest[a := v], cache', held)
  {
    hide Owned, Stream, At, BlockOf, HeldOf;
    forall d | d in acq
      ensures Granting(d, acq[d], ongoing, flight, latest[a := v], cache', held)
    {
      assert Granting(d, acq[d], ongoing, flight, latest, cache, held);
      LineWritten(d, acq[d].arrived, latest, cache, cache', a, v);
    }
  }

  lemma LineWritten(d: int, k: nat, latest: map<int, Word>, cache: map<int, Word>, cache': map<int, Word>, a: int, v: Word)
    requires IsBlock(d) && k <= BEATS
    requires BlockOf(a) == d ==> k == BEATS && At(cache', a) == v
    requires forall w :: w != a ==> At(cache', w) == At(cache, w)
    requires forall i {:trigger At(cache, Nth(d, i))} :: 0 <= i < k ==> At(cache, Nth(d, i)) == At(latest, Nth(d, i))
    ensures Line(latest[a := v], d, k) == Line(latest, d, k)
    ensures forall i {:trigger At(cache', Nth(d, i))} :: 0 <= i < k ==> At(cache', Nth(d, i)) == At(latest[a := v], Nth(d, i))
  {
    hide BlockOf, Nth;
    forall i | 0 <= i < BEATS
      ensures i >= k ==> At(latest[a := v], Nth(d, i)) == At(latest, Nth(d, i))
      ensures i < k ==> At(cache', Nth(d, i)) == At(latest[a := v], Nth(d, i))
    {
      WordInBlock(d, i);
      if i < k {
        assert At(cache, Nth(d, i)) == At(latest, Nth(d, i));
      }
    }
  }

  /** A write through the adapter to a block that the core neither holds nor writes back. */
  lemma ValuesPut(mem: map<int, Word>, latest: map<int, Word>, cache: map<int, Word>, dirty: set<int>,
                  held: map<int, Held>, writing: Option<Writing>, a: int, v: Word)
    requires Values(mem, latest, cache, dirty, held, writing)
    requires HeldOf(held, BlockOf(a)) == N && !BusyOn(writing, BlockOf(a))
    requires writing.Some? ==> Aligned(writing.value.addr, writing.value.size)
    ensures Values(mem[a := v], latest[a := v], cache, dirty, held, writing)
  {
    CleanWord(mem, latest, cache, dirty, held, writing, a);
    hide BlockOf, HeldOf, Aligned, InRange, Behind;
    forall w | w !in dirty
      ensures At(mem[a := v], w) == At(latest[a := v], w)
    {
      assert At(mem, w) == At(latest, w);
    }
    forall w | IsWord(w) && HeldOf(held, BlockOf(w)) != N
      ensures At(cache, w) == At(latest[a := v], w)
    {
      assert At(cache, w) == At(latest, w);
    }
    if writing.Some? {
      var x := writing.value;
      forall w | InRange(w, x.addr, x.size)
        ensures At(cache, w) == At(latest[a := v], w)
      {
        RangeIn(w, x.addr, x.size);
        assert At(cache, w) == At(latest, w);
      }
    }
  }

  lemma PutIsTip(s: Sys, b: int)
    requires Sound(s) && HeldOf(s.c.held, b) == N && b !in s.c.acq && !BusyOn(s.c.writing, b)
    ensures PermOf(s.m, b) == TIP
  {
    hide Values, Sunk, Grants, Marked, Counts, Kept, Stream, Msgs;
    assert PermOf(s.m, b) == PermIn(s.m.perm, b);
  }

  /** How many beats of the write have been counted. */
  lemma PutBeat(s: Sys, source: int, size: nat, addr: int)
    requires Sound(s) && Aligned(addr, size)
    requires s.c.putting.Some? ==> s.c.putting.value.(sent := 0) == Putting(source, addr, size, 0)
    ensures var sent := if s.c.putting.Some? then s.c.putting.value.sent else 0;
      && Clear(s.m.aBurst, source) && Beat(s.m.aBurst, source) == sent < BurstLen(size)
      && Counted(s.m.aBurst, source, BurstLen(size)) == (if sent + 1 == BurstLen(size) then map[] else map[source := sent + 1])
  {
    hide Values, Sunk, Grants, Marked, Exclusive, Kept, Stream, Msgs;
  }

  lemma PutKeeps(s: Sys, source: int, size: nat, addr: int, mask: Mask, data: Word)
    requires Inv(s) && Enabled(s, DoPut(source, size, addr, mask, data))
    ensures Survives(s, DoPut(source, size, addr, mask, data))
  {
    hide Probing, Values, Sunk, Grants, Marked, Exclusive, BurstLen, Aligned, BlockOf, WordOf, Masked, Stream, Msgs, Kept, Pending;
    var m, c := s.m, s.c;
    var b := BlockOf(addr);
    var sent := if c.putting.Some? then c.putting.value.sent else 0;
    var a := Nth(WordOf(addr), sent);
    var v := Masked(At(m.mem, a), mask, data);
    PutIsTip(s, b);
    PutBeat(s, source, size, addr);
    WordIn(addr, size, sent);
    BlockStart(addr);
    ListedSound(s, b);
    var m1 := Listed(m, b);
    CleanWord(m.mem, s.latest, c.cache, c.dirty, c.held, c.writing, a);
    ValuesPut(m.mem, s.latest, c.cache, c.dirty, c.held, c.writing, a, v);
    GrantsWritten(c.acq, m.ongoing, Flight(m), s.latest, c.cache, c.cache, c.held, a, v);
    var q := if sent + 1 == BurstLen(size) then [DEntry(AccessAck(source), None)] else [];
    var t := s.(latest := s.latest[a := v], m := m1.(mem := m.mem[a := v], aBurst := Counted(m.aBurst, source, BurstLen(size))),
                c := c.(putting := if sent + 1 == BurstLen(size) then None else Some(Putting(source, addr, size, sent + 1))));
    assert Sound(t);
    PushedSound(t, t.m.mem, q);
    var u := t.(m := t.m.(dq := t.m.dq + q));
    ProbingSame(s, u, Out(s));
    assert Out(u) == Out(s);
    assert Apply(s, DoPut(source, size, addr, mask, data)) == Some(u);
  }

  /** A new acquire, before anything is done about it. */
  function Wanting(s: Sys, b: int, cap: Cap, sink: int): Sys {
    s.(m := s.m.(perm := s.m.perm[b := PermOf(s.m, b)], sinks := s.m.sinks - {sink}), c := s.c.(acq := s.c.acq[b := Acq(cap, sink, 0)]))
  }

  lemma WantingSunk(acq: map<int, Acq>, ongoing: map<int, int>, sinks: set<int>, b: int, cap: Cap, sink: int)
    requires Sunk(acq, ongoing, sinks) && b !in acq && sink in sinks
    ensures sink !in ongoing && Sunk(acq[b := Acq(cap, sink, 0)], ongoing, sinks - {sink})
  {
    var acq' := acq[b := Acq(cap, sink, 0)];
    forall k | k in ongoing
      ensures k !in sinks
    {
      var d := ongoing[k];
      assert d in acq && acq[d].sink !in sinks;
    }
    forall k | k in SINKS && k !in sinks - {sink}
      ensures exists d :: d in acq' && acq'[d].sink == k
    {
      if k == sink {
        assert acq'[b].sink == k;
      } else {
        var d :| d in acq && acq[d].sink == k;
        assert acq'[d].sink == k;
      }
    }
  }

  lemma WantingGrants(acq: map<int, Acq>, ongoing: map<int, int>, flight: seq<DMsg>, latest: map<int, Word>, cache: map<int, Word>,
                      held: map<int, Held>, b: int, cap: Cap, sink: int)
    requires Grants(acq, ongoing, flight, latest, cache, held)
    requires b !in acq && IsBlock(b) && cap != ToN && sink !in ongoing && HeldOf(held, b) != T
    ensures Grants(acq[b := Acq(cap, sink, 0)], ongoing, flight, latest, cache, held)
  {
    hide HeldOf, Stream;
    StreamOther(b, flight);
    var acq' := acq[b := Acq(cap, sink, 0)];
    forall d | d in acq'
      ensures Granting(d, acq'[d], ongoing, flight, latest, cache, held)
    {
      if d != b {
        assert Granting(d, acq[d], ongoing, flight, latest, cache, held);
      }
    }
  }

  lemma WantingExclusive(perm: map<int, Perm>, held: map<int, Held>, writing: Option<Writing>, acq: map<int, Acq>,
                         ongoing: map<int, int>, dq: seq<DEntry>, b: int, cap: Cap, sink: int)
    requires Exclusive(perm, held, writing, acq, ongoing, dq) && b !in acq && sink !in ongoing
    ensures Exclusive(perm, held, writing, acq[b := Acq(cap, sink, 0)], ongoing, dq)
  {
    hide Stream, Msgs, PermIn, HeldOf, FromT;
    var acq' := acq[b := Acq(cap, sink, 0)];
    forall d
      ensures PermIn(perm, d) == TRUNK <==>
              HeldOf(held, d) == T || FromT(writing, d) || (OnItsWay(acq', ongoing, d) && |Stream(d, Msgs(dq))| < BEATS)
      ensures FromT(writing, d) ==> !(Issued(acq', ongoing, d) && acq'[d].arrived < BEATS)
    {
      assert OnItsWay(acq', ongoing, d) <==> OnItsWay(acq, ongoing, d);
      assert Issued(acq', ongoing, d) ==> Issued(acq, ongoing, d);
    }
  }

  lemma WantingKeeps(s: Sys, b: int, cap: Cap, sink: int, out: seq<Probe>)
    requires Sound(s) && Probing(s, out)
    requires b !in s.c.acq && IsBlock(b) && cap != ToN && sink in s.m.sinks && HeldOf(s.c.held, b) != T
    ensures var t := Wanting(s, b, cap, sink);
            && Sound(t) && Probing(t, out) && sink !in t.m.ongoing && Pending(t.m, out) == Pending(s.m, out)
            && forall i :: 0 <= i < |Pending(t.m, out)| && Pending(t.m, out)[i].callback.GrantBlock? ==>
                 Pending(t.m, out)[i].callback.addr != b && Pending(t.m, out)[i].callback.sink != sink
  {
    hide Values, Sunk, Grants, Marked, Exclusive, Counts, Kept, Books, Pending, Stream, Msgs;
    var m, c := s.m, s.c;
    var t := Wanting(s, b, cap, sink);
    InBlockStart(b);
    ListedSound(s, b);
    WantingSunk(c.acq, m.ongoing, m.sinks, b, cap, sink);
    WantingGrants(c.acq, m.ongoing, Flight(m), s.latest, c.cache, c.held, b, cap, sink);
    WantingExclusive(t.m.perm, c.held, c.writing, c.acq, m.ongoing, m.dq, b, cap, sink);
    BooksSame(m, t.m, out);
    var pending := Pending(m, out);
    forall i | 0 <= i < |pending|
      ensures Fits(pending[i], t.c.acq, m.ongoing, s.listed, s.done)
      ensures pending[i].callback.GrantBlock? ==> pending[i].callback.addr != b && pending[i].callback.sink != sink
    {
      assert Fits(pending[i], c.acq, m.ongoing, s.listed, s.done);
      if pending[i].callback.GrantBlock? {
        SinkTaken(c.acq, m.ongoing, m.sinks, pending[i].callback.addr);
      }
    }
    AskedSame(pending, c.acq, t.c.acq, m.ongoing, m.ongoing, s.listed, s.done);
  }

  lemma InBlockStart(b: int)
    requires IsBlock(b)
    ensures BlockOf(b) == b && WordOf(b) == b && Aligned(b, 6) && BurstLen(6) == BEATS
  {
    BurstLens();
  }

  lemma SinkTaken(acq: map<int, Acq>, ongoing: map<int, int>, sinks: set<int>, b: int)
    requires Sunk(acq, ongoing, sinks) && b in acq
    ensures acq[b].sink !in sinks
  {
  }

  /** Acquires with different sinks among `vals` are no more than these. */
  lemma {:induction false} NoMore(keys: set<int>, acq: map<int, Acq>, vals: set<int>)
    requires keys <= acq.Keys && forall b :: b in keys ==> acq[b].sink in vals
    requires forall b, d :: b in keys && d in keys && acq[b].sink == acq[d].sink ==> b == d
    ensures |keys| <= |vals|
    decreases keys
  {
    FreeLists.HasMember(keys);
    if keys != {} {
      var b :| b in keys;
      NoMore(keys - {b}, acq, vals - {acq[b].sink});
    }
  }

  /** If each of the sinks belongs to an acquire, there are as many acquires. */
  lemma {:induction false} NoFewer(vals: set<int>, acq: map<int, Acq>, keys: set<int>)
    requires keys <= acq.Keys && forall k :: k in vals ==> exists b :: b in keys && acq[b].sink == k
    ensures |vals| <= |keys|
    decreases vals
  {
    FreeLists.HasMember(vals);
    if vals != {} {
      var k :| k in vals;
      var b :| b in keys && acq[b].sink == k;
      forall j | j in vals - {k}
        ensures exists d :: d in keys - {b} && acq[d].sink == j
      {
        var d :| d in keys && acq[d].sink == j;
        assert d in keys - {b};
      }
      NoFewer(vals - {k}, acq, keys - {b});
    }
  }

  /** A sink is free exactly while there are fewer acquires than sinks. */
  lemma SinkFree(acq: map<int, Acq>, ongoing: map<int, int>, sinks: set<int>)
    requires Sunk(acq, ongoing, sinks)
    ensures sinks != {} <==> |acq| < |SINKS|
  {
    var used := SINKS - sinks;
    NoMore(acq.Keys, acq, used);
    NoFewer(used, acq, acq.Keys);
    assert |acq| == |acq.Keys|;
    Parted(SINKS, sinks);
  }

  lemma Parted(all: set<int>, some: set<int>)
    requires some <= all
    ensures |all| == |all - some| + |some|
  {
    var rest := all - some;
    assert rest + some == all by {
      assert forall x :: x in rest + some <==> x in all;
    }
    assert rest !! some;
  }

  /** With as many acquires as sinks under way, one more meets the failing assertion of the free list, and only then. */
  lemma AcquireExact(s: Sys, grow: Grow, source: int, addr: int, sink: int, pick: int)
    requires Inv(s) && s.c.putting.None? && Picks(s.m, pick) && (s.m.sinks != {} ==> sink in s.m.sinks)
    ensures OnAcquireBlock(s.m, grow, source, 6, addr, sink, pick).Some? <==> |s.c.acq| < |SINKS|
  {
    hide Probing, Sound, BlockOf, WordOf, BurstLen, Retrieve;
    TakenSink(s);
    ClearA(s);
    Retrieves(s, s.m.(perm := s.m.perm[BlockOf(addr) := PermOf(s.m, BlockOf(addr))], sinks := s.m.sinks - {sink}),
              Request(if grow == NtoB then ToB else ToN, 6, addr, GrantBlock(Granted(grow), sink, BurstLen(6), WordOf(addr), source)), pick);
  }

  /** A request finds a free source or waits, whatever else was changed before. */
  lemma Retrieves(s: Sys, m: Manager, r: Request, pick: int)
    requires Inv(s) && Picks(s.m, pick)
    requires m.free == s.m.free && m.all == s.m.all && m.calls == s.m.calls
    ensures Retrieve(m, r, pick).Some?
  {
    hide Sound, Asked, Pending;
  }

  /** A probe asked for by the host meets the failing assertion exactly when its turn has come and its block is not listed. */
  lemma HostProbeExact(s: Sys, addr: int, pick: int)
    requires Inv(s) && Picks(s.m, pick)
    ensures OnHostProbe(s.m, addr, pick).None? <==> s.m.probeEn && addr !in s.m.ongoing.Values && BlockOf(addr) !in s.m.perm
  {
    hide Probing, Sound, BlockOf, Retrieve;
    Retrieves(s, s.m.(probeEn := false), Request(ToN, 6, addr, EnableProbe), pick);
  }

  lemma AskedSame(pending: seq<Request>, acq: map<int, Acq>, acq': map<int, Acq>, ongoing: map<int, int>, ongoing': map<int, int>,
                  listed: Option<seq<int>>, done: seq<int>)
    requires Asked(pending, acq, ongoing, listed, done)
    requires forall i :: 0 <= i < |pending| ==> Fits(pending[i], acq', ongoing', listed, done)
    ensures Asked(pending, acq', ongoing', listed, done)
  {
  }

  lemma AcquireKeeps(s: Sys, grow: Grow, source: int, addr: int, sink: int, pick: int)
    requires Inv(s) && Enabled(s, DoAcquire(grow, source, addr, sink, pick))
    ensures Survives(s, DoAcquire(grow, source, addr, sink, pick))
  {
    hide Probing, Sound, Retrieve, BurstLen, Aligned, BlockOf, WordOf, Grant, Touch, Pending;
    var cap, out := Granted(grow), Out(s);
    ClearA(s);
    assert sink in s.m.sinks by {
      hide *;
      TakenSink(s);
    }
    InBlockStart(addr);
    WantingKeeps(s, addr, cap, sink, out);
    var t := Wanting(s, addr, cap, sink);
    assert Out(t) == out;
    if PermOf(s.m, addr) != TIP {
      var r := Request(if grow == NtoB then ToB else ToN, 6, addr, GrantBlock(cap, sink, BEATS, addr, source));
      var new_ := AskKeeps(t, r, pick, out);
      OutMore(t, t.(m := Retrieve(t.m, r, pick).value), new_);
    } else {
      TipQuiet(s, addr);
      GrantSound(t, addr, source);
      var u := t.(m := PushGrant(t.m, BEATS, addr, cap, sink, source));
      GrantProbing(t, u, out, addr, sink);
      assert Out(u) == out;
    }
  }

  lemma TakenSink(s: Sys)
    requires Inv(s)
    ensures s.m.sinks != {} <==> |s.c.acq| < |SINKS|
  {
    hide Probing, Values, Grants, Marked, Exclusive, Counts, Kept;
    SinkFree(s.c.acq, s.m.ongoing, s.m.sinks);
  }

  lemma TipQuiet(s: Sys, b: int)
    requires Sound(s) && PermOf(s.m, b) == TIP
    ensures HeldOf(s.c.held, b) != T && !FromT(s.c.writing, b)
  {
    hide Values, Sunk, Grants, Marked, Counts, Kept, Stream, Msgs;
    assert PermOf(s.m, b) == PermIn(s.m.perm, b);
  }

  /** Issuing a grant nobody else waits for leaves the pending requests fitting. */
  lemma GrantProbing(s: Sys, t: Sys, out: seq<Probe>, b: int, sink: int)
    requires Probing(s, out)
    requires t.m.all == s.m.all && t.m.free == s.m.free && t.m.calls == s.m.calls && t.m.waiting == s.m.waiting
    requires t.c.acq == s.c.acq && t.m.ongoing == s.m.ongoing[sink := b] && t.listed == s.listed && t.done == s.done
    requires forall i :: 0 <= i < |Pending(s.m, out)| && Pending(s.m, out)[i].callback.GrantBlock? ==> Pending(s.m, out)[i].callback.sink != sink
    ensures Probing(t, out) && Pending(t.m, out) == Pending(s.m, out)
  {
    hide Books, Pending;
    BooksSame(s.m, t.m, out);
    var pending := Pending(s.m, out);
    forall i | 0 <= i < |pending|
      ensures Fits(pending[i], t.c.acq, t.m.ongoing, s.listed, s.done)
    {
      assert Fits(pending[i], s.c.acq, s.m.ongoing, s.listed, s.done);
    }
    AskedSame(pending, s.c.acq, t.c.acq, s.m.ongoing, t.m.ongoing, s.listed, s.done);
  }

  // ---------- Channel E, the drivers, the core ----------

  lemma DoneSunk(acq: map<int, Acq>, ongoing: map<int, int>, sinks: set<int>, b: int)
    requires Sunk(acq, ongoing, sinks) && b in acq && acq[b].sink in ongoing
    ensures Sunk(acq - {b}, ongoing - {acq[b].sink}, sinks + {acq[b].sink})
  {
    var k := acq[b].sink;
    forall j | j in SINKS && j !in sinks + {k}
      ensures exists d :: d in acq - {b} && (acq - {b})[d].sink == j
    {
      var d :| d in acq && acq[d].sink == j;
      assert (acq - {b})[d].sink == j;
    }
  }

  lemma DoneGrants(acq: map<int, Acq>, ongoing: map<int, int>, sinks: set<int>, flight: seq<DMsg>, latest: map<int, Word>,
                   cache: map<int, Word>, held: map<int, Held>, b: int)
    requires Grants(acq, ongoing, flight, latest, cache, held) && Sunk(acq, ongoing, sinks)
    requires b in acq && acq[b].arrived == BEATS
    ensures acq[b].sink in ongoing
    ensures Grants(acq - {b}, ongoing - {acq[b].sink}, flight, latest, cache, held)
  {
    hide HeldOf, Stream;
    assert Granting(b, acq[b], ongoing, flight, latest, cache, held);
    assert Stream(b, flight) == [];
    forall i | 0 <= i < |flight| && flight[i].GrantData?
      ensures flight[i].block != b
    {
      if flight[i].block == b {
        StreamHas(b, flight, i);
      }
    }
    forall d | d in acq - {b}
      ensures Granting(d, acq[d], ongoing - {acq[b].sink}, flight, latest, cache, held)
    {
      assert Granting(d, acq[d], ongoing, flight, latest, cache, held);
    }
  }

  lemma DoneExclusive(perm: map<int, Perm>, held: map<int, Held>, writing: Option<Writing>, acq: map<int, Acq>,
                      ongoing: map<int, int>, sinks: set<int>, dq: seq<DEntry>, b: int)
    requires Exclusive(perm, held, writing, acq, ongoing, dq) && Sunk(acq, ongoing, sinks) && b in acq && acq[b].arrived == BEATS
    ensures Exclusive(perm, held, writing, acq - {b}, ongoing - {acq[b].sink}, dq)
  {
    hide Stream, Msgs, PermIn, HeldOf, FromT;
    var acq', g := acq - {b}, ongoing - {acq[b].sink};
    forall d
      ensures PermIn(perm, d) == TRUNK <==>
              HeldOf(held, d) == T || FromT(writing, d) || (OnItsWay(acq', g, d) && |Stream(d, Msgs(dq))| < BEATS)
      ensures FromT(writing, d) ==> !(Issued(acq', g, d) && acq'[d].arrived < BEATS)
    {
      assert OnItsWay(acq', g, d) <==> OnItsWay(acq, ongoing, d);
      assert Issued(acq', g, d) ==> Issued(acq, ongoing, d);
    }
  }

  lemma GrantAckKeeps(s: Sys, b: int)
    requires Inv(s) && Enabled(s, DoGrantAck(b))
    ensures Survives(s, DoGrantAck(b))
  {
    hide Values, Sunk, Grants, Marked, Exclusive, Counts, Kept, Books, Pending, Stream, Msgs;
    var m, c := s.m, s.c;
    var k := c.acq[b].sink;
    DoneGrants(c.acq, m.ongoing, m.sinks, Flight(m), s.latest, c.cache, c.held, b);
    DoneSunk(c.acq, m.ongoing, m.sinks, b);
    DoneExclusive(m.perm, c.held, c.writing, c.acq, m.ongoing, m.sinks, m.dq, b);
    SinkTaken(c.acq, m.ongoing, m.sinks, b);
    SinkKnown(c.acq, m.ongoing, m.sinks, b);
    var t := Apply(s, DoGrantAck(b)).value;
    var out := Out(s);
    BooksSame(m, t.m, out);
    assert Out(t) == out;
    var pending := Pending(m, out);
    forall i | 0 <= i < |pending|
      ensures Fits(pending[i], t.c.acq, t.m.ongoing, s.listed, s.done)
    {
      assert Fits(pending[i], c.acq, m.ongoing, s.listed, s.done);
    }
    AskedSame(pending, c.acq, t.c.acq, m.ongoing, t.m.ongoing, s.listed, s.done);
  }

  lemma SinkKnown(acq: map<int, Acq>, ongoing: map<int, int>, sinks: set<int>, b: int)
    requires Sunk(acq, ongoing, sinks) && b in acq
    ensures acq[b].sink in SINKS
  {
  }

  lemma MarkedTail(dq: seq<DEntry>)
    requires Marked(dq) && dq != []
    ensures Marked(dq[1..])
  {
    forall k | 0 <= k < |dq[1..]|
      ensures MarkedAt(dq[1..], k)
    {
      assert MarkedAt(dq, k + 1);
      assert dq[1..][k..] == dq[k + 1..];
    }
  }

  /** What the first queued message is, and what is queued behind it. */
  lemma FirstOut(dq: seq<DEntry>, acq: map<int, Acq>, ongoing: map<int, int>, latest: map<int, Word>, cache: map<int, Word>, held: map<int, Held>)
    requires Marked(dq) && dq != [] && Grants(acq, ongoing, Msgs(dq), latest, cache, held)
    ensures var e := dq[0];
      && (e.msg.GrantData? ==>
           var b := e.msg.block;
           && IsBlock(b) && OnItsWay(acq, ongoing, b) == (e.msg.cap == ToT) && b in acq
           && 0 < |Stream(b, Msgs(dq))| <= BEATS && |Stream(b, Msgs(dq[1..]))| == |Stream(b, Msgs(dq))| - 1)
      && e.grant == (if e.msg.GrantData? && |Stream(e.msg.block, Msgs(dq))| == BEATS then Some((e.msg.block, e.msg.cap)) else None)
  {
    hide HeldOf, At;
    var e := dq[0];
    assert MarkedAt(dq, 0) && dq[0..] == dq;
    assert Msgs(dq) == [e.msg] + Msgs(dq[1..]) && Msgs(dq)[0] == e.msg;
    if e.msg.GrantData? {
      var b := e.msg.block;
      assert Granting(b, acq[b], ongoing, Msgs(dq), latest, cache, held);
      StreamApp(b, [e.msg], Msgs(dq[1..]));
    }
  }

  lemma OthersOut(dq: seq<DEntry>, d: int)
    requires dq != [] && !(dq[0].msg.GrantData? && dq[0].msg.block == d)
    ensures Stream(d, Msgs(dq[1..])) == Stream(d, Msgs(dq))
  {
    assert Msgs(dq) == [dq[0].msg] + Msgs(dq[1..]);
    StreamApp(d, [dq[0].msg], Msgs(dq[1..]));
    StreamOther(d, [dq[0].msg]);
  }

  /** Sending the next message: what it takes off the queue, and what it records. */
  lemma SentExclusive(perm: map<int, Perm>, held: map<int, Held>, writing: Option<Writing>, acq: map<int, Acq>,
                      ongoing: map<int, int>, dq: seq<DEntry>, latest: map<int, Word>, cache: map<int, Word>)
    requires Exclusive(perm, held, writing, acq, ongoing, dq) && Marked(dq) && dq != []
    requires Grants(acq, ongoing, Msgs(dq), latest, cache, held)
    ensures var e := dq[0];
            var perm' := if e.grant.Some? && e.grant.value.1 == ToT then perm[e.grant.value.0 := TRUNK] else perm;
            Exclusive(perm', held, writing, acq, ongoing, dq[1..])
    ensures dq[0].grant.Some? ==> IsBlock(dq[0].grant.value.0)
  {
    hide HeldOf, FromT, Grants, Marked, Stream, Msgs, OnItsWay;
    var e := dq[0];
    var perm' := if e.grant.Some? && e.grant.value.1 == ToT then perm[e.grant.value.0 := TRUNK] else perm;
    FirstOut(dq, acq, ongoing, latest, cache, held);
    forall d
      ensures PermIn(perm', d) == TRUNK <==>
              HeldOf(held, d) == T || FromT(writing, d) || (OnItsWay(acq, ongoing, d) && |Stream(d, Msgs(dq[1..]))| < BEATS)
    {
      if !(e.msg.GrantData? && e.msg.block == d) {
        OthersOut(dq, d);
        assert PermIn(perm', d) == PermIn(perm, d);
      }
    }
  }

  lemma SendsDKeeps(s: Sys)
    requires Inv(s) && Enabled(s, SendsD)
    ensures Survives(s, SendsD)
  {
    hide Values, Sunk, Grants, Marked, Exclusive, Counts, Books, Pending, Stream, Probing;
    var m, c := s.m, s.c;
    assert Flight(m) == Msgs(m.dq);
    MarkedTail(m.dq);
    SentExclusive(m.perm, c.held, c.writing, c.acq, m.ongoing, m.dq, s.latest, c.cache);
    var t := Apply(s, SendsD).value;
    assert Flight(t.m) == Flight(m);
    ProbingSame(s, t, Out(s));
    assert Out(t) == Out(s);
  }

  lemma SendsBKeeps(s: Sys)
    requires Inv(s) && Enabled(s, SendsB)
    ensures Survives(s, SendsB)
  {
    hide Values, Sunk, Grants, Marked, Exclusive, Counts, Kept, Stream, Probing, Msgs;
    var t := Apply(s, SendsB).value;
    ProbingSame(s, t, Out(s));
    assert Out(t) == Out(s);
  }

  lemma TakeBKeeps(s: Sys)
    requires Inv(s) && Enabled(s, TakeB)
    ensures Survives(s, TakeB)
  {
    hide Values, Sunk, Grants, Marked, Exclusive, Counts, Kept, Stream, Probing, Msgs;
    var t := Apply(s, TakeB).value;
    ProbingSame(s, t, Out(s));
    assert Out(t) == Out(s);
  }

  /** What a grant beat at the port is, and what is behind it. */
  lemma NextBeat(acq: map<int, Acq>, ongoing: map<int, int>, msg: DMsg, rest: seq<DMsg>, latest: map<int, Word>,
                 cache: map<int, Word>, held: map<int, Held>)
    requires Grants(acq, ongoing, [msg] + rest, latest, cache, held) && msg.GrantData?
    ensures var b := msg.block;
      && b in acq && IsBlock(b) && acq[b].sink in ongoing && acq[b].cap != ToN && HeldOf(held, b) != T
      && var k := acq[b].arrived;
         && k < BEATS && msg.data == At(latest, Nth(b, k)) && Stream(b, rest) == Line(latest, b, k + 1)
         && forall i {:trigger At(cache, Nth(b, i))} :: 0 <= i < k ==> At(cache, Nth(b, i)) == At(latest, Nth(b, i))
  {
    hide At, HeldOf;
    var b := msg.block;
    assert ([msg] + rest)[0] == msg;
    assert Granting(b, acq[b], ongoing, [msg] + rest, latest, cache, held);
    StreamApp(b, [msg], rest);
    assert Stream(b, [msg]) == [msg.data];
    hide Stream;
    LineHead(latest, b, acq[b].arrived, msg.data, Stream(b, rest));
  }

  lemma LineHead(latest: map<int, Word>, b: int, k: nat, data: Word, rest: seq<Word>)
    requires k <= BEATS && [data] + rest == Line(latest, b, k)
    ensures k < BEATS && data == At(latest, Nth(b, k)) && rest == Line(latest, b, k + 1)
  {
    hide At, Nth;
    var l := Line(latest, b, k);
    assert |l| == BEATS - k && l[0] == data && l[1..] == rest;
    assert l[1..] == Line(latest, b, k + 1);
  }

  /** A beat arrives: the block has one more current word. */
  lemma FilledGrants(acq: map<int, Acq>, ongoing: map<int, int>, msg: DMsg, rest: seq<DMsg>, latest: map<int, Word>,
                     c: Core)
    requires Grants(acq, ongoing, [msg] + rest, latest, c.cache, c.held) && msg.GrantData? && acq == c.acq
    ensures var d := Fill(c, msg.block, msg.data);
            Grants(d.acq, ongoing, rest, latest, d.cache, d.held)
  {
    hide At, Stream;
    NextBeat(acq, ongoing, msg, rest, latest, c.cache, c.held);
    var b := msg.block;
    var d := Fill(c, b, msg.data);
    assert forall i :: 0 <= i < |rest| ==> ([msg] + rest)[i + 1] == rest[i];
    forall e | e in d.acq
      ensures Granting(e, d.acq[e], ongoing, rest, latest, d.cache, d.held)
    {
      assert Granting(e, acq[e], ongoing, [msg] + rest, latest, c.cache, c.held);
      if e == b {
        FilledLine(c.cache, latest, b, acq[b].arrived, msg.data);
      } else {
        OtherLine(c.cache, latest, b, acq[b].arrived, msg.data, e, acq[e].arrived);
        StreamApp(e, [msg], rest);
        StreamOther(e, [msg]);
      }
    }
  }

  lemma FilledLine(cache: map<int, Word>, latest: map<int, Word>, b: int, k: nat, data: Word)
    requires IsBlock(b) && k < BEATS && data == At(latest, Nth(b, k))
    requires forall i {:trigger At(cache, Nth(b, i))} :: 0 <= i < k ==> At(cache, Nth(b, i)) == At(latest, Nth(b, i))
    ensures var cache' := cache[Nth(b, k) := data];
            forall i {:trigger At(cache', Nth(b, i))} :: 0 <= i < k + 1 ==> At(cache', Nth(b, i)) == At(latest, Nth(b, i))
  {
    var cache' := cache[Nth(b, k) := data];
    forall i | 0 <= i < k + 1
      ensures At(cache', Nth(b, i)) == At(latest, Nth(b, i))
    {
      if i < k {
        assert At(cache, Nth(b, i)) == At(latest, Nth(b, i));
      }
    }
  }

  lemma OtherLine(cache: map<int, Word>, latest: map<int, Word>, b: int, k: nat, data: Word, e: int, n: nat)
    requires IsBlock(b) && k < BEATS && IsBlock(e) && e != b && n <= BEATS
    requires forall i {:trigger At(cache, Nth(e, i))} :: 0 <= i < n ==> At(cache, Nth(e, i)) == At(latest, Nth(e, i))
    ensures var cache' := cache[Nth(b, k) := data];
            forall i {:trigger At(cache', Nth(e, i))} :: 0 <= i < n ==> At(cache', Nth(e, i)) == At(latest, Nth(e, i))
  {
    hide BlockOf;
    var cache' := cache[Nth(b, k) := data];
    forall i | 0 <= i < n
      ensures At(cache', Nth(e, i)) == At(latest, Nth(e, i))
    {
      WordInBlock(b, k);
      WordInBlock(e, i);
      assert At(cache, Nth(e, i)) == At(latest, Nth(e, i));
    }
  }

  lemma FilledValues(mem: map<int, Word>, latest: map<int, Word>, c: Core, b: int, data: Word)
    requires Values(mem, latest, c.cache, c.dirty, c.held, c.writing)
    requires b in c.acq && IsBlock(b) && c.acq[b].arrived < BEATS && HeldOf(c.held, b) != T && !FromT(c.writing, b)
    requires data == At(latest, Nth(b, c.acq[b].arrived))
    requires forall i {:trigger At(c.cache, Nth(b, i))} :: 0 <= i < c.acq[b].arrived ==> At(c.cache, Nth(b, i)) == At(latest, Nth(b, i))
    ensures var d := Fill(c, b, data);
            Values(mem, latest, d.cache, d.dirty, d.held, d.writing)
  {
    hide BlockOf, InRange, Behind;
    var d := Fill(c, b, data);
    var k := c.acq[b].arrived;
    var a := Nth(b, k);
    WordInBlock(b, k);
    forall w | w in c.dirty
      ensures HeldOf(d.held, BlockOf(w)) == T || Behind(c.writing, w)
    {
      if BlockOf(w) == b {
        CleanWord(mem, latest, c.cache, c.dirty, c.held, c.writing, w);
      }
    }
    forall w | IsWord(w) && HeldOf(d.held, BlockOf(w)) != N
      ensures At(d.cache, w) == At(latest, w)
    {
      if HeldOf(c.held, BlockOf(w)) != N {
        assert At(c.cache, w) == At(latest, w);
      } else {
        assert BlockOf(w) == b && k + 1 == BEATS;
        var i := WordAt(b, w);
        FilledLine(c.cache, latest, b, k, data);
      }
    }
    if c.writing.Some? {
      var x := c.writing.value;
      forall w | InRange(w, x.addr, x.size)
        ensures At(d.cache, w) == At(latest, w)
      {
        assert At(c.cache, w) == At(latest, w);
      }
    }
  }

  lemma WordAt(b: int, w: int) returns (i: int)
    requires IsBlock(b) && IsWord(w) && BlockOf(w) == b
    ensures 0 <= i < BEATS && w == Nth(b, i)
  {
    i := (w - b) / 8;
  }

  lemma FilledExclusive(perm: map<int, Perm>, c: Core, ongoing: map<int, int>, dq: seq<DEntry>, latest: map<int, Word>, b: int, data: Word)
    requires Exclusive(perm, c.held, c.writing, c.acq, ongoing, dq)
    requires b in c.acq && c.acq[b].sink in ongoing && c.acq[b].arrived < BEATS && c.acq[b].cap != ToN && HeldOf(c.held, b) != T
    requires Stream(b, Msgs(dq)) == Line(latest, b, c.acq[b].arrived + 1)
    ensures var d := Fill(c, b, data);
            Exclusive(perm, d.held, d.writing, d.acq, ongoing, dq)
  {
    hide Stream, Msgs, PermIn, BlockOf;
    var d := Fill(c, b, data);
    assert Issued(c.acq, ongoing, b);
    forall e
      ensures PermIn(perm, e) == TRUNK <==>
              HeldOf(d.held, e) == T || FromT(c.writing, e) || (OnItsWay(d.acq, ongoing, e) && |Stream(e, Msgs(dq))| < BEATS)
      ensures FromT(c.writing, e) ==> !(Issued(d.acq, ongoing, e) && d.acq[e].arrived < BEATS)
    {
      assert e != b ==> HeldOf(d.held, e) == HeldOf(c.held, e) && (OnItsWay(d.acq, ongoing, e) <==> OnItsWay(c.acq, ongoing, e));
    }
  }

  lemma FilledSunk(acq: map<int, Acq>, ongoing: map<int, int>, sinks: set<int>, b: int, k: nat)
    requires Sunk(acq, ongoing, sinks) && b in acq
    ensures Sunk(acq[b := acq[b].(arrived := k)], ongoing, sinks)
  {
    var acq' := acq[b := acq[b].(arrived := k)];
    forall j | j in SINKS && j !in sinks
      ensures exists d :: d in acq' && acq'[d].sink == j
    {
      var d :| d in acq && acq[d].sink == j;
      assert acq'[d].sink == j;
    }
  }

  /** A message of the D channel arrives at the core. */
  lemma TakeDKeeps(s: Sys)
    requires Inv(s) && Enabled(s, TakeD)
    ensures Survives(s, TakeD)
  {
    hide Values, Sunk, Marked, Exclusive, Counts, Kept, Books, Pending, Stream, Msgs, Granting;
    var m, c := s.m, s.c;
    var msg := m.dPort.value;
    var t := Apply(s, TakeD).value;
    assert Out(t) == Out(s) && Flight(t.m) == Msgs(m.dq);
    assert Flight(m) == [msg] + Msgs(m.dq);
    if msg.GrantData? {
      var b := msg.block;
      NextBeat(c.acq, m.ongoing, msg, Msgs(m.dq), s.latest, c.cache, c.held);
      NotFromT(m.perm, c.held, c.writing, c.acq, m.ongoing, m.dq, b);
      FilledGrants(c.acq, m.ongoing, msg, Msgs(m.dq), s.latest, c);
      FilledValues(m.mem, s.latest, c, b, msg.data);
      FilledExclusive(m.perm, c, m.ongoing, m.dq, s.latest, b, msg.data);
      FilledSunk(c.acq, m.ongoing, m.sinks, b, c.acq[b].arrived + 1);
      FilledProbing(s, t, Out(s), b);
    } else {
      ArrivedPlain(c.acq, m.ongoing, msg, Msgs(m.dq), s.latest, c.cache, c.held);
      ProbingSame(s, t, Out(s));
    }
  }

  lemma NotFromT(perm: map<int, Perm>, held: map<int, Held>, writing: Option<Writing>, acq: map<int, Acq>,
                 ongoing: map<int, int>, dq: seq<DEntry>, b: int)
    requires Exclusive(perm, held, writing, acq, ongoing, dq) && Issued(acq, ongoing, b) && acq[b].arrived < BEATS
    ensures !FromT(writing, b)
  {
  }

  lemma ArrivedPlain(acq: map<int, Acq>, ongoing: map<int, int>, msg: DMsg, rest: seq<DMsg>, latest: map<int, Word>,
                     cache: map<int, Word>, held: map<int, Held>)
    requires Grants(acq, ongoing, [msg] + rest, latest, cache, held) && !msg.GrantData?
    ensures Grants(acq, ongoing, rest, latest, cache, held)
  {
    hide Stream;
    assert forall i :: 0 <= i < |rest| ==> ([msg] + rest)[i + 1] == rest[i];
    forall d | d in acq
      ensures Granting(d, acq[d], ongoing, rest, latest, cache, held)
    {
      assert Granting(d, acq[d], ongoing, [msg] + rest, latest, cache, held);
      StreamApp(d, [msg], rest);
      StreamOther(d, [msg]);
    }
  }

  /** A grant that arrives was issued, so nothing pending is for it. */
  lemma FilledProbing(s: Sys, t: Sys, out: seq<Probe>, b: int)
    requires Probing(s, out) && b in s.c.acq && s.c.acq[b].sink in s.m.ongoing
    requires t.m.all == s.m.all && t.m.free == s.m.free && t.m.calls == s.m.calls && t.m.waiting == s.m.waiting
    requires b in t.c.acq && t.c.acq == s.c.acq[b := t.c.acq[b]] && t.m.ongoing == s.m.ongoing && t.listed == s.listed && t.done == s.done
    ensures Probing(t, out) && Pending(t.m, out) == Pending(s.m, out)
  {
    hide Books, Pending;
    BooksSame(s.m, t.m, out);
    var pending := Pending(s.m, out);
    forall i | 0 <= i < |pending|
      ensures Fits(pending[i], t.c.acq, t.m.ongoing, s.listed, s.done)
    {
      assert Fits(pending[i], s.c.acq, s.m.ongoing, s.listed, s.done);
    }
    AskedSame(pending, s.c.acq, t.c.acq, s.m.ongoing, t.m.ongoing, s.listed, s.done);
  }

  lemma StoreValues(mem: map<int, Word>, latest: map<int, Word>, cache: map<int, Word>, dirty: set<int>,
                    held: map<int, Held>, writing: Option<Writing>, a: int, v: Word)
    requires Values(mem, latest, cache, dirty, held, writing)
    requires IsWord(a) && HeldOf(held, BlockOf(a)) == T && !BusyOn(writing, BlockOf(a))
    requires writing.Some? ==> Aligned(writing.value.addr, writing.value.size)
    ensures Values(mem, latest[a := v], cache[a := v], dirty + {a}, held, writing)
  {
    hide BlockOf, HeldOf, Aligned, InRange, Behind, Before;
    var latest', cache' := latest[a := v], cache[a := v];
    forall w | w !in dirty + {a}
      ensures At(mem, w) == At(latest', w)
    {
      assert At(mem, w) == At(latest, w);
    }
    forall w | IsWord(w) && HeldOf(held, BlockOf(w)) != N
      ensures At(cache', w) == At(latest', w)
    {
      if w != a {
        assert At(cache, w) == At(latest, w);
      }
    }
    if writing.Some? {
      var x := writing.value;
      forall w | w in dirty + {a} && InRange(w, x.addr, x.size)
        ensures !Before(x, w)
      {
        RangeIn(w, x.addr, x.size);
        assert w in dirty;
      }
      forall w | InRange(w, x.addr, x.size)
        ensures At(cache', w) == At(latest', w)
      {
        RangeIn(w, x.addr, x.size);
        assert At(cache, w) == At(latest, w);
      }
    }
  }

  /** The core writes a word of a block that it holds exclusively. */
  lemma StoreKeeps(s: Sys, addr: int, data: Word)
    requires Inv(s) && Enabled(s, DoStore(addr, data))
    ensures Survives(s, DoStore(addr, data))
  {
    hide Values, Sunk, Marked, Exclusive, Kept, Stream, Msgs, Granting, Probing, Owned, BlockOf, Aligned;
    var m, c := s.m, s.c;
    var t := Apply(s, DoStore(addr, data)).value;
    StoreValues(m.mem, s.latest, c.cache, c.dirty, c.held, c.writing, addr, data);
    if BlockOf(addr) in c.acq {
      assert Granting(BlockOf(addr), c.acq[BlockOf(addr)], m.ongoing, Flight(m), s.latest, c.cache, c.held);
      GrantHeld(BlockOf(addr), c.acq[BlockOf(addr)], m.ongoing, Flight(m), s.latest, c.cache, c.held);
    }
    GrantsWritten(c.acq, m.ongoing, Flight(m), s.latest, c.cache, t.c.cache, c.held, addr, data);
    ProbingSame(s, t, Out(s));
    assert Out(t) == Out(s);
  }

  lemma GrantHeld(b: int, a: Acq, ongoing: map<int, int>, flight: seq<DMsg>, latest: map<int, Word>, cache: map<int, Word>, held: map<int, Held>)
    requires Granting(b, a, ongoing, flight, latest, cache, held) && HeldOf(held, b) == T
    ensures a.arrived == BEATS
  {
  }

  // ---------- Channel C ----------

  /** The core's report of what it keeps of block `b`, without data. */
  function Reporting(s: Sys, b: int, report: Report): Sys {
    s.(m := Reported(s.m, b, report), c := s.c.(held := s.c.held[b := After(report)]))
  }

  /** A report that is true of what is held: T is kept, or given up for what the report says. */
  predicate Truth(h: Held, report: Report) {
    match h
    case T => report in {TtoT, TtoB, TtoN}
    case B => report in {BtoB, BtoN}
    case N => report == NtoN
  }

  lemma ReportValues(mem: map<int, Word>, latest: map<int, Word>, cache: map<int, Word>, dirty: set<int>,
                     held: map<int, Held>, writing: Option<Writing>, b: int, report: Report)
    requires Values(mem, latest, cache, dirty, held, None) && Truth(HeldOf(held, b), report) && writing.None?
    requires forall w :: w in dirty && BlockOf(w) == b ==> report == TtoT
    ensures Values(mem, latest, cache, dirty, held[b := After(report)], writing)
  {
    hide BlockOf, Behind, At;
    var held' := held[b := After(report)];
    forall w | IsWord(w) && HeldOf(held', BlockOf(w)) != N
      ensures At(cache, w) == At(latest, w)
    {
      assert HeldOf(held, BlockOf(w)) != N;
    }
  }

  lemma ReportExclusive(perm: map<int, Perm>, held: map<int, Held>, acq: map<int, Acq>, ongoing: map<int, int>,
                        dq: seq<DEntry>, b: int, report: Report)
    requires Exclusive(perm, held, None, acq, ongoing, dq) && Truth(HeldOf(held, b), report)
    requires HeldOf(held, b) == T ==> !OnItsWay(acq, ongoing, b)
    ensures var perm' := if report == TtoB || report == TtoN then perm[b := TIP] else perm;
            Exclusive(perm', held[b := After(report)], None, acq, ongoing, dq)
  {
    hide Stream, Msgs, OnItsWay;
    var perm' := if report == TtoB || report == TtoN then perm[b := TIP] else perm;
    var held' := held[b := After(report)];
    forall d
      ensures PermIn(perm', d) == TRUNK <==> HeldOf(held', d) == T || (OnItsWay(acq, ongoing, d) && |Stream(d, Msgs(dq))| < BEATS)
    {
      assert PermIn(perm, d) == TRUNK <==> HeldOf(held, d) == T || (OnItsWay(acq, ongoing, d) && |Stream(d, Msgs(dq))| < BEATS);
    }
  }

  /** Holding less suits every acquire. */
  lemma ReportGrants(acq: map<int, Acq>, ongoing: map<int, int>, flight: seq<DMsg>, latest: map<int, Word>, cache: map<int, Word>,
                     held: map<int, Held>, b: int, h: Held)
    requires Grants(acq, ongoing, flight, latest, cache, held) && (h == T ==> HeldOf(held, b) == T)
    ensures Grants(acq, ongoing, flight, latest, cache, held[b := h])
  {
    hide Stream, Line, At, Nth;
    forall d | d in acq
      ensures Granting(d, acq[d], ongoing, flight, latest, cache, held[b := h])
    {
      assert Granting(d, acq[d], ongoing, flight, latest, cache, held);
    }
  }

  lemma HeldArrived(acq: map<int, Acq>, ongoing: map<int, int>, flight: seq<DMsg>, latest: map<int, Word>, cache: map<int, Word>,
                    held: map<int, Held>, b: int)
    requires Grants(acq, ongoing, flight, latest, cache, held) && HeldOf(held, b) == T
    ensures !(b in acq && acq[b].arrived < BEATS)
  {
    if b in acq {
      assert Granting(b, acq[b], ongoing, flight, latest, cache, held);
    }
  }

  /** A report without data: nothing modified is lost by it. */
  lemma ReportSound(s: Sys, b: int, report: Report)
    requires Sound(s) && s.c.writing.None? && IsBlock(b) && Truth(HeldOf(s.c.held, b), report)
    requires forall w :: w in s.c.dirty && BlockOf(w) == b ==> report == TtoT
    ensures Sound(Reporting(s, b, report))
  {
    hide Values, Sunk, Marked, Grants, Exclusive, Stream, Msgs, Counts, BlockOf;
    var m, c := s.m, s.c;
    ReportValues(m.mem, s.latest, c.cache, c.dirty, c.held, c.writing, b, report);
    ReportGrants(c.acq, m.ongoing, Flight(m), s.latest, c.cache, c.held, b, After(report));
    if HeldOf(c.held, b) == T {
      HeldArrived(c.acq, m.ongoing, Flight(m), s.latest, c.cache, c.held, b);
    }
    ReportExclusive(m.perm, c.held, c.acq, m.ongoing, m.dq, b, report);
  }

  lemma ClearC(s: Sys, source: int)
    requires Sound(s) && s.c.writing.None?
    ensures Clear(s.m.cBurst, source)
  {
    hide Values, Sunk, Marked, Grants, Exclusive, Stream, Msgs;
  }

  lemma BlockStart(addr: int)
    ensures IsBlock(BlockOf(addr))
  {
  }

  /** A probe is answered without data. */
  lemma ProbeAckKeeps(s: Sys, p: int, q: int)
    requires Inv(s) && Enabled(s, DoProbeAck(p, q))
    ensures Survives(s, DoProbeAck(p, q))
  {
    hide Probing, Sound, BlockOf, Acked, CleanFor, Repicks, Pending, Followed, Reporting, HeldOf;
    var r := s.c.probes[0];
    var b := BlockOf(r.addr);
    var report := Truthful(HeldOf(s.c.held, b), r.cap);
    BlockStart(r.addr);
    NothingLost(s, r, report);
    TruthfulTruth(HeldOf(s.c.held, b), r.cap);
    ReportSound(s, b, report);
    ClearC(s, r.source);
    var s1 := Reporting(s, b, report);
    ReportingFields(s, b, report);
    ProbingSame(s, s1, Out(s));
    RepicksSame(s.m, s1.m, r.source, p, q);
    OutOldest(s);
    var t, new_ := AckKeeps(s1, p, q, Out(s));
    var u := t.(c := t.c.(probes := s.c.probes[1..]));
    CoreSame(t, u);
    ProbingSame(t, u, Out(s)[1..] + new_);
    OutAcked(s, u, new_);
    ProbeAckIs(s, p, q);
  }

  lemma ReportingFields(s: Sys, b: int, report: Report)
    ensures var t := Reporting(s, b, report);
      && t == s.(m := t.m, c := t.c) && t.m == s.m.(perm := t.m.perm) && t.c == s.c.(held := s.c.held[b := After(report)])
  {
  }

  lemma OutOldest(s: Sys)
    requires s.c.writing.None? && s.c.probes != []
    ensures Out(s) != [] && Out(s)[0] == s.c.probes[0]
  {
  }

  /** The probe answered without data is no longer outstanding. */
  lemma OutAcked(s: Sys, t: Sys, new_: seq<Probe>)
    requires s.c.writing.None? && t.c.writing.None? && s.c.probes != []
    requires t.c.probes == s.c.probes[1..] && t.m.bPort == s.m.bPort && t.m.bq == s.m.bq + new_
    ensures Out(t) == Out(s)[1..] + new_
  {
    assert Out(s) == [s.c.probes[0]] + s.c.probes[1..] + OptSeq(s.m.bPort) + s.m.bq;
  }

  lemma ProbeAckIs(s: Sys, p: int, q: int)
    requires Enabled(s, DoProbeAck(p, q)) && Clear(s.m.cBurst, s.c.probes[0].source)
    ensures var r := s.c.probes[0];
            var s1 := Reporting(s, BlockOf(r.addr), Truthful(HeldOf(s.c.held, BlockOf(r.addr)), r.cap));
            Apply(s, DoProbeAck(p, q)) ==
              With(s1.(c := s1.c.(probes := s.c.probes[1..]), done := if ForShutdown(s1.m, r.source) then s1.done + [r.addr] else s1.done),
                   Acked(s1.m, r.source, p, q))
  {
    hide Acked, BlockOf, CleanFor, Repicks, HeldOf;
  }

  lemma RepicksSame(m: Manager, n: Manager, source: int, p: int, q: int)
    requires Repicks(m, source, p, q) && n.free == m.free
    ensures Repicks(n, source, p, q)
  {
  }

  lemma NothingLost(s: Sys, r: Probe, report: Report)
    requires CleanFor(s.c.dirty, report, r.addr, r.size)
    ensures forall w :: w in s.c.dirty && BlockOf(w) == BlockOf(r.addr) ==> report == TtoT
  {
  }

  lemma CoreSame(s: Sys, t: Sys)
    requires Sound(s) && t == s.(c := s.c.(probes := t.c.probes))
    ensures Sound(t)
  {
    hide Values, Sunk, Marked, Grants, Exclusive, Stream, Msgs, Counts, Kept;
  }

  lemma PrunesTruth(h: Held, report: Report)
    requires Prunes(h, report)
    ensures Truth(h, report) && report != TtoT
  {
  }

  /** A block is released without data. */
  lemma ReleaseKeeps(s: Sys, source: int, block: int, report: Report)
    requires Inv(s) && Enabled(s, DoRelease(source, block, report))
    ensures Survives(s, DoRelease(source, block, report))
  {
    hide Probing, Sound, BlockOf, CleanFor, InRange;
    InBlockStart(block);
    PrunesTruth(HeldOf(s.c.held, block), report);
    NothingLost(s, Probe(ToN, 6, source, block), report);
    ReportSound(s, block, report);
    ClearC(s, source);
    var s1 := Reporting(s, block, report);
    var q := [DEntry(ReleaseAck(source), None)];
    PushedSound(s1, s1.m.mem, q);
    var t := s1.(m := s1.m.(dq := s1.m.dq + q));
    ProbingSame(s, t, Out(s));
    assert Out(t) == Out(s);
    assert Apply(s, DoRelease(source, block, report)) == Some(t);
  }

  // ---------- Messages with data ----------

  /** The core begins a message with the data of block `b`. */
  function Beginning(s: Sys, ack: Option<Probe>, source: int, addr: int, size: nat, report: Report): Sys {
    var b := BlockOf(addr);
    s.(c := s.c.(held := s.c.held[b := After(report)],
                 writing := Some(Writing(ack, source, addr, size, report, HeldOf(s.c.held, b) == T, 0))))
  }

  lemma BeginValues(mem: map<int, Word>, latest: map<int, Word>, c: Core, w: Writing)
    requires Values(mem, latest, c.cache, c.dirty, c.held, None)
    requires var b := BlockOf(w.addr);
      && Aligned(w.addr, w.size) && w.sent == 0 && HeldOf(c.held, b) != N && Truth(HeldOf(c.held, b), w.report)
      && (w.fromT <==> HeldOf(c.held, b) == T) && CoveredBy(c.dirty, w.report, w.addr, w.size)
    ensures Values(mem, latest, c.cache, c.dirty, c.held[BlockOf(w.addr) := After(w.report)], Some(w))
  {
    hide BlockOf, At, Aligned, BurstLen;
    var held' := c.held[BlockOf(w.addr) := After(w.report)];
    forall x | x in c.dirty
      ensures HeldOf(held', BlockOf(x)) == T || Behind(Some(w), x)
    {
      if BlockOf(x) == BlockOf(w.addr) && w.report != TtoT {
        assert InRange(x, w.addr, w.size);
      }
    }
    forall x | IsWord(x) && HeldOf(held', BlockOf(x)) != N
      ensures At(c.cache, x) == At(latest, x)
    {
      assert HeldOf(c.held, BlockOf(x)) != N;
    }
    forall x | InRange(x, w.addr, w.size)
      ensures At(c.cache, x) == At(latest, x)
    {
      RangeIn(x, w.addr, w.size);
    }
  }

  lemma BeginExclusive(perm: map<int, Perm>, c: Core, ongoing: map<int, int>, dq: seq<DEntry>, w: Writing)
    requires Exclusive(perm, c.held, None, c.acq, ongoing, dq)
    requires var b := BlockOf(w.addr);
      && Truth(HeldOf(c.held, b), w.report) && (w.fromT <==> HeldOf(c.held, b) == T)
      && (w.fromT ==> !(b in c.acq && c.acq[b].arrived < BEATS))
    ensures Exclusive(perm, c.held[BlockOf(w.addr) := After(w.report)], Some(w), c.acq, ongoing, dq)
  {
    hide Stream, Msgs, BlockOf;
    var b, held' := BlockOf(w.addr), c.held[BlockOf(w.addr) := After(w.report)];
    forall d
      ensures PermIn(perm, d) == TRUNK <==>
              HeldOf(held', d) == T || FromT(Some(w), d) || (OnItsWay(c.acq, ongoing, d) && |Stream(d, Msgs(dq))| < BEATS)
    {
      assert PermIn(perm, d) == TRUNK <==> HeldOf(c.held, d) == T || FromT(None, d) || (OnItsWay(c.acq, ongoing, d) && |Stream(d, Msgs(dq))| < BEATS);
    }
  }

  lemma BeginSound(s: Sys, ack: Option<Probe>, source: int, addr: int, size: nat, report: Report)
    requires Sound(s) && s.c.writing.None? && Aligned(addr, size)
    requires var h := HeldOf(s.c.held, BlockOf(addr)); h != N && Truth(h, report)
    requires CoveredBy(s.c.dirty, report, addr, size)
    requires ack.Some? ==> ack.value.source == source && ack.value.addr == addr && ack.value.size == size
    ensures Sound(Beginning(s, ack, source, addr, size, report))
  {
    hide Values, Sunk, Marked, Grants, Exclusive, Stream, Msgs, Kept, BlockOf, Aligned, CoveredBy;
    var m, c := s.m, s.c;
    var b := BlockOf(addr);
    var w := Writing(ack, source, addr, size, report, HeldOf(c.held, b) == T, 0);
    BeginValues(m.mem, s.latest, c, w);
    ReportGrants(c.acq, m.ongoing, Flight(m), s.latest, c.cache, c.held, b, After(report));
    if HeldOf(c.held, b) == T {
      HeldArrived(c.acq, m.ongoing, Flight(m), s.latest, c.cache, c.held, b);
    }
    BeginExclusive(m.perm, c, m.ongoing, m.dq, w);
  }

  /** What is behind the beat just written, and is not it, is behind the next. */
  lemma BehindNext(w: Writing, x: int)
    requires Behind(Some(w), x) && IsWord(x) && x != Nth(WordOf(w.addr), w.sent)
    ensures w.sent + 1 != BurstLen(w.size) && Behind(Some(w.(sent := w.sent + 1)), x)
  {
    hide BlockOf, BurstLen;
    Beyond(WordOf(w.addr), x, w.sent, BurstLen(w.size));
  }

  lemma NotBefore(w: Writing, x: int)
    requires !Before(w, x) && IsWord(x) && x != Nth(WordOf(w.addr), w.sent)
    ensures !Before(w.(sent := w.sent + 1), x)
  {
    Beyond(WordOf(w.addr), x, w.sent, x - WordOf(w.addr) + w.sent + 2);
  }

  lemma Beyond(s: int, x: int, k: nat, n: nat)
    requires IsWord(s) && IsWord(x) && s + 8 * k <= x < s + 8 * n && x != s + 8 * k
    ensures s + 8 * (k + 1) <= x && k + 1 != n
  {
  }

  /** One word is written back. */
  lemma WrittenValues(mem: map<int, Word>, latest: map<int, Word>, cache: map<int, Word>, dirty: set<int>,
                      held: map<int, Held>, w: Writing)
    requires Values(mem, latest, cache, dirty, held, Some(w)) && Aligned(w.addr, w.size) && w.sent < BurstLen(w.size)
    ensures var a := Nth(WordOf(w.addr), w.sent);
            var next := if w.sent + 1 == BurstLen(w.size) then None else Some(w.(sent := w.sent + 1));
            Values(mem[a := At(cache, a)], latest, cache, dirty - {a}, held, next)
  {
    hide Aligned, BurstLen, BlockOf, HeldOf, Behind, WordOf, Before;
    var a := Nth(WordOf(w.addr), w.sent);
    var next := if w.sent + 1 == BurstLen(w.size) then None else Some(w.(sent := w.sent + 1));
    WordIn(w.addr, w.size, w.sent);
    assert At(cache, a) == At(latest, a);
    var mem' := mem[a := At(cache, a)];
    forall x | x !in dirty - {a}
      ensures At(mem', x) == At(latest, x)
    {
      if x != a {
        assert At(mem, x) == At(latest, x);
      }
    }
    forall x | x in dirty - {a}
      ensures HeldOf(held, BlockOf(x)) == T || Behind(next, x)
    {
      if HeldOf(held, BlockOf(x)) != T {
        BehindNext(w, x);
      }
    }
    forall x | x in dirty - {a} && InRange(x, w.addr, w.size)
      ensures !Before(w.(sent := w.sent + 1), x)
    {
      NotBefore(w, x);
    }
    forall x | IsWord(x) && HeldOf(held, BlockOf(x)) != N
      ensures At(cache, x) == At(latest, x)
    {
    }
  }

  /** One more beat is counted. */
  lemma WrittenCounts(m: Manager, c: Core)
    requires Counts(m.aBurst, m.cBurst, c.putting, c.writing) && c.writing.Some?
    ensures var w := c.writing.value;
            var next := if w.sent + 1 == BurstLen(w.size) then None else Some(w.(sent := w.sent + 1));
      && Clear(m.cBurst, w.source) && Beat(m.cBurst, w.source) == w.sent < BurstLen(w.size) && Aligned(w.addr, w.size)
      && Counts(m.aBurst, Counted(m.cBurst, w.source, BurstLen(w.size)), c.putting, next)
  {
  }

  lemma MidExclusive(perm: map<int, Perm>, held: map<int, Held>, w: Writing, acq: map<int, Acq>, ongoing: map<int, int>, dq: seq<DEntry>)
    requires Exclusive(perm, held, Some(w), acq, ongoing, dq)
    ensures Exclusive(perm, held, Some(w.(sent := w.sent + 1)), acq, ongoing, dq)
  {
    hide Stream, Msgs, PermIn, HeldOf, OnItsWay, BlockOf;
    var next := Some(w.(sent := w.sent + 1));
    forall d
      ensures PermIn(perm, d) == TRUNK <==>
              HeldOf(held, d) == T || FromT(next, d) || (OnItsWay(acq, ongoing, d) && |Stream(d, Msgs(dq))| < BEATS)
      ensures FromT(next, d) ==> !(Issued(acq, ongoing, d) && acq[d].arrived < BEATS)
    {
      assert FromT(next, d) <==> FromT(Some(w), d);
    }
  }

  /** The last beat: the permission that was given up is recorded. */
  lemma LastExclusive(perm: map<int, Perm>, held: map<int, Held>, w: Writing, acq: map<int, Acq>, ongoing: map<int, int>, dq: seq<DEntry>)
    requires Exclusive(perm, held, Some(w), acq, ongoing, dq)
    ensures var perm' := if w.report == TtoB || w.report == TtoN then perm[BlockOf(w.addr) := TIP] else perm;
            Exclusive(perm', held, None, acq, ongoing, dq)
  {
    hide Stream, Msgs, HeldOf, BlockOf;
    var b := BlockOf(w.addr);
    var perm' := if w.report == TtoB || w.report == TtoN then perm[b := TIP] else perm;
    forall d
      ensures PermIn(perm', d) == TRUNK <==>
              HeldOf(held, d) == T || (OnItsWay(acq, ongoing, d) && |Stream(d, Msgs(dq))| < BEATS)
    {
      assert PermIn(perm, d) == TRUNK <==> HeldOf(held, d) == T || FromT(Some(w), d) || (OnItsWay(acq, ongoing, d) && |Stream(d, Msgs(dq))| < BEATS);
      if d == b && w.fromT {
        assert FromT(Some(w), b) && !(Issued(acq, ongoing, b) && acq[b].arrived < BEATS);
      }
    }
  }

  /** The state after a beat, before any callback runs. */
  function Written(s: Sys): Sys
    requires s.c.writing.Some?
  {
    var w := s.c.writing.value;
    var a := Nth(WordOf(w.addr), w.sent);
    var last := w.sent + 1 == BurstLen(w.size);
    var m1 := Stored(s.m, w.source, w.addr, At(s.c.cache, a)).(cBurst := Counted(s.m.cBurst, w.source, BurstLen(w.size)));
    s.(m := if last then Reported(m1, BlockOf(w.addr), w.report) else m1,
       c := s.c.(dirty := s.c.dirty - {a}, writing := if last then None else Some(w.(sent := w.sent + 1))))
  }

  /** What a beat leaves alone. */
  lemma WrittenFields(s: Sys)
    requires s.c.writing.Some?
    ensures var t, w := Written(s), s.c.writing.value;
      && t == s.(m := t.m, c := t.c)
      && t.m == s.m.(mem := t.m.mem, cBurst := t.m.cBurst, perm := t.m.perm)
      && t.c == s.c.(dirty := t.c.dirty, writing := t.c.writing)
      && t.c.writing == if w.sent + 1 == BurstLen(w.size) then None else Some(w.(sent := w.sent + 1))
  {
    hide BlockOf, WordOf, BurstLen, Counted, At;
  }

  lemma WrittenSound(s: Sys)
    requires Sound(s) && s.c.writing.Some?
    ensures Sound(Written(s))
    ensures var w := s.c.writing.value; Clear(s.m.cBurst, w.source) && Beat(s.m.cBurst, w.source) == w.sent
  {
    hide Values, Sunk, Marked, Grants, Exclusive, Stream, Msgs, BlockOf, WordOf, Counts, Aligned, BurstLen, Counted;
    var m, c := s.m, s.c;
    var w := c.writing.value;
    WrittenCounts(m, c);
    WrittenValues(m.mem, s.latest, c.cache, c.dirty, c.held, w);
    BlockStart(w.addr);
    if w.sent + 1 == BurstLen(w.size) {
      LastExclusive(m.perm, c.held, w, c.acq, m.ongoing, m.dq);
    } else {
      MidExclusive(m.perm, c.held, w, c.acq, m.ongoing, m.dq);
    }
  }

  /** A beat of a message with data, whatever its message is. */
  lemma BeatKeeps(s: Sys, p: int, q: int)
    requires Inv(s) && s.m.drive && s.c.writing.Some?
    requires s.c.writing.value.ack.Some? ==> Repicks(s.m, s.c.writing.value.source, p, q)
    ensures WriteBeat(s, p, q).Some? && Inv(WriteBeat(s, p, q).value)
    ensures var w := s.c.writing.value;
            InOrder(s, WriteBeat(s, p, q).value, w.ack.Some? && w.sent + 1 == BurstLen(w.size))
    ensures var w := s.c.writing.value;
            !(w.ack.Some? && w.sent + 1 == BurstLen(w.size)) ==> Queue(WriteBeat(s, p, q).value) == Queue(s)
  {
    hide Probing, Sound, Acked, Repicks, BurstLen, Clear, Written, Pending, Followed;
    var w, out := s.c.writing.value, Out(s);
    if w.ack.Some? {
      AckSource(s);
    }
    WrittenSound(s);
    WrittenFields(s);
    var s1 := Written(s);
    ProbingSame(s, s1, out);
    BeatIs(s, p, q);
    hide WriteBeat;
    if w.sent + 1 != BurstLen(w.size) {
      OutSame(s, s1);
    } else if w.ack.Some? {
      OutFirst(s);
      RepicksSame(s.m, s1.m, w.source, p, q);
      var t, new_ := AckKeeps(s1, p, q, out);
      OutTail(s, t, new_);
    } else {
      var e := [DEntry(ReleaseAck(w.source), None)];
      PushedSound(s1, s1.m.mem, e);
      var t := s1.(m := s1.m.(dq := s1.m.dq + e));
      ProbingSame(s, t, out);
      OutSame(s, t);
    }
  }

  /** The probe a message with data answers stays outstanding while the message goes on. */
  lemma OutSame(s: Sys, t: Sys)
    requires t.c.probes == s.c.probes && t.m.bPort == s.m.bPort && t.m.bq == s.m.bq && s.c.writing.Some?
    requires if t.c.writing.Some? then t.c.writing.value.ack == s.c.writing.value.ack else s.c.writing.value.ack.None?
    ensures Out(t) == Out(s)
  {
  }

  lemma OutFirst(s: Sys)
    requires s.c.writing.Some? && s.c.writing.value.ack.Some?
    ensures Out(s) != [] && Out(s)[0] == s.c.writing.value.ack.value
  {
  }

  /** The probe that a message with data answers is no longer outstanding. */
  lemma OutTail(s: Sys, t: Sys, new_: seq<Probe>)
    requires s.c.writing.Some? && s.c.writing.value.ack.Some? && t.c.writing.None?
    requires t.c.probes == s.c.probes && t.m.bPort == s.m.bPort && t.m.bq == s.m.bq + new_
    ensures Out(t) == Out(s)[1..] + new_
  {
  }

  /** A beat is its write, and for the last one what follows. */
  lemma BeatIs(s: Sys, p: int, q: int)
    requires s.c.writing.Some? && Clear(s.m.cBurst, s.c.writing.value.source)
    requires Beat(s.m.cBurst, s.c.writing.value.source) == s.c.writing.value.sent
    ensures var w, s1 := s.c.writing.value, Written(s);
      WriteBeat(s, p, q) ==
        if w.sent + 1 != BurstLen(w.size) then Some(s1)
        else if w.ack.Some? then
          With(s1.(done := if ForShutdown(s1.m, w.source) then s1.done + [w.addr] else s1.done), Acked(s1.m, w.source, p, q))
        else Some(s1.(m := s1.m.(dq := s1.m.dq + [DEntry(ReleaseAck(w.source), None)])))
  {
    hide Acked, BlockOf, WordOf, BurstLen, Clear, Counted;
  }

  lemma AckSource(s: Sys)
    requires Sound(s) && s.c.writing.Some? && s.c.writing.value.ack.Some?
    ensures s.c.writing.value.ack.value.source == s.c.writing.value.source
    ensures s.c.writing.value.ack.value.addr == s.c.writing.value.addr && s.c.writing.value.ack.value.size == s.c.writing.value.size
  {
    hide Values, Sunk, Marked, Grants, Exclusive, Stream, Msgs;
  }

  /** Outstanding probes are aligned. */
  lemma ProbeAligned(s: Sys, out: seq<Probe>)
    requires Probing(s, out) && out != []
    ensures Aligned(out[0].addr, out[0].size)
  {
    hide Books, Aligned;
    AnsweredBooks(s.m, out) by { hide *; }
    var r := Pending(s.m, out)[0];
    assert Fits(r, s.c.acq, s.m.ongoing, s.listed, s.done);
    if !r.callback.AnswerGet? {
      InBlockStart(r.addr);
      assert r.size == 6 && IsBlock(r.addr);
      AlignedBlock(r.addr);
    }
  }

  lemma AlignedBlock(b: int)
    requires IsBlock(b)
    ensures Aligned(b, 6)
  {
    BurstLens();
  }

  lemma TruthfulTruth(h: Held, cap: Cap)
    ensures Truth(h, Truthful(h, cap))
  {
  }

  /** The state in which a probe begins to be answered with data. */
  lemma Began(s: Sys, p: int, q: int) returns (t: Sys)
    requires Inv(s) && Enabled(s, DoProbeData(p, q))
    ensures Inv(t) && t.c.writing.Some? && t.m == s.m && t.latest == s.latest && Queue(t) == Queue(s)
    ensures var r, w := s.c.probes[0], t.c.writing.value;
      w.ack == Some(r) && w.source == r.source && w.size == r.size && w.sent == 0 && Repicks(t.m, r.source, p, q)
    ensures Apply(s, DoProbeData(p, q)) == WriteBeat(t, p, q)
    ensures var r := s.c.probes[0];
            var u := Beginning(s, Some(r), r.source, r.addr, r.size, Truthful(HeldOf(s.c.held, BlockOf(r.addr)), r.cap));
            t == u.(c := u.c.(probes := s.c.probes[1..]))
  {
    hide Probing, Sound, BlockOf, CoveredBy, WriteBeat, Aligned, Repicks, Pending;
    var r, out := s.c.probes[0], Out(s);
    var h := HeldOf(s.c.held, BlockOf(r.addr));
    assert out[0] == r;
    ProbeAligned(s, out);
    TruthfulTruth(h, r.cap);
    BeginSound(s, Some(r), r.source, r.addr, r.size, Truthful(h, r.cap));
    var s1 := Beginning(s, Some(r), r.source, r.addr, r.size, Truthful(h, r.cap));
    t := s1.(c := s1.c.(probes := s.c.probes[1..]));
    CoreSame(s1, t);
    ProbingSame(s, t, out);
    assert out == [r] + s.c.probes[1..] + OptSeq(s.m.bPort) + s.m.bq;
    assert Out(t) == out;
    RepicksSame(s.m, t.m, r.source, p, q);
  }

  /** A probe is answered with data: the first beat. */
  lemma ProbeDataKeeps(s: Sys, p: int, q: int)
    requires Inv(s) && Enabled(s, DoProbeData(p, q))
    ensures Survives(s, DoProbeData(p, q))
  {
    hide Inv, WriteBeat, Queue;
    var t := Began(s, p, q);
    BeatKeeps(t, p, q);
  }

  /** The state in which a block begins to be released with data. */
  lemma BeganRelease(s: Sys, source: int, block: int, report: Report)
    requires Inv(s) && Enabled(s, DoReleaseData(source, block, report))
    ensures var t := Beginning(s, None, source, block, 6, report);
      Inv(t) && Queue(t) == Queue(s) && Apply(s, DoReleaseData(source, block, report)) == WriteBeat(t, 0, 0)
  {
    hide Probing, Sound, BlockOf, WriteBeat, Aligned, Pending;
    InBlockStart(block);
    PrunesTruth(HeldOf(s.c.held, block), report);
    WholeBlock(s, report, block);
    BeginSound(s, None, source, block, 6, report);
    var t := Beginning(s, None, source, block, 6, report);
    ProbingSame(s, t, Out(s));
    assert Out(t) == Out(s);
  }

  /** A block is released with data: the first beat. */
  lemma ReleaseDataKeeps(s: Sys, source: int, block: int, report: Report)
    requires Inv(s) && Enabled(s, DoReleaseData(source, block, report))
    ensures Survives(s, DoReleaseData(source, block, report))
  {
    hide Inv, WriteBeat, Queue;
    BeganRelease(s, source, block, report);
    BeatKeeps(Beginning(s, None, source, block, 6, report), 0, 0);
  }

  lemma WholeBlock(s: Sys, report: Report, block: int)
    requires Sound(s) && IsBlock(block)
    ensures CoveredBy(s.c.dirty, report, block, 6)
  {
    hide Sunk, Marked, Grants, Exclusive, Stream, Msgs, Counts, Kept;
    InBlockStart(block);
  }

  lemma HostProbeKeeps(s: Sys, addr: int, pick: int)
    requires Inv(s) && Enabled(s, HostProbe(addr, pick))
    ensures Survives(s, HostProbe(addr, pick))
  {
    hide Probing, Sound, Retrieve, Pending;
    var m, out := s.m, Out(s);
    InBlockStart(addr);
    var s1 := s.(m := m.(probeEn := false));
    if m.probeEn && addr !in m.ongoing.Values && PermOf(m, addr) != TIP {
      var r := Request(ToN, 6, addr, EnableProbe);
      ProbingSame(s, s1, out);
      ProbeOff(s);
      var new_ := AskKeeps(s1, r, pick, out);
      OutMore(s1, s1.(m := Retrieve(s1.m, r, pick).value), new_);
    }
  }

  lemma ProbeOff(s: Sys)
    requires Sound(s)
    ensures Sound(s.(m := s.m.(probeEn := false)))
  {
    hide Values, Sunk, Marked, Grants, Exclusive, Stream, Msgs, Counts, Kept;
  }

  /** Before the shutdown nothing pending belongs to it. */
  lemma NoneListed(s: Sys, out: seq<Probe>, addrs: seq<int>)
    requires Probing(s, out) && s.listed.None?
    ensures Probing(s.(listed := Some(addrs)), out)
    ensures forall i :: 0 <= i < |Pending(s.m, out)| ==> !Pending(s.m, out)[i].callback.ShutdownRest?
  {
    hide Books, Pending;
    var pending := Pending(s.m, out);
    forall i | 0 <= i < |pending|
      ensures Fits(pending[i], s.c.acq, s.m.ongoing, Some(addrs), s.done) && !pending[i].callback.ShutdownRest?
    {
      assert Fits(pending[i], s.c.acq, s.m.ongoing, s.listed, s.done);
    }
  }

  /** The shutdown begins. */
  lemma ShutdownKeeps(s: Sys, addrs: seq<int>, pick: int)
    requires Inv(s) && Enabled(s, Shutdown(addrs, pick))
    ensures Survives(s, Shutdown(addrs, pick))
  {
    hide Probing, Sound, Retrieve, Pending;
    var m, out := s.m, Out(s);
    NoneListed(s, out, addrs);
    ListedAligned(s, addrs);
    var s1 := s.(listed := Some(addrs));
    if addrs == [] {
      NothingToProbe(s);
      var t := s1.(m := m.(drive := false));
      ProbingSame(s1, t, out);
      assert Out(t) == out;
    } else {
      var r := Request(ToN, 6, addrs[0], ShutdownRest(addrs[1..]));
      FirstFits(s, addrs);
      var new_ := AskKeeps(s1, r, pick, out);
      OutMore(s1, s1.(m := Retrieve(m, r, pick).value), new_);
    }
  }

  lemma ListedAligned(s: Sys, addrs: seq<int>)
    requires Sound(s) && ToProbe(s.m, addrs) && s.listed.None? && s.m.drive
    ensures Sound(s.(listed := Some(addrs)))
  {
    hide Values, Sunk, Marked, Grants, Exclusive, Stream, Msgs, Counts;
  }

  lemma NothingToProbe(s: Sys)
    requires Sound(s) && s.listed.None?
    ensures Sound(s.(listed := Some([]), m := s.m.(drive := false)))
  {
    hide Values, Sunk, Marked, Grants, Exclusive, Stream, Msgs, Counts;
  }

  lemma FirstFits(s: Sys, addrs: seq<int>)
    requires Sound(s) && s.listed.None? && ToProbe(s.m, addrs) && addrs != []
    ensures Fits(Request(ToN, 6, addrs[0], ShutdownRest(addrs[1..])), s.c.acq, s.m.ongoing, Some(addrs), s.done)
  {
    hide Values, Sunk, Marked, Grants, Exclusive, Stream, Msgs, Counts;
    assert addrs == [] + [addrs[0]] + addrs[1..];
  }

  // ---------- All runs ----------

  /** Every step that the environment may take succeeds, and keeps the invariant and the order. */
  lemma StepKeeps(s: Sys, step: Step)
    requires Inv(s) && Enabled(s, step)
    ensures Survives(s, step)
  {
    hide Inv, Survives, Enabled;
    match step
    case DoGet(source, size, addr, pick) => GetKeeps(s, source, size, addr, pick);
    case DoPut(source, size, addr, mask, data) => PutKeeps(s, source, size, addr, mask, data);
    case DoAcquire(grow, source, addr, sink, pick) => AcquireKeeps(s, grow, source, addr, sink, pick);
    case DoProbeAck(p, q) => ProbeAckKeeps(s, p, q);
    case DoProbeData(p, q) => ProbeDataKeeps(s, p, q);
    case DoRelease(source, block, report) => ReleaseKeeps(s, source, block, report);
    case DoReleaseData(source, block, report) => ReleaseDataKeeps(s, source, block, report);
    case DoBeat(p, q) => MoreBeats(s, p, q);
    case DoStore(addr, data) => StoreKeeps(s, addr, data);
    case DoGrantAck(block) => GrantAckKeeps(s, block);
    case TakeD => TakeDKeeps(s);
    case TakeB => TakeBKeeps(s);
    case SendsD => SendsDKeeps(s);
    case SendsB => SendsBKeeps(s);
    case HostProbe(addr, pick) => HostProbeKeeps(s, addr, pick);
    case Shutdown(addrs, pick) => ShutdownKeeps(s, addrs, pick);
  }

  lemma MoreBeats(s: Sys, p: int, q: int)
    requires Inv(s) && Enabled(s, DoBeat(p, q))
    ensures Survives(s, DoBeat(p, q))
  {
    hide Inv, WriteBeat;
    BeatKeeps(s, p, q);
  }

  /**
   From the start, along any run, no assertion of the adapter fails, none of its unfinished
   paths is reached, and the invariant holds.
   */
  lemma {:induction false} RunKeeps(s: Sys, steps: seq<Step>)
    requires Inv(s) && Disciplined(s, steps)
    ensures Run(s, steps).Some? && Inv(Run(s, steps).value)
    decreases |steps|
  {
    hide Inv, Enabled, Apply;
    if steps != [] {
      StepKeeps(s, steps[0]);
      RunKeeps(Apply(s, steps[0]).value, steps[1..]);
    }
  }

  lemma RunsAreSafe(mem: map<int, Word>, sources: set<int>, steps: seq<Step>)
    requires Disciplined(Initial(mem, sources), steps)
    ensures Run(Initial(mem, sources), steps).Some?
    ensures Inv(Run(Initial(mem, sources), steps).value)
  {
    hide Inv, Disciplined, Run;
    InitialKeeps(mem, sources);
    RunKeeps(Initial(mem, sources), steps);
  }
}
