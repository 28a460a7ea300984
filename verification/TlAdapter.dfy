/**
 The adapter as the object of adapter.py: its methods update its fields as the coroutines do,
 and each takes the adapter from one state of the `TileLink` machine to the next.
 */
module TlAdapter {
  import opened Options
  import opened Bytes
  import opened TileLink
  import opened FreeLists

  class Adapter {
    var mem: map<int, Word>
    var perm: map<int, Perm>
    var dq: seq<DEntry>
    var dPort: Option<DMsg>
    var bq: seq<Probe>
    var bPort: Option<Probe>
    const sources: FreeList<Request>
    const callbacks: CallbackMap<Callback>
    const sinks: FreeList<Request>
    var ongoing: map<int, int>
    var aBurst: map<int, nat>
    var cBurst: map<int, nat>
    var drive: bool
    var probeEn: bool

    ghost predicate Valid()
      reads sources, callbacks, sinks
    {
      sources != sinks && callbacks.all == sources.all && sinks.all == SINKS && sinks.events == []
    }

    /** The state of the machine that the fields stand for. */
    ghost function View(): Manager
      reads this, sources, callbacks, sinks
    {
      Manager(mem, perm, dq, dPort, bq, bPort, sources.all, sources.free, sources.events, callbacks.pending,
              sinks.free, ongoing, aBurst, cBurst, drive, probeEn)
    }

    /** `drive_input`. */
    constructor (memory: map<int, Word>, srcs: set<int>)
      ensures Valid() && fresh(sources) && fresh(callbacks) && fresh(sinks)
      ensures View() == Started(memory, srcs)
    {
      mem, perm := memory, map a | a in memory :: BlockOf(a) := TIP;
      dq, dPort, bq, bPort := [], None, [], None;
      sources := new FreeList(srcs);
      callbacks := new CallbackMap(srcs);
      sinks := new FreeList(SINKS);
      ongoing, aBurst, cBurst := map[], map[], map[];
      drive, probeEn := true, true;
    }

    /** `retrieveBlock_cb`. */
    method SendProbe(r: Request) returns (ok: bool, pick: int)
      requires Valid()
      modifies this`bq, sources`free, callbacks
      ensures Valid()
      ensures ok ==> pick in old(sources.free) && Send(old(View()), r, pick) == Some(View())
      ensures !ok ==> old(sources.free) == {} || (pick in old(sources.free) && Send(old(View()), r, pick).None?)
    {
      ok, pick := sources.Get();
      if !ok {
        return;
      }
      ok := callbacks.Set(pick, r.callback);
      bq := bq + [Probe(r.cap, r.size, pick, r.addr)];
    }

    /** `retrieveBlock`. */
    method RetrieveBlock(r: Request) returns (ok: bool, pick: int)
      requires Valid()
      modifies this`bq, sources, callbacks
      ensures Valid()
      ensures old(sources.free) != {} ==> pick in old(sources.free)
      ensures ok == Retrieve(old(View()), r, pick).Some?
      ensures ok ==> Retrieve(old(View()), r, pick) == Some(View())
    {
      if sources.free != {} {
        ok, pick := SendProbe(r);
      } else {
        sources.Reserve(r);
        ok, pick := true, 0;
      }
    }

    /** `get_d_messages` for a Get. */
    method AnswerMessages(len: nat, addr: int, source: int) returns (msgs: seq<DEntry>)
      modifies this`mem
      ensures msgs == Answer(old(mem), len, addr, source) && mem == Touch(old(mem), addr, len)
    {
      msgs := [];
      ghost var m := mem;
      for i := 0 to len
        invariant |msgs| == i
        invariant forall k :: 0 <= k < i ==> msgs[k] == DEntry(AccessAckData(source, At(m, Nth(addr, k))), None)
        invariant forall a :: At(mem, a) == At(m, a)
        invariant Touch(mem, addr + 8 * i, len - i) == Touch(m, addr, len)
      {
        var a := Nth(addr, i);
        if a !in mem {
          mem := mem[a := NOP_DATA];
        }
        msgs := msgs + [DEntry(AccessAckData(source, mem[a]), None)];
      }
    }

    /** `get_d_messages` for a grant, with the callback of its first beat. */
    method GrantMessages(len: nat, addr: int, cap: Cap, sink: int, source: int) returns (msgs: seq<DEntry>)
      modifies this`mem
      ensures msgs == Grant(old(mem), len, addr, cap, sink, source) && mem == Touch(old(mem), addr, len)
    {
      msgs := [];
      ghost var m := mem;
      for i := 0 to len
        invariant |msgs| == i
        invariant forall k :: 0 <= k < i ==> msgs[k] == Grant(m, len, addr, cap, sink, source)[k]
        invariant forall a :: At(mem, a) == At(m, a)
        invariant Touch(mem, addr + 8 * i, len - i) == Touch(m, addr, len)
      {
        var a := Nth(addr, i);
        if a !in mem {
          mem := mem[a := NOP_DATA];
        }
        var onSend := if i == 0 then Some((BlockOf(addr), cap)) else None;
        msgs := msgs + [DEntry(GrantData(cap, sink, source, BlockOf(addr), mem[a]), onSend)];
      }
    }

    /** `AccessAckData_cb`. */
    method AnswerGet_(len: nat, addr: int, source: int)
      requires Valid()
      modifies this`mem, this`dq
      ensures Valid() && View() == PushAnswer(old(View()), len, addr, source)
    {
      var msgs := AnswerMessages(len, addr, source);
      dq := dq + msgs;
    }

    /** `GrantData_cb`. */
    method GrantBlock_(len: nat, addr: int, cap: Cap, sink: int, source: int)
      requires Valid()
      modifies this`mem, this`dq, this`ongoing
      ensures Valid() && View() == PushGrant(old(View()), len, addr, cap, sink, source)
    {
      var msgs := GrantMessages(len, addr, cap, sink, source);
      ongoing := ongoing[sink := BlockOf(addr)];
      dq := dq + msgs;
    }

    /** `probe_blocks_rec`. */
    method ProbeBlocks(addrs: seq<int>) returns (ok: bool, pick: int)
      requires Valid()
      modifies this`bq, this`drive, sources, callbacks
      ensures Valid()
      ensures old(sources.free) != {} ==> pick in old(sources.free) || addrs == []
      ensures ok == ProbeNext(old(View()), addrs, pick).Some?
      ensures ok ==> ProbeNext(old(View()), addrs, pick) == Some(View())
    {
      if addrs == [] {
        drive := false;
        return true, 0;
      }
      ok, pick := RetrieveBlock(Request(ToN, 6, addrs[0], ShutdownRest(addrs[1..])));
    }

    /** A callback runs. */
    method RunCall(cb: Callback) returns (ok: bool, pick: int)
      requires Valid()
      modifies this`mem, this`dq, this`ongoing, this`probeEn, this`drive, this`bq, sources, callbacks
      ensures Valid()
      ensures ok == RunCallback(old(View()), cb, pick).Some?
      ensures ok ==> RunCallback(old(View()), cb, pick) == Some(View())
    {
      ok, pick := true, 0;
      match cb
      case AnswerGet(len, addr, source) => AnswerGet_(len, addr, source);
      case GrantBlock(cap, sink, len, addr, source) => GrantBlock_(len, addr, cap, sink, source);
      case EnableProbe => probeEn := true;
      case ShutdownRest(rest) => ok, pick := ProbeBlocks(rest);
    }

    /** A probe's answer is complete: the callback runs, then the source goes to who waited longest. */
    method Answered(source: int) returns (ok: bool, p: int, q: int)
      requires Valid()
      modifies this`mem, this`dq, this`ongoing, this`probeEn, this`drive, this`bq, sources, callbacks
      ensures Valid()
      ensures ok ==> Acked(old(View()), source, p, q) == Some(View())
      ensures !ok ==> Acked(old(View()), source, p, q).None?
    {
      ghost var v := View();
      p, q := 0, 0;
      var cb;
      ok, cb := callbacks.Take(source);
      if !ok {
        return;
      }
      if cb.Some? {
        ok, p := RunCall(cb.value);
        if !ok {
          return;
        }
      }
      assert CallBack(v, source, p) == Some(View());
      ok, q := ReleaseSource(source);
    }

    /** `FreeList.release` of a probe source, with the event it runs. */
    method ReleaseSource(source: int) returns (ok: bool, q: int)
      requires Valid()
      modifies this`bq, sources, callbacks
      ensures Valid()
      ensures ok ==> Release(old(View()), source, q) == Some(View())
      ensures !ok ==> Release(old(View()), source, q).None?
    {
      q := 0;
      var event;
      ok, event := sources.Release(source);
      if ok && event.Some? {
        ok, q := SendProbe(event.value);
      }
    }

    // ---------- a_port_monitor ----------

    /** Every message lists its block. */
    method ListBlock(b: int)
      requires Valid()
      modifies this`perm
      ensures Valid() && View() == Listed(old(View()), b)
    {
      perm := perm[b := if b in perm then perm[b] else TIP];
    }

    method Get(source: int, size: nat, addr: int) returns (ok: bool, pick: int)
      requires Valid()
      modifies this, sources, callbacks
      ensures Valid()
      ensures ok == OnGet(old(View()), source, size, addr, pick).Some?
      ensures ok ==> OnGet(old(View()), source, size, addr, pick) == Some(View())
    {
      ok, pick := aBurst == map[] || source in aBurst, 0;
      if !ok {
        return;
      }
      var b, addrAligned, len := BlockOf(addr), WordOf(addr), BurstLen(size);
      ListBlock(b);
      if perm[b] != TIP {
        ok, pick := RetrieveBlock(Request(ToT, size, addr, AnswerGet(len, addrAligned, source)));
      } else {
        AnswerGet_(len, addrAligned, source);
      }
    }

    /** One beat of PutFullData or PutPartialData; on a block that is not TIP the callback cannot run. */
    method Put(source: int, size: nat, addr: int, mask: Mask, data: Word) returns (ok: bool)
      requires Valid()
      modifies this
      ensures Valid()
      ensures ok == OnPut(old(View()), source, size, addr, mask, data).Some?
      ensures ok ==> OnPut(old(View()), source, size, addr, mask, data) == Some(View())
    {
      hide Masked, BlockOf, WordOf, BurstLen;
      ok := aBurst == map[] || source in aBurst;
      if !ok {
        return;
      }
      var b, count := BlockOf(addr), if source in aBurst then aBurst[source] else 0;
      var a := Nth(WordOf(addr), count);
      ListBlock(b);
      if perm[b] != TIP {
        return false;
      }
      var was := if a in mem then mem[a] else NOP_DATA;
      mem := mem[a := Masked(was, mask, data)];
      CountPut(source, count, BurstLen(size));
    }

    /** The write burst's counter moves on; the last beat queues the acknowledgement and drops the counter. */
    method CountPut(source: int, count: nat, len: nat)
      requires Valid() && count == Beat(aBurst, source)
      modifies this`aBurst, this`dq
      ensures Valid()
      ensures var v := old(View());
        View() == v.(aBurst := Counted(v.aBurst, source, len),
                     dq := v.dq + if count + 1 == len then [DEntry(AccessAck(source), None)] else [])
    {
      if count + 1 == len {
        dq := dq + [DEntry(AccessAck(source), None)];
        if count > 0 {
          aBurst := aBurst - {source};
        }
      } else {
        aBurst := aBurst[source := count + 1];
      }
    }

    method AcquireBlock(grow: Grow, source: int, size: nat, addr: int) returns (ok: bool, sink: int, pick: int)
      requires Valid()
      modifies this, sources, callbacks, sinks`free
      ensures Valid()
      ensures old(sinks.free) != {} ==> sink in old(sinks.free)
      ensures ok == OnAcquireBlock(old(View()), grow, source, size, addr, sink, pick).Some?
      ensures ok ==> OnAcquireBlock(old(View()), grow, source, size, addr, sink, pick) == Some(View())
    {
      hide BlockOf, WordOf, BurstLen, Retrieve, PushGrant;
      pick := 0;
      var got;
      got, sink := sinks.Get();
      ok := got && (aBurst == map[] || source in aBurst);
      if !ok {
        return;
      }
      var b, addrAligned, len := BlockOf(addr), WordOf(addr), BurstLen(size);
      ListBlock(b);
      var cap := if grow == NtoB then ToB else ToT;
      if perm[b] != TIP {
        ok, pick := RetrieveBlock(Request(if grow == NtoB then ToB else ToN, size, addr, GrantBlock(cap, sink, len, addrAligned, source)));
      } else {
        GrantBlock_(len, addrAligned, cap, sink, source);
      }
    }

    // ---------- c_port_monitor ----------

    method Report_(b: int, report: Report)
      requires Valid()
      modifies this`perm
      ensures Valid() && View() == Reported(old(View()), b, report)
    {
      if report == TtoB || report == TtoN {
        perm := perm[b := TIP];
      }
    }

    method ProbeAck(source: int, addr: int, report: Report) returns (ok: bool, p: int, q: int)
      requires Valid()
      modifies this, sources, callbacks
      ensures Valid()
      ensures ok == OnProbeAck(old(View()), source, addr, report, p, q).Some?
      ensures ok ==> OnProbeAck(old(View()), source, addr, report, p, q) == Some(View())
    {
      ok, p, q := cBurst == map[] || source in cBurst, 0, 0;
      if !ok {
        return;
      }
      Report_(BlockOf(addr), report);
      ok, p, q := Answered(source);
    }

    /** Stores a beat of data; the counter of the burst moves on, or is dropped at the end. */
    method StoreBeat(source: int, size: nat, addr: int, data: Word) returns (last: bool)
      requires Valid()
      modifies this`mem, this`cBurst
      ensures Valid()
      ensures var v := old(View());
        && View() == Stored(v, source, addr, data).(cBurst := Counted(v.cBurst, source, BurstLen(size)))
        && last == (Beat(v.cBurst, source) + 1 == BurstLen(size))
    {
      var count := if source in cBurst then cBurst[source] else 0;
      mem := mem[Nth(WordOf(addr), count) := data];
      last := count + 1 == BurstLen(size);
      if !last {
        cBurst := cBurst[source := count + 1];
      } else if count > 0 {
        cBurst := cBurst - {source};
      }
    }

    method ProbeAckData(source: int, size: nat, addr: int, report: Report, data: Word) returns (ok: bool, p: int, q: int)
      requires Valid()
      modifies this, sources, callbacks
      ensures Valid()
      ensures ok == OnProbeAckData(old(View()), source, size, addr, report, data, p, q).Some?
      ensures ok ==> OnProbeAckData(old(View()), source, size, addr, report, data, p, q) == Some(View())
    {
      ok, p, q := cBurst == map[] || source in cBurst, 0, 0;
      if !ok {
        return;
      }
      var last := StoreBeat(source, size, addr, data);
      if last {
        Report_(BlockOf(addr), report);
        ok, p, q := Answered(source);
      }
    }

    method ReleaseMessage(source: int, addr: int, report: Report) returns (ok: bool)
      requires Valid()
      modifies this`perm, this`dq
      ensures Valid()
      ensures ok == OnRelease(old(View()), source, addr, report).Some?
      ensures ok ==> OnRelease(old(View()), source, addr, report) == Some(View())
    {
      ok := cBurst == map[] || source in cBurst;
      if ok {
        Report_(BlockOf(addr), report);
        dq := dq + [DEntry(ReleaseAck(source), None)];
      }
    }

    method ReleaseData(source: int, size: nat, addr: int, report: Report, data: Word) returns (ok: bool)
      requires Valid()
      modifies this`mem, this`cBurst, this`perm, this`dq
      ensures Valid()
      ensures ok == OnReleaseData(old(View()), source, size, addr, report, data).Some?
      ensures ok ==> OnReleaseData(old(View()), source, size, addr, report, data) == Some(View())
    {
      ok := cBurst == map[] || source in cBurst;
      if ok {
        var last := StoreBeat(source, size, addr, data);
        if last {
          Report_(BlockOf(addr), report);
          dq := dq + [DEntry(ReleaseAck(source), None)];
        }
      }
    }

    // ---------- e_port_monitor, the drivers, the host interface ----------

    method GrantAck(sink: int) returns (ok: bool)
      requires Valid()
      modifies this`ongoing, sinks
      ensures Valid()
      ensures ok == OnGrantAck(old(View()), sink).Some?
      ensures ok ==> OnGrantAck(old(View()), sink) == Some(View())
    {
      var event;
      ok, event := sinks.Release(sink);
      if ok {
        ok := sink in ongoing;
        ongoing := ongoing - {sink};
      }
    }

    /** The D driver takes the next message and runs its callback. */
    method DriveD()
      requires Valid() && dPort.None? && dq != []
      modifies this`dq, this`dPort, this`perm
      ensures Valid() && View() == TileLink.SendD(old(View()))
    {
      var e := dq[0];
      dq := dq[1..];
      if e.grant.Some? {
        var (b, cap) := e.grant.value;
        if cap == ToT {
          perm := perm[b := TRUNK];
        }
      }
      dPort := Some(e.msg);
    }

    method DriveB()
      requires Valid() && bPort.None? && bq != []
      modifies this`bq, this`bPort
      ensures Valid() && View() == TileLink.SendB(old(View()))
    {
      bq, bPort := bq[1..], Some(bq[0]);
    }

    method HostInterface(addr: int) returns (ok: bool, pick: int)
      requires Valid()
      modifies this, sources, callbacks
      ensures Valid()
      ensures ok == OnHostProbe(old(View()), addr, pick).Some?
      ensures ok ==> OnHostProbe(old(View()), addr, pick) == Some(View())
    {
      ok, pick := true, 0;
      if probeEn && addr !in ongoing.Values {
        var b := BlockOf(addr);
        if b !in perm {
          return false, 0;
        }
        if perm[b] != TIP {
          probeEn := false;
          ok, pick := RetrieveBlock(Request(ToN, 6, addr, EnableProbe));
        }
      }
    }
  }
}
