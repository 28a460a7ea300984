/**
 The bookkeeping of probe sources: which source is free, which callback is stored under
 which source, and in which order requests for a probe are served.
 */
module Sources {
  import opened Options
  import opened Bytes
  import opened TileLink

  function OptSeq<A>(o: Option<A>): seq<A> {
    if o.Some? then [o.value] else []
  }

  /** The probes that are outstanding as requests with their callbacks. */
  function Live(out: seq<Probe>, calls: map<int, Callback>): (r: seq<Request>)
    ensures |r| == |out|
  {
    seq(|out|, i requires 0 <= i < |out| =>
      Request(out[i].cap, out[i].size, out[i].addr, if out[i].source in calls then calls[out[i].source] else EnableProbe))
  }

  /** Everything that was asked for and not answered, oldest first. */
  function Pending(m: Manager, out: seq<Probe>): seq<Request> {
    Live(out, m.calls) + m.waiting
  }

  /**
   A source is taken exactly when one probe of `out` and one callback go by it; `held` are
   sources whose probe is answered and that are about to be released.
   */
  ghost predicate Booked(m: Manager, out: seq<Probe>, held: set<int>) {
    && m.free <= m.all && held <= m.all && held !! m.free
    && m.calls.Keys == m.all - m.free - held
    && (forall i, j :: 0 <= i < j < |out| ==> out[i].source != out[j].source)
    && (forall i :: 0 <= i < |out| ==> out[i].source in m.calls)
    && (forall k :: k in m.calls ==> exists i :: 0 <= i < |out| && out[i].source == k)
  }

  /** Between steps nothing is held, and nobody waits while a source is free. */
  ghost predicate Books(m: Manager, out: seq<Probe>) {
    Booked(m, out, {}) && (m.waiting != [] ==> m.free == {})
  }

  /** `Send` books the new probe at the end of the outstanding ones. */
  lemma SendBooks(m: Manager, r: Request, pick: int, out: seq<Probe>, held: set<int>)
    requires Booked(m, out, held) && pick in m.free
    ensures var s := Send(m, r, pick);
      && s.Some?
      && var out' := out + [Probe(r.cap, r.size, pick, r.addr)];
      && Booked(s.value, out', held)
      && Live(out', s.value.calls) == Live(out, m.calls) + [r]
      && s.value == m.(free := m.free - {pick}, calls := s.value.calls, bq := m.bq + [Probe(r.cap, r.size, pick, r.addr)])
  {
    var m' := Send(m, r, pick).value;
    var out' := out + [Probe(r.cap, r.size, pick, r.addr)];
    assert out'[|out|].source == pick;
    forall k | k in m'.calls
      ensures exists i :: 0 <= i < |out'| && out'[i].source == k
    {
      if k == pick {
        assert out'[|out|].source == k;
      } else {
        var i :| 0 <= i < |out| && out[i].source == k;
        assert out'[i].source == k;
      }
    }
    assert m'.calls.Keys == m'.all - m'.free - held;
  }

  /**
   `Retrieve` never fails, and the request becomes the last of the pending ones. While a
   source is held nobody needs to wait for another one first.
   */
  lemma RetrieveBooks(m: Manager, r: Request, pick: int, out: seq<Probe>, held: set<int>) returns (new_: seq<Probe>)
    requires Booked(m, out, held) && (m.waiting != [] ==> m.free == {}) && (m.free != {} ==> pick in m.free)
    ensures var s := Retrieve(m, r, pick);
      && s.Some?
      && Booked(s.value, out + new_, held) && (s.value.waiting != [] ==> s.value.free == {} == m.free)
      && Pending(s.value, out + new_) == Pending(m, out) + [r]
      && s.value == m.(free := s.value.free, calls := s.value.calls, waiting := s.value.waiting, bq := m.bq + new_)
  {
    hide Booked;
    if m.free != {} {
      SendBooks(m, r, pick, out, held);
      new_ := [Probe(r.cap, r.size, pick, r.addr)];
    } else {
      new_ := [];
      assert out + new_ == out && m.bq + new_ == m.bq;
      WaitingBooks(m, m.waiting + [r], out, held);
    }
  }

  lemma WaitingBooks(m: Manager, waiting: seq<Request>, out: seq<Probe>, held: set<int>)
    requires Booked(m, out, held)
    ensures Booked(m.(waiting := waiting), out, held)
  {
  }

  /** The oldest probe is answered: its callback is taken out, its source is held. */
  lemma AnsweredBooks(m: Manager, out: seq<Probe>)
    requires Books(m, out) && out != []
    ensures var src := out[0].source;
      && src in m.all && src in m.calls && src !in m.free
      && Booked(m.(calls := m.calls - {src}), out[1..], {src})
      && Pending(m.(calls := m.calls - {src}), out[1..]) == Pending(m, out)[1..]
      && Pending(m, out)[0] == Request(out[0].cap, out[0].size, out[0].addr, m.calls[src])
  {
    var src, rest := out[0].source, out[1..];
    var m' := m.(calls := m.calls - {src});
    forall k | k in m'.calls
      ensures exists i :: 0 <= i < |rest| && rest[i].source == k
    {
      var i :| 0 <= i < |out| && out[i].source == k;
      assert rest[i - 1].source == k;
    }
    assert forall i :: 0 <= i < |rest| ==> rest[i] == out[i + 1];
    assert Live(rest, m'.calls) == Live(out, m.calls)[1..];
  }

  /** The held source is released: it goes to the request that waited longest. */
  lemma ReleaseBooks(m: Manager, source: int, pick: int, out: seq<Probe>) returns (new_: seq<Probe>)
    requires Booked(m, out, {source}) && (m.waiting != [] ==> m.free == {} && pick == source)
    ensures var s := Release(m, source, pick);
      && s.Some? && Books(s.value, out + new_)
      && Pending(s.value, out + new_) == Pending(m, out)
      && s.value == m.(free := s.value.free, calls := s.value.calls, waiting := s.value.waiting, bq := m.bq + new_)
  {
    var m1 := m.(free := m.free + {source});
    assert Booked(m1, out, {});
    if m.waiting == [] {
      new_ := [];
      assert out + new_ == out && m.bq + new_ == m.bq;
    } else {
      var m2 := m1.(waiting := m.waiting[1..]);
      var r := m.waiting[0];
      hide Booked;
      WaitingBooks(m1, m.waiting[1..], out, {});
      assert pick == source && m2.free == {source};
      SendBooks(m2, r, pick, out, {});
      new_ := [Probe(r.cap, r.size, pick, r.addr)];
      assert m.waiting == [r] + m.waiting[1..];
      assert Live(out, m.calls) + m.waiting == (Live(out, m.calls) + [r]) + m.waiting[1..];
    }
  }

  /** What a callback does apart from asking for another probe. */
  function Effect(m: Manager, cb: Callback): (r: Manager)
    ensures r == m.(mem := r.mem, dq := r.dq, ongoing := r.ongoing, probeEn := r.probeEn, drive := r.drive)
  {
    match cb
    case AnswerGet(len, addr, source) => PushAnswer(m, len, addr, source)
    case GrantBlock(cap, sink, len, addr, source) => PushGrant(m, len, addr, cap, sink, source)
    case EnableProbe => m.(probeEn := true)
    case ShutdownRest(rest) => if rest == [] then m.(drive := false) else m
  }

  /** The probe that a callback asks for. */
  function Followed(cb: Callback): seq<Request> {
    if cb.ShutdownRest? && cb.rest != [] then [Request(ToN, 6, cb.rest[0], ShutdownRest(cb.rest[1..]))] else []
  }

  /** The bookkeeping fields of `m` in the place of those of `a`. */
  function Rebooked(a: Manager, m: Manager): Manager {
    a.(free := m.free, calls := m.calls, waiting := m.waiting, bq := m.bq)
  }

  lemma EffectBooks(m: Manager, calls: map<int, Callback>, cb: Callback, out: seq<Probe>, held: set<int>)
    requires Booked(m.(calls := calls), out, held)
    ensures var e := Effect(m.(calls := calls), cb);
      && Booked(e, out, held) && Pending(e, out) == Pending(m.(calls := calls), out)
      && e == Effect(m, cb).(calls := calls)
  {
  }

  /** An answered probe whose callback asks for no other one. */
  lemma AckedDone(m: Manager, p: int, q: int, out: seq<Probe>) returns (new_: seq<Probe>)
    requires Books(m, out) && out != [] && (q == out[0].source || q in m.free)
    requires out[0].source in m.calls && Followed(m.calls[out[0].source]) == []
    ensures var s := Acked(m, out[0].source, p, q);
      && s.Some? && Books(s.value, out[1..] + new_)
      && Pending(s.value, out[1..] + new_) == Pending(m, out)[1..]
      && s.value == Rebooked(Effect(m, m.calls[out[0].source]), s.value) && s.value.bq == m.bq + new_
  {
    AnsweredBooks(m, out);
    var src, rest := out[0].source, out[1..];
    var cb := m.calls[src];
    var m1 := m.(calls := m.calls - {src});
    hide Booked, Live;
    EffectBooks(m, m.calls - {src}, cb, rest, {src});
    assert RunCallback(m1, cb, p) == Some(Effect(m1, cb));
    hide RunCallback, Effect, Pending, Release;
    new_ := ReleaseBooks(Effect(m1, cb), src, q, rest);
  }

  lemma AckedUnfolds(m: Manager, p: int, q: int, src: int)
    requires src in m.all && src in m.calls && Followed(m.calls[src]) != []
    ensures var s := Retrieve(m.(calls := m.calls - {src}), Followed(m.calls[src])[0], p);
            Acked(m, src, p, q) == if s.None? then None else Release(s.value, src, q)
  {
    hide Retrieve, Release;
  }

  /** An answered probe of the shutdown that asks for the next one. */
  lemma AckedNext(m: Manager, p: int, q: int, out: seq<Probe>) returns (new_: seq<Probe>)
    requires Books(m, out) && out != []
    requires (m.free != {} ==> p in m.free) && (q == out[0].source || q in m.free)
    requires out[0].source in m.calls && Followed(m.calls[out[0].source]) != []
    ensures var s := Acked(m, out[0].source, p, q);
      && s.Some? && Books(s.value, out[1..] + new_)
      && Pending(s.value, out[1..] + new_) == Pending(m, out)[1..] + Followed(m.calls[out[0].source])
      && s.value == Rebooked(m, s.value) && s.value.bq == m.bq + new_
  {
    hide Booked, Retrieve, Release, Acked;
    AnsweredBooks(m, out);
    var src, rest := out[0].source, out[1..];
    var r := Followed(m.calls[src])[0];
    var m1 := m.(calls := m.calls - {src});
    AckedUnfolds(m, p, q, src);
    hide Live, Pending, Followed;
    var n1 := RetrieveBooks(m1, r, p, rest, {src});
    var m2 := Retrieve(m1, r, p).value;
    var n2 := ReleaseBooks(m2, src, q, rest + n1);
    new_ := n1 + n2;
    assert rest + n1 + n2 == rest + new_ && m.bq + n1 + n2 == m.bq + new_;
  }

  /**
   The first of the pending requests is answered: whatever its callback does besides, the
   others keep their order and only the shutdown adds one, behind them.
   */
  lemma AckedBooks(m: Manager, p: int, q: int, out: seq<Probe>) returns (new_: seq<Probe>)
    requires Books(m, out) && out != []
    requires (m.free != {} ==> p in m.free) && (q == out[0].source || q in m.free)
    ensures var src := out[0].source;
      && src in m.calls
      && var cb, s := m.calls[src], Acked(m, src, p, q);
      && s.Some? && Books(s.value, out[1..] + new_)
      && Pending(m, out) != [] && Pending(m, out)[0] == Request(out[0].cap, out[0].size, out[0].addr, cb)
      && Pending(s.value, out[1..] + new_) == Pending(m, out)[1..] + Followed(cb)
      && s.value == Rebooked(Effect(m, cb), s.value) && s.value.bq == m.bq + new_
  {
    AnsweredBooks(m, out);
    hide Booked, Books, Live, Acked;
    if Followed(m.calls[out[0].source]) == [] {
      new_ := AckedDone(m, p, q, out);
    } else {
      new_ := AckedNext(m, p, q, out);
    }
  }
}
