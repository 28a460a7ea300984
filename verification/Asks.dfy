/** What is asked of the adapter, in the words of who asks, and what each ask is owed. */
module Asks {
  import opened Options
  import opened Bytes
  import opened TileLink
  import opened Client

  /** An ask that may have to wait for a probe: by the core, by the host, by the shutdown. */
  datatype Ask =
    | Read(source: int, size: nat, addr: int)
    | Hold(want: Held, source: int, addr: int, sink: int)
    | Look(addr: int)
    | Close(addrs: seq<int>)

  /** The permission that an acquire is for. */
  function Wanted(grow: Grow): Held {
    match grow
    case NtoB => B
    case NtoT => T
    case BtoT => T
  }

  /** The probe that an ask waits for, and what is to be done once that is answered. */
  function Meant(a: Ask): Request
    requires a.Close? ==> a.addrs != []
  {
    match a
    case Read(source, size, addr) => Request(ToT, size, addr, AnswerGet(BurstLen(size), WordOf(addr), source))
    case Hold(want, source, addr, sink) =>
      if want == B then Request(ToB, 6, addr, GrantBlock(ToB, sink, BEATS, addr, source))
      else Request(ToN, 6, addr, GrantBlock(ToT, sink, BEATS, addr, source))
    case Look(addr) => Request(ToN, 6, addr, EnableProbe)
    case Close(addrs) => Request(ToN, 6, addrs[0], ShutdownRest(addrs[1..]))
  }

  /** The ask that a step makes and that has to wait. */
  function Waits(s: Sys, step: Step): (a: Option<Ask>)
    ensures a.Some? && a.value.Close? ==> a.value.addrs != []
  {
    match step
    case DoGet(source, size, addr, _) => if PermOf(s.m, BlockOf(addr)) == TIP then None else Some(Read(source, size, addr))
    case DoAcquire(grow, source, addr, sink, _) =>
      if PermOf(s.m, BlockOf(addr)) == TIP then None else Some(Hold(Wanted(grow), source, addr, sink))
    case HostProbe(addr, _) =>
      if s.m.probeEn && addr !in s.m.ongoing.Values && PermOf(s.m, BlockOf(addr)) == TRUNK then Some(Look(addr)) else None
    case Shutdown(addrs, _) => if addrs == [] then None else Some(Close(addrs))
    case _ => None
  }

  /** The requests that a step adds to the pending ones. */
  function Added(s: Sys, step: Step): seq<Request> {
    var a := Waits(s, step);
    if a.Some? then [Meant(a.value)] else []
  }
}
