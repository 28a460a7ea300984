/** The free list and the callback table of utils.py. */
module FreeLists {
  import opened Options

  lemma Memberless(s: set<int>)
    requires forall x :: x !in s
    ensures s == {}
  {
    var e: set<int> := {};
    assert forall x :: x in s <==> x in e;
    assert s == e;
  }

  lemma HasMember(s: set<int>)
    ensures s == {} || exists x :: x in s
  {
    if !(exists x :: x in s) {
      Memberless(s);
    }
  }

  /** A free list with the events that wait for a release. The list holds no element twice, so it is kept as a set. */
  class FreeList<E> {
    const all: set<int>
    var free: set<int>
    var events: seq<E>

    constructor (initial: set<int>)
      ensures all == initial && free == initial && events == []
    {
      all, free, events := initial, initial, [];
    }

    /** Takes any free element; fails when there is none. */
    method Get() returns (ok: bool, r: int)
      modifies this`free
      ensures ok == (old(free) != {})
      ensures if ok then r in old(free) && free == old(free) - {r} else free == old(free)
    {
      ok, r := false, 0;
      if free != {} {
        HasMember(free);
        var x :| x in free;
        ok, r := true, x;
        free := free - {x};
      }
    }

    method Reserve(e: E)
      modifies this`events
      ensures events == old(events) + [e]
    {
      events := events + [e];
    }

    /** Gives an element back; the event that waited longest is handed to the caller to run. */
    method Release(r: int) returns (ok: bool, event: Option<E>)
      modifies this`free, this`events
      ensures ok == (r in all && r !in old(free))
      ensures if ok then
                && free == old(free) + {r}
                && (if old(events) == [] then event == None && events == []
                    else event == Some(old(events)[0]) && events == old(events)[1..])
              else free == old(free) && events == old(events) && event == None
    {
      ok, event := r in all && r !in free, None;
      if ok {
        free := free + {r};
        if events != [] {
          event, events := Some(events[0]), events[1..];
        }
      }
    }
  }

  /** Which callback is stored under which source. */
  class CallbackMap<C> {
    const all: set<int>
    var pending: map<int, C>

    constructor (initial: set<int>)
      ensures all == initial && pending == map[]
    {
      all, pending := initial, map[];
    }

    method Set(source: int, callback: C) returns (ok: bool)
      modifies this`pending
      ensures ok == (source in all && source !in old(pending))
      ensures pending == if ok then old(pending)[source := callback] else old(pending)
    {
      ok := source in all && source !in pending;
      if ok {
        pending := pending[source := callback];
      }
    }

    /** Takes out the callback of a source, for the caller to run. */
    method Take(source: int) returns (ok: bool, callback: Option<C>)
      modifies this`pending
      ensures ok == (source in all)
      ensures callback == if ok && source in old(pending) then Some(old(pending)[source]) else None
      ensures pending == if callback.Some? then old(pending) - {source} else old(pending)
    {
      ok, callback := source in all, None;
      if ok && source in pending {
        callback := Some(pending[source]);
        pending := pending - {source};
      }
    }
  }
}
