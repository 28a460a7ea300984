/**
 The counters that worker processes share (multicore_manager.py): `read_num` and `write_num`
 on one semaphore, step by step, over every interleaving of any number of workers.
 */
module Counters {
  import opened Options
  import opened Bytes

  const LIMIT: int := 0x1_0000_0000

  /** `num.to_bytes(4, 'little')`. */
  function ToBytes(n: int): (w: bytes)
    requires 0 <= n < LIMIT
    ensures |w| == 4
  {
    [n % 256, n / 256 % 256, n / 65536 % 256, n / 16777216]
  }

  /** `int.from_bytes(.., 'little')`. */
  function FromBytes(w: bytes): (n: nat)
    requires |w| == 4
  {
    w[0] as int + 256 * w[1] as int + 65536 * w[2] as int + 16777216 * w[3] as int
  }

  lemma FromTo(n: int)
    requires 0 <= n < LIMIT
    ensures FromBytes(ToBytes(n)) == n
  {
  }

  /**
   Where a worker is: outside, behind the wait in `read_num`, with the number it read, behind
   the store in `write_num`, or stopped by the overflow that `to_bytes` reports.
   */
  datatype Phase = Idle | Waited | Holding(num: int) | Stored | Stopped

  /** The shared memory and semaphore of one counter, its workers, and the numbers read so far. */
  datatype Counter = Counter(shm: bytes, sem: nat, phases: map<int, Phase>, handed: seq<int>, done: nat)

  function PhaseOf(c: Counter, w: int): Phase {
    if w in c.phases then c.phases[w] else Idle
  }

  datatype Step = Wait(w: int) | Read(w: int) | Store(w: int) | Signal(w: int)

  /** `P` blocks while the semaphore is 0; the other steps are those of a worker on its way. */
  predicate Enabled(c: Counter, step: Step) {
    && |c.shm| == 4
    && match step
       case Wait(w) => PhaseOf(c, w) == Idle && c.sem > 0
       case Read(w) => PhaseOf(c, w) == Waited
       case Store(w) => PhaseOf(c, w).Holding?
       case Signal(w) => PhaseOf(c, w) == Stored
  }

  function Apply(c: Counter, step: Step): Counter
    requires Enabled(c, step)
  {
    match step
    case Wait(w) => c.(sem := c.sem - 1, phases := c.phases[w := Waited])
    case Read(w) =>
      var num := FromBytes(c.shm);
      c.(phases := c.phases[w := Holding(num)], handed := c.handed + [num])
    case Store(w) =>
      var next := PhaseOf(c, w).num + 1;
      if 0 <= next < LIMIT then c.(shm := ToBytes(next), phases := c.phases[w := Stored])
      else c.(phases := c.phases[w := Stopped])
    case Signal(w) => c.(sem := c.sem + 1, phases := c.phases[w := Idle], done := c.done + 1)
  }

  predicate Disciplined(c: Counter, steps: seq<Step>)
    decreases |steps|
  {
    steps == [] || (Enabled(c, steps[0]) && Disciplined(Apply(c, steps[0]), steps[1..]))
  }

  function Run(c: Counter, steps: seq<Step>): Counter
    requires Disciplined(c, steps)
    decreases |steps|
  {
    if steps == [] then c else Run(Apply(c, steps[0]), steps[1..])
  }

  /** The counter once the constructor has stored the first number and signalled. */
  function Started(first: int): Counter
    requires 0 <= first < LIMIT
  {
    Counter(ToBytes(first), 1, map[], [], 0)
  }

  // ---------- What every run keeps ----------

  /** At most one worker is inside, and none while the semaphore is up. */
  ghost predicate Exclusive(c: Counter) {
    && c.sem <= 1
    && (forall w :: PhaseOf(c, w) != Idle ==> c.sem == 0)
    && (forall v, w :: PhaseOf(c, v) != Idle && PhaseOf(c, w) != Idle ==> v == w)
    && (c.sem == 0 ==> exists w :: PhaseOf(c, w) != Idle)
  }

  /** How far the worker inside has come. */
  predicate Tally(c: Counter, first: int, w: int) {
    && |c.shm| == 4
    && match PhaseOf(c, w)
       case Idle => FromBytes(c.shm) == first + c.done && |c.handed| == c.done
       case Waited => FromBytes(c.shm) == first + c.done && |c.handed| == c.done
       case Holding(num) => num == FromBytes(c.shm) == first + c.done && |c.handed| == c.done + 1
       case Stored => FromBytes(c.shm) == first + c.done + 1 && |c.handed| == c.done + 1
       case Stopped => FromBytes(c.shm) == first + c.done == LIMIT - 1 && |c.handed| == c.done + 1
  }

  ghost predicate Inv(c: Counter, first: int) {
    && Exclusive(c)
    && (forall i :: 0 <= i < |c.handed| ==> c.handed[i] == first + i)
    && (if c.sem == 1 then |c.shm| == 4 && FromBytes(c.shm) == first + c.done && |c.handed| == c.done
        else forall w :: PhaseOf(c, w) != Idle ==> Tally(c, first, w))
  }

  lemma PhaseAfter(c: Counter, d: Counter, w: int, p: Phase)
    requires d.phases == c.phases[w := p]
    ensures forall v :: PhaseOf(d, v) == if v == w then p else PhaseOf(c, v)
  {
  }

  /** A worker's step inside leaves the others outside. */
  lemma StepKeeps(c: Counter, step: Step, first: int)
    requires Inv(c, first) && Enabled(c, step)
    ensures Inv(Apply(c, step), first)
  {
    hide FromBytes, ToBytes, PhaseOf;
    var d := Apply(c, step);
    match step
    case Wait(w) =>
      PhaseAfter(c, d, w, Waited);
    case Read(w) =>
      PhaseAfter(c, d, w, Holding(FromBytes(c.shm)));
      assert Tally(c, first, w);
    case Store(w) =>
      assert Tally(c, first, w);
      var next := PhaseOf(c, w).num + 1;
      Bounded(c.shm);
      if next < LIMIT {
        PhaseAfter(c, d, w, Stored);
        FromTo(next);
      } else {
        PhaseAfter(c, d, w, Stopped);
      }
    case Signal(w) =>
      PhaseAfter(c, d, w, Idle);
      assert Tally(c, first, w);
  }

  lemma Bounded(w: bytes)
    requires |w| == 4
    ensures FromBytes(w) < LIMIT
  {
  }

  lemma StartKeeps(first: int)
    requires 0 <= first < LIMIT
    ensures Inv(Started(first), first)
  {
    FromTo(first);
  }

  lemma {:induction false} RunKeeps(c: Counter, steps: seq<Step>, first: int)
    requires Inv(c, first) && Disciplined(c, steps)
    ensures Inv(Run(c, steps), first)
    decreases |steps|
  {
    hide Inv, Enabled, Apply;
    if steps != [] {
      StepKeeps(c, steps[0], first);
      RunKeeps(Apply(c, steps[0]), steps[1..], first);
    }
  }

  /**
   In every run at most one worker is between `read_num` and `write_num`, no number is handed
   out twice, and while nobody is inside the stored number is the first one plus the completed
   increments.
   */
  lemma NumbersAreUnique(first: int, steps: seq<Step>, i: nat, j: nat)
    requires 0 <= first < LIMIT && Disciplined(Started(first), steps)
    ensures var c := Run(Started(first), steps);
      && Exclusive(c)
      && (i < j < |c.handed| ==> c.handed[i] != c.handed[j])
      && (c.sem == 1 ==> |c.shm| == 4 && FromBytes(c.shm) == first + c.done)
  {
    hide Disciplined, Run, Exclusive;
    StartKeeps(first);
    RunKeeps(Started(first), steps, first);
  }

  /** Somebody can always go on, unless the counter has reached its last number and its reader was stopped. */
  lemma NobodyStuck(c: Counter, first: int, w: int)
    requires Inv(c, first)
    ensures (exists step :: Enabled(c, step)) <==> !(exists v :: PhaseOf(c, v) == Stopped)
    ensures PhaseOf(c, w) == Stopped ==> FromBytes(c.shm) == LIMIT - 1
  {
    hide FromBytes, PhaseOf;
    if c.sem == 1 {
      if PhaseOf(c, w) == Idle {
        assert Enabled(c, Wait(w));
      }
    } else {
      var v :| PhaseOf(c, v) != Idle;
      assert Tally(c, first, v);
      match PhaseOf(c, v)
      case Idle =>
      case Waited => assert Enabled(c, Read(v));
      case Holding(_) => assert Enabled(c, Store(v));
      case Stored => assert Enabled(c, Signal(v));
      case Stopped =>
        forall step | Enabled(c, step)
          ensures false
        {
          OneInside(c, v, step);
        }
    }
  }

  lemma OneInside(c: Counter, v: int, step: Step)
    requires Exclusive(c) && PhaseOf(c, v) == Stopped
    ensures !Enabled(c, step)
  {
    hide PhaseOf;
  }
}
