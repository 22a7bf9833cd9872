/** With a second producer the ring is not first-in first-out, whatever its size: a push can overtake one that
    took its ticket a whole lap earlier and is still waiting to store. With a second consumer it is not either
    when it has two slots or more: the later ticket's value can be returned first. */
module Overtaking {
  import opened AtomicQueue
  import opened Ledger

  /** A whole operation, or its first part up to the ticket, by one thread that nobody interrupts. */
  function Alone<V>(tid: nat, op: Op<V>, residue: V, accesses: nat): (run: seq<Action<V>>)
    ensures |run| == accesses + 1
    ensures forall k | 0 <= k < |run| :: run[k].tid == tid
  {
    [Action(tid, Call(op))] + Accesses(tid, residue, accesses)
  }

  function Accesses<V>(tid: nat, residue: V, accesses: nat): (run: seq<Action<V>>)
    ensures |run| == accesses
    ensures forall k | 0 <= k < |run| :: run[k] == Action(tid, Go(residue))
  {
    seq(accesses, _ => Action(tid, Go(residue)))
  }

  lemma GoOnce<V>(c: Config, s: State<V>, tid: nat, z: V, n: nat)
    requires Shape(c, s) && tid < |s.threads|
    ensures Run(c, s, Accesses(tid, z, n + 1)) == Run(c, Step(c, s, Action(tid, Go(z))), Accesses(tid, z, n))
  {
    assert Accesses(tid, z, n + 1)[1..] == Accesses(tid, z, n);
  }

  lemma GoTwice<V>(c: Config, s: State<V>, tid: nat, z: V)
    requires Shape(c, s) && tid < |s.threads|
    ensures var a := Action(tid, Go(z)); Run(c, s, Accesses(tid, z, 2)) == Step(c, Step(c, s, a), a)
  {
    var a := Action(tid, Go(z));
    GoOnce(c, s, tid, z, 1);
    GoOnce(c, Step(c, s, a), tid, z, 0);
  }

  lemma GoThrice<V>(c: Config, s: State<V>, tid: nat, z: V)
    requires Shape(c, s) && tid < |s.threads|
    ensures var a := Action(tid, Go(z));
            Run(c, s, Accesses(tid, z, 3)) == Step(c, Step(c, Step(c, s, a), a), a)
  {
    GoOnce(c, s, tid, z, 2);
    GoTwice(c, Step(c, s, Action(tid, Go(z))), tid, z);
  }

  lemma Begun<V>(c: Config, s: State<V>, tid: nat, op: Op<V>, z: V, n: nat)
    requires Shape(c, s) && tid < |s.threads|
    ensures Run(c, s, Alone(tid, op, z, n)) == Run(c, Step(c, s, Action(tid, Call(op))), Accesses(tid, z, n))
  {
    assert Alone(tid, op, z, n)[1..] == Accesses(tid, z, n);
  }

  /** An uninterrupted try_push takes the next ticket if there is room. */
  lemma TakesPushTicket<V>(c: Config, s: State<V>, tid: nat, v: V, z: V)
    requires Shape(c, s) && Ideal(c) && tid < |s.threads| && s.threads[tid] == Idle && s.head < s.tail + c.Size()
    ensures var r := Run(c, s, Alone(tid, TryPush(v), z, 3));
            && r.head == s.head + 1 && r.tail == s.tail && r.states == s.states && r.elements == s.elements
            && r.threads == s.threads[tid := PushSlot(v, s.head)]
            && r.trace.issued == s.trace.issued + [v] && r.trace.taken == s.trace.taken
  {
    Begun(c, s, tid, TryPush(v), z, 3);
    GoThrice(c, Step(c, s, Action(tid, Call(TryPush(v)))), tid, z);
  }

  lemma TakesPopTicket<V>(c: Config, s: State<V>, tid: nat, z: V)
    requires Shape(c, s) && Ideal(c) && tid < |s.threads| && s.threads[tid] == Idle && s.tail < s.head
    ensures var r := Run(c, s, Alone(tid, TryPop, z, 3));
            && r.head == s.head && r.tail == s.tail + 1 && r.states == s.states && r.elements == s.elements
            && r.threads == s.threads[tid := PopSlot(s.tail)] && r.trace == s.trace
  {
    Begun(c, s, tid, TryPop, z, 3);
    GoThrice(c, Step(c, s, Action(tid, Call(TryPop))), tid, z);
  }

  /** ... and then fills its slot if that is EMPTY. */
  lemma Stores<V>(c: Config, s: State<V>, tid: nat, z: V)
    requires Shape(c, s) && Ideal(c) && tid < |s.threads| && s.threads[tid].PushSlot?
    requires s.states[Slot(c, s.threads[tid].head)] == EMPTY
    ensures var r, i := Run(c, s, Accesses(tid, z, 3)), Slot(c, s.threads[tid].head);
            && r.head == s.head && r.tail == s.tail && r.threads == s.threads[tid := Idle] && r.trace == s.trace
            && r.states == s.states[i := STORED] && r.elements == s.elements[i := s.threads[tid].value]
  {
    GoThrice(c, s, tid, z);
  }

  lemma Loads<V>(c: Config, s: State<V>, tid: nat, z: V)
    requires Shape(c, s) && Ideal(c) && tid < |s.threads| && s.threads[tid].PopSlot?
    requires s.states[Slot(c, s.threads[tid].tail)] == STORED
    ensures var r := Run(c, s, Accesses(tid, z, 3));
            r.trace == s.trace.(taken := s.trace.taken + [s.elements[Slot(c, s.threads[tid].tail)]])
  {
    GoThrice(c, s, tid, z);
  }

  function FullPush<V>(tid: nat, v: V): seq<Action<V>> { Alone(tid, TryPush(v), v, 3) + Accesses(tid, v, 3) }

  lemma FullPushStores<V>(c: Config, s: State<V>, tid: nat, w: V)
    requires Shape(c, s) && Ideal(c) && tid < |s.threads| && s.threads[tid] == Idle && s.head < s.tail + c.Size()
    requires s.states[Slot(c, s.head)] == EMPTY
    ensures Schedule(|s.threads|, FullPush(tid, w))
    ensures var r := Run(c, s, FullPush(tid, w));
            && r.head == s.head + 1 && r.tail == s.tail && r.threads == s.threads
            && r.states == s.states[Slot(c, s.head) := STORED] && r.elements == s.elements[Slot(c, s.head) := w]
            && r.trace.issued == s.trace.issued + [w] && r.trace.taken == s.trace.taken
  {
    TakesPushTicket(c, s, tid, w, w);
    var m := Run(c, s, Alone(tid, TryPush(w), w, 3));
    Stores(c, m, tid, w);
    RunAppend(c, s, Alone(tid, TryPush(w), w, 3), Accesses(tid, w, 3));
    assert m.threads[tid := Idle] == s.threads;
  }

  // ---------------------------------------------------------------- two producers

  /** The slow producer takes ticket 0 and stops; the fast one pushes `w` into the `n` slots after it. */
  function Lap<V>(slow: nat, fast: nat, v: V, w: V, n: nat): seq<Action<V>> {
    if n == 0 then Alone(slow, TryPush(v), v, 3) else Lap(slow, fast, v, w, n - 1) + FullPush(fast, w)
  }

  ghost predicate AfterLap<V>(c: Config, r: State<V>, slow: nat, v: V, n: nat)
    requires Shape(c, r) && slow < |r.threads|
  {
    && r.threads[slow] == PushSlot(v, 0) && (forall k | 0 <= k < |r.threads| && k != slow :: r.threads[k] == Idle)
    && r.head == n + 1 && r.tail == 0 && r.trace.taken == []
    && |r.trace.issued| == n + 1 && r.trace.issued[0] == v
    && (forall t: nat | t == 0 || n < t < c.Size() :: r.states[Slot(c, t)] == EMPTY)
  }

  lemma {:induction false} LapRuns<V>(c: Config, s: State<V>, slow: nat, fast: nat, v: V, w: V, n: nat)
    requires Ideal(c) && Initial(c, s) && slow < |s.threads| && fast < |s.threads| && slow != fast && n < c.Size()
    ensures Schedule(|s.threads|, Lap(slow, fast, v, w, n))
    ensures AfterLap(c, Run(c, s, Lap(slow, fast, v, w, n)), slow, v, n)
  {
    if n == 0 {
      TakesPushTicket(c, s, slow, v, v);
    } else {
      LapRuns(c, s, slow, fast, v, w, n - 1);
      var r := Run(c, s, Lap(slow, fast, v, w, n - 1));
      FullPushStores(c, r, fast, w);
      RunAppend(c, s, Lap(slow, fast, v, w, n - 1), FullPush(fast, w));
      NeighboursApart(c, n);
    }
  }

  /** A lap, then the reader takes ticket 0, the fast producer stores the ticket one lap later, the reader
      reads. */
  function Overtake<V>(c: Config, slow: nat, fast: nat, reader: nat, v: V, w: V): seq<Action<V>>
    requires c.Size() > 0
  {
    Lap(slow, fast, v, w, c.Size() - 1) + Alone(reader, TryPop, v, 3) + FullPush(fast, w) + Accesses(reader, v, 3)
  }

  ghost predicate ThreeThreads<V>(s: State<V>, a: nat, b: nat, d: nat) {
    a < |s.threads| && b < |s.threads| && d < |s.threads| && a != b && a != d && b != d
  }

  /** The lap with the reader waiting for ticket 0: the fast producer's next slot is that of ticket 0. */
  lemma ReaderWaits<V>(c: Config, s: State<V>, slow: nat, fast: nat, reader: nat, v: V, w: V) returns (r: State<V>)
    requires Ideal(c) && Initial(c, s) && ThreeThreads(s, slow, fast, reader)
    ensures var run := Lap(slow, fast, v, w, c.Size() - 1) + Alone(reader, TryPop, v, 3);
            Schedule(|s.threads|, run) && r == Run(c, s, run)
    ensures Shape(c, r) && |r.threads| == |s.threads| && r.threads[fast] == Idle && r.threads[reader] == PopSlot(0)
    ensures r.head == c.Size() && r.tail == 1 && r.trace.taken == []
    ensures r.trace.issued != [] && r.trace.issued[0] == v
    ensures Slot(c, r.head) == Slot(c, 0) && r.states[Slot(c, 0)] == EMPTY
  {
    var n := c.Size() - 1;
    LapRuns(c, s, slow, fast, v, w, n);
    var m := Run(c, s, Lap(slow, fast, v, w, n));
    TakesPopTicket(c, m, reader, v);
    RunAppend(c, s, Lap(slow, fast, v, w, n), Alone(reader, TryPop, v, 3));
    r := Run(c, m, Alone(reader, TryPop, v, 3));
    SlotsApart(c, 0, 0);
  }

  /** For every size and any further threads: the reader of ticket 0 gets `w` though ticket 0 was given to the
      push of `v`. */
  lemma TwoProducersOvertake<V>(c: Config, s: State<V>, slow: nat, fast: nat, reader: nat, v: V, w: V)
    requires Ideal(c) && Initial(c, s) && ThreeThreads(s, slow, fast, reader) && v != w
    ensures Schedule(|s.threads|, Overtake(c, slow, fast, reader, v, w))
    ensures var r := Run(c, s, Overtake(c, slow, fast, reader, v, w));
            && r.trace.issued != [] && r.trace.issued[0] == v && r.trace.taken == [w]
            && !(r.trace.taken <= r.trace.issued)
  {
    var run := Lap(slow, fast, v, w, c.Size() - 1) + Alone(reader, TryPop, v, 3);
    var m := ReaderWaits(c, s, slow, fast, reader, v, w);
    FullPushStores(c, m, fast, w);
    RunAppend(c, s, run, FullPush(fast, w));
    Loads(c, Run(c, m, FullPush(fast, w)), reader, v);
    RunAppend(c, s, run + FullPush(fast, w), Accesses(reader, v, 3));
  }

  // The fast producer may do the reading, if it pushes the last value with the push that does not ask for room.

  function BlockingPush<V>(tid: nat, v: V): seq<Action<V>> { Alone(tid, Push(v), v, 1) + Accesses(tid, v, 3) }

  lemma BlockingPushStores<V>(c: Config, s: State<V>, tid: nat, w: V)
    requires Shape(c, s) && Ideal(c) && tid < |s.threads| && s.threads[tid] == Idle
    requires s.states[Slot(c, s.head)] == EMPTY
    ensures Schedule(|s.threads|, BlockingPush(tid, w))
    ensures var r := Run(c, s, BlockingPush(tid, w));
            && r.head == s.head + 1 && r.tail == s.tail && r.threads == s.threads
            && r.states == s.states[Slot(c, s.head) := STORED] && r.elements == s.elements[Slot(c, s.head) := w]
            && r.trace.issued == s.trace.issued + [w] && r.trace.taken == s.trace.taken
  {
    Begun(c, s, tid, Push(w), w, 1);
    var s1 := Step(c, s, Action(tid, Call(Push(w))));
    GoOnce(c, s1, tid, w, 0);
    var m := Run(c, s, Alone(tid, Push(w), w, 1));
    assert m.threads == s.threads[tid := PushSlot(w, s.head)];
    Stores(c, m, tid, w);
    RunAppend(c, s, Alone(tid, Push(w), w, 1), Accesses(tid, w, 3));
    assert m.threads[tid := Idle] == s.threads;
  }

  function OvertakeAndRead<V>(c: Config, slow: nat, fast: nat, v: V, w: V): seq<Action<V>>
    requires c.Size() > 0
  {
    Lap(slow, fast, v, w, c.Size() - 1) + BlockingPush(fast, w) + (Alone(fast, TryPop, v, 3) + Accesses(fast, v, 3))
  }

  /** For every size: with a blocking push, one thread can overtake another's push and pop its own value as
      that of ticket 0. */
  lemma ProducerOvertakesAndReads<V>(c: Config, s: State<V>, slow: nat, fast: nat, v: V, w: V)
    requires Ideal(c) && Initial(c, s) && slow < |s.threads| && fast < |s.threads| && slow != fast && v != w
    ensures Schedule(|s.threads|, OvertakeAndRead(c, slow, fast, v, w))
    ensures var r := Run(c, s, OvertakeAndRead(c, slow, fast, v, w));
            && r.trace.issued != [] && r.trace.issued[0] == v && r.trace.taken == [w]
            && !(r.trace.taken <= r.trace.issued)
  {
    var lap := Lap(slow, fast, v, w, c.Size() - 1);
    LapRuns(c, s, slow, fast, v, w, c.Size() - 1);
    var m := Run(c, s, lap);
    SlotsApart(c, 0, 0);
    BlockingPushStores(c, m, fast, w);
    RunAppend(c, s, lap, BlockingPush(fast, w));
    ReadsFirst(c, Run(c, m, BlockingPush(fast, w)), fast, v);
    RunAppend(c, s, lap + BlockingPush(fast, w), Alone(fast, TryPop, v, 3) + Accesses(fast, v, 3));
  }

  lemma ReadsFirst<V>(c: Config, s: State<V>, tid: nat, z: V)
    requires Shape(c, s) && Ideal(c) && tid < |s.threads| && s.threads[tid] == Idle
    requires s.tail < s.head && s.states[Slot(c, s.tail)] == STORED
    ensures var run := Alone(tid, TryPop, z, 3) + Accesses(tid, z, 3);
            && Schedule(|s.threads|, run)
            && Run(c, s, run).trace == s.trace.(taken := s.trace.taken + [s.elements[Slot(c, s.tail)]])
  {
    TakesPopTicket(c, s, tid, z);
    Loads(c, Run(c, s, Alone(tid, TryPop, z, 3)), tid, z);
    RunAppend(c, s, Alone(tid, TryPop, z, 3), Accesses(tid, z, 3));
  }

  // ---------------------------------------------------------------- two consumers

  function TwoPushes<V>(producer: nat, v: V, w: V): seq<Action<V>> { FullPush(producer, v) + FullPush(producer, w) }

  /** Two elements are stored, both readers take their tickets, and the second one is faster. */
  function OutOfOrder<V>(producer: nat, slow: nat, fast: nat, v: V, w: V): seq<Action<V>> {
    TwoPushes(producer, v, w) + Race(slow, fast, v)
  }

  function Race<V>(slow: nat, fast: nat, z: V): seq<Action<V>> {
    Alone(slow, TryPop, z, 3) + (Alone(fast, TryPop, z, 3) + Accesses(fast, z, 3))
  }

  lemma RaceReturnsSecond<V>(c: Config, s: State<V>, slow: nat, fast: nat, z: V)
    requires Shape(c, s) && Ideal(c) && slow < |s.threads| && fast < |s.threads| && slow != fast
    requires s.threads[slow] == Idle && s.threads[fast] == Idle
    requires s.head >= s.tail + 2 && s.states[Slot(c, s.tail + 1)] == STORED
    ensures Schedule(|s.threads|, Race(slow, fast, z))
    ensures Run(c, s, Race(slow, fast, z)).trace
            == s.trace.(taken := s.trace.taken + [s.elements[Slot(c, s.tail + 1)]])
  {
    TakesPopTicket(c, s, slow, z);
    var m := Run(c, s, Alone(slow, TryPop, z, 3));
    TakesPopTicket(c, m, fast, z);
    Loads(c, Run(c, m, Alone(fast, TryPop, z, 3)), fast, z);
    RunAppend(c, m, Alone(fast, TryPop, z, 3), Accesses(fast, z, 3));
    RunAppend(c, s, Alone(slow, TryPop, z, 3), Alone(fast, TryPop, z, 3) + Accesses(fast, z, 3));
  }

  lemma TwoPushesStore<V>(c: Config, s: State<V>, producer: nat, v: V, w: V)
    requires Ideal(c) && Initial(c, s) && producer < |s.threads| && c.Size() >= 2
    ensures Schedule(|s.threads|, TwoPushes(producer, v, w))
    ensures var r := Run(c, s, TwoPushes(producer, v, w));
            && r.head == 2 && r.tail == 0 && r.threads == s.threads
            && r.states[Slot(c, 1)] == STORED && r.elements[Slot(c, 1)] == w
            && r.trace.issued == [v, w] && r.trace.taken == []
  {
    FullPushStores(c, s, producer, v);
    var m := Run(c, s, FullPush(producer, v));
    SlotsApart(c, 0, 1);
    FullPushStores(c, m, producer, w);
    RunAppend(c, s, FullPush(producer, v), FullPush(producer, w));
  }

  /** For every size from two on: the value of ticket 1 is returned before that of ticket 0. The producer may be
      one of the two consumers. */
  lemma TwoConsumersReorder<V>(c: Config, s: State<V>, producer: nat, slow: nat, fast: nat, v: V, w: V)
    requires Ideal(c) && Initial(c, s) && v != w && c.Size() >= 2
    requires producer < |s.threads| && slow < |s.threads| && fast < |s.threads| && slow != fast
    ensures Schedule(|s.threads|, OutOfOrder(producer, slow, fast, v, w))
    ensures var r := Run(c, s, OutOfOrder(producer, slow, fast, v, w));
            && r.trace.issued == [v, w] && r.trace.taken == [w] && !(r.trace.taken <= r.trace.issued)
  {
    TwoPushesStore(c, s, producer, v, w);
    var m := Run(c, s, TwoPushes(producer, v, w));
    RaceReturnsSecond(c, m, slow, fast, v);
    RunAppend(c, s, TwoPushes(producer, v, w), Race(slow, fast, v));
    assert [w][0] != [v, w][0];
  }
}
