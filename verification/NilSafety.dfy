/** What AtomicQueue and AtomicQueueB themselves guarantee, whose slots are cells holding NIL or a value:
    conservation, bounded counters and absence of deadlock. */
module NilSafety {
  import opened AtomicQueue
  import opened Ledger
  import opened Conservation
  import opened NilProtocol

  ghost predicate NilInitial<V>(c: Config, nil: V, s: State<V>) {
    && Shape(c, s)
    && s.head == s.tail == 0
    && (forall i | 0 <= i < c.Size() :: s.elements[i] == nil)
    && (forall k | 0 <= k < |s.threads| :: s.threads[k] == Idle)
    && s.trace == Trace([], [], [], [])
  }

  // ---------------------------------------------------------------- the ledger of a cell

  /** Pushes let in minus pops let in is one while the cell holds a value and zero while it holds NIL. */
  ghost predicate CellBalances<V>(c: Config, nil: V, s: State<V>, i: nat)
    requires Shape(c, s) && i < c.Size()
  {
    Issued(c, s.head, i) - Count(c, s.threads, AwaitsPush, i)
    == Issued(c, s.tail, i) - Count(c, s.threads, AwaitsPop, i) + One(s.elements[i] != nil)
  }

  /** The places a thread of this protocol can be in; NIL is not among the values it carries. */
  ghost predicate NilPlace<V>(nil: V, pc: Pc<V>) {
    && !pc.PushWrite? && !pc.PushPublish? && !pc.PopRead?
    && !CarriesNil(nil, pc) && (pc.PopRelease? ==> pc.value != nil)
  }

  ghost predicate NilInv<V>(c: Config, nil: V, s: State<V>) {
    && Shape(c, s) && Ideal(c)
    && (forall i: nat | i < c.Size() :: CellBalances(c, nil, s, i))
    && (forall k | 0 <= k < |s.threads| :: NilPlace(nil, s.threads[k]))
  }

  lemma NilInvInit<V>(c: Config, nil: V, s: State<V>)
    requires Ideal(c) && NilInitial(c, nil, s)
    ensures NilInv(c, nil, s)
  {
    forall i: nat | i < c.Size() ensures CellBalances(c, nil, s, i) {
      CountNone(c, s.threads, AwaitsPush, i);
      CountNone(c, s.threads, AwaitsPop, i);
    }
  }

  /** Only the thread that steps changes its place. */
  lemma NilFrame<V>(c: Config, nil: V, s: State<V>, a: Action<V>)
    requires Shape(c, s) && a.tid < |s.threads|
    ensures var s' := NilStep(c, nil, s, a); s'.threads == s.threads[a.tid := s'.threads[a.tid]]
  {
  }

  /** How the step of `tid` moves the two sides of cell `i`'s books. */
  ghost predicate KeepsCell<V>(c: Config, nil: V, s: State<V>, s': State<V>, tid: nat, i: nat)
    requires Shape(c, s) && Shape(c, s') && i < c.Size() && tid < |s.threads| && tid < |s'.threads|
  {
    var pc, pc' := s.threads[tid], s'.threads[tid];
    Issued(c, s'.head, i) - Issued(c, s.head, i) - Gain(c, pc, pc', AwaitsPush, i)
    == Issued(c, s'.tail, i) - Issued(c, s.tail, i) - Gain(c, pc, pc', AwaitsPop, i)
       + One(s'.elements[i] != nil) - One(s.elements[i] != nil)
  }

  predicate AtSlot<V>(pc: Pc<V>) { !TakesPush(pc) && !TakesPop(pc) }

  /** A call, or a step towards a ticket, is that of the four-state machine and touches no slot. */
  lemma TicketsTouchNoCell<V>(c: Config, nil: V, s: State<V>, a: Action<V>)
    requires Shape(c, s) && a.tid < |s.threads| && (a.event.Call? || !AtSlot(s.threads[a.tid]))
    ensures NilStep(c, nil, s, a) == Step(c, s, a)
    ensures Step(c, s, a).states == s.states && Step(c, s, a).elements == s.elements
  {
  }

  lemma TicketsKeepCell<V>(c: Config, nil: V, s: State<V>, a: Action<V>, i: nat)
    requires Shape(c, s) && Ideal(c) && a.tid < |s.threads| && i < c.Size()
    requires a.event.Call? || !AtSlot(s.threads[a.tid])
    ensures KeepsCell(c, nil, s, NilStep(c, nil, s, a), a.tid, i)
  {
    TicketsTouchNoCell(c, nil, s, a);
    TicketsKeepBalance(c, s, a, i);
  }

  lemma TicketsKeepBalance<V>(c: Config, s: State<V>, a: Action<V>, i: nat)
    requires Shape(c, s) && Ideal(c) && a.tid < |s.threads| && i < c.Size()
    requires a.event.Call? || !AtSlot(s.threads[a.tid])
    ensures KeepsBalance(c, s, Step(c, s, a), a.tid, i)
  {
    if a.event.Call? {
      CallKeepsBalance(c, s, a.tid, a.event.op, i);
    } else if TakesPush(s.threads[a.tid]) {
      TryPushKeepsBalance(c, s, a.tid, a.event, i);
    } else {
      TryPopKeepsBalance(c, s, a.tid, a.event, i);
    }
  }

  lemma SlotKeepsCell<V>(c: Config, nil: V, s: State<V>, a: Action<V>, i: nat)
    requires Shape(c, s) && Ideal(c) && a.tid < |s.threads| && i < c.Size()
    requires !a.event.Call? && AtSlot(s.threads[a.tid]) && NilPlace(nil, s.threads[a.tid])
    ensures KeepsCell(c, nil, s, NilStep(c, nil, s, a), a.tid, i)
  {
  }

  lemma NilPlaceStep<V>(c: Config, nil: V, s: State<V>, a: Action<V>)
    requires Shape(c, s) && a.tid < |s.threads| && NilPlace(nil, s.threads[a.tid]) && PushesNotNil(nil, a)
    ensures NilPlace(nil, NilStep(c, nil, s, a).threads[a.tid])
  {
  }

  lemma NilInvStep<V>(c: Config, nil: V, s: State<V>, a: Action<V>)
    requires NilInv(c, nil, s) && a.tid < |s.threads| && PushesNotNil(nil, a)
    ensures NilInv(c, nil, NilStep(c, nil, s, a))
  {
    var s' := NilStep(c, nil, s, a);
    NilFrame(c, nil, s, a);
    NilPlaceStep(c, nil, s, a);
    forall i: nat | i < c.Size() ensures CellBalances(c, nil, s', i) {
      assert CellBalances(c, nil, s, i);
      if a.event.Call? || !AtSlot(s.threads[a.tid]) {
        TicketsKeepCell(c, nil, s, a, i);
      } else {
        SlotKeepsCell(c, nil, s, a, i);
      }
      CountUpdate(c, s.threads, a.tid, s'.threads[a.tid], AwaitsPush, i);
      CountUpdate(c, s.threads, a.tid, s'.threads[a.tid], AwaitsPop, i);
    }
  }

  ghost predicate NoNil<V>(nil: V, run: seq<Action<V>>) { forall k | 0 <= k < |run| :: PushesNotNil(nil, run[k]) }

  lemma {:induction false} NilInvRun<V>(c: Config, nil: V, s: State<V>, run: seq<Action<V>>)
    requires NilInv(c, nil, s) && Schedule(|s.threads|, run) && NoNil(nil, run)
    ensures NilInv(c, nil, NilRun(c, nil, s, run))
    decreases |run|
  {
    if run != [] {
      NilInvStep(c, nil, s, run[0]);
      NilInvRun(c, nil, NilStep(c, nil, s, run[0]), run[1..]);
    }
  }

  // ---------------------------------------------------------------- conservation

  /** The books of `x`: handed in as often as refused or let in; let in as often as returned, in a cell, or
      carried by a thread that has its ticket. */
  ghost predicate NilBooks<V(!new)>(c: Config, s: State<V>, x: V)
    requires Shape(c, s)
  {
    && Occurs(s.trace.handed, x)
       == Occurs(s.trace.refused, x) + Occurs(s.trace.issued, x) + CountUntaken(s.threads, x)
    && Occurs(s.trace.issued, x)
       == Occurs(s.trace.taken, x) + Occurs(s.elements, x) + CountInFlight(c, s.threads, s.elements, x)
  }

  lemma TicketsMoveBooks<V(!new)>(c: Config, nil: V, s: State<V>, a: Action<V>, x: V)
    requires Shape(c, s) && a.tid < |s.threads| && (a.event.Call? || !AtSlot(s.threads[a.tid]))
    ensures MovesBooks(c, s, NilStep(c, nil, s, a), a.tid, x)
  {
    TicketsTouchNoCell(c, nil, s, a);
    StepMovesBooks(c, s, a, x);
  }

  /** The same for a slot step: one cell, the mover's carried value and the returned values trade `x`. */
  ghost predicate Trades<V(!new)>(c: Config, s: State<V>, s': State<V>, tid: nat, x: V)
    requires Shape(c, s) && Shape(c, s') && tid < |s.threads| == |s'.threads|
  {
    && s'.trace.(taken := s.trace.taken) == s.trace
    && !Untaken(s.threads[tid], x) && !Untaken(s'.threads[tid], x)
    && Occurs(s'.trace.taken, x) + Occurs(s'.elements, x) + One(InFlight(c, s'.threads[tid], s'.elements, x))
       == Occurs(s.trace.taken, x) + Occurs(s.elements, x) + One(InFlight(c, s.threads[tid], s.elements, x))
  }

  lemma PushTrades<V(!new)>(c: Config, nil: V, s: State<V>, a: Action<V>, x: V)
    requires Shape(c, s) && a.tid < |s.threads| && x != nil && !a.event.Call? && s.threads[a.tid].PushSlot?
    ensures Trades(c, s, NilStep(c, nil, s, a), a.tid, x)
  {
    CellUpdate(s.elements, Slot(c, s.threads[a.tid].head), s.threads[a.tid].value, x);
  }

  lemma PopTrades<V(!new)>(c: Config, nil: V, s: State<V>, a: Action<V>, x: V)
    requires Shape(c, s) && a.tid < |s.threads| && x != nil && !a.event.Call? && s.threads[a.tid].PopSlot?
    ensures Trades(c, s, NilStep(c, nil, s, a), a.tid, x)
  {
    CellUpdate(s.elements, Slot(c, s.threads[a.tid].tail), nil, x);
  }

  lemma SlotMovesBooks<V(!new)>(c: Config, nil: V, s: State<V>, a: Action<V>, x: V)
    requires Shape(c, s) && a.tid < |s.threads| && x != nil
    requires !a.event.Call? && AtSlot(s.threads[a.tid]) && NilPlace(nil, s.threads[a.tid])
    ensures Trades(c, s, NilStep(c, nil, s, a), a.tid, x)
  {
    if s.threads[a.tid].PushSlot? {
      PushTrades(c, nil, s, a, x);
    } else if s.threads[a.tid].PopSlot? {
      PopTrades(c, nil, s, a, x);
    }
  }

  lemma CellUpdate<V(!new)>(cells: seq<V>, i: nat, v: V, x: V)
    requires i < |cells|
    ensures Occurs(cells[i := v], x) + One(cells[i] == x) == Occurs(cells, x) + One(v == x)
  {
  }

  lemma NilBooksStep<V(!new)>(c: Config, nil: V, s: State<V>, a: Action<V>, x: V)
    requires NilInv(c, nil, s) && NilBooks(c, s, x) && a.tid < |s.threads| && x != nil && PushesNotNil(nil, a)
    ensures NilBooks(c, NilStep(c, nil, s, a), x)
  {
    var s' := NilStep(c, nil, s, a);
    NilFrame(c, nil, s, a);
    NilPlaceStep(c, nil, s, a);
    if a.event.Call? || !AtSlot(s.threads[a.tid]) {
      TicketsMoveBooks(c, nil, s, a, x);
    } else {
      SlotMovesBooks(c, nil, s, a, x);
    }
    UntakenUpdate(s.threads, a.tid, s'.threads[a.tid], x);
    InFlightUpdate(c, s.threads, s.elements, s'.elements, a.tid, s'.threads[a.tid], x);
  }

  lemma {:induction false} NilBooksRun<V(!new)>(c: Config, nil: V, s: State<V>, run: seq<Action<V>>, x: V)
    requires NilInv(c, nil, s) && NilBooks(c, s, x) && x != nil && Schedule(|s.threads|, run) && NoNil(nil, run)
    ensures NilBooks(c, NilRun(c, nil, s, run), x)
    decreases |run|
  {
    if run != [] {
      NilInvStep(c, nil, s, run[0]);
      NilBooksStep(c, nil, s, run[0], x);
      NilBooksRun(c, nil, NilStep(c, nil, s, run[0]), run[1..], x);
    }
  }

  lemma NoneIn<V(!new)>(cells: seq<V>, x: V)
    requires x !in cells
    ensures Occurs(cells, x) == 0
  {
  }

  /** After any run of the sentinel queue, blocking operations included: each value other than NIL was handed
      in as often as it was refused, returned, sits in a cell, or is carried by an operation in progress. */
  lemma NilValuesAreConserved<V(!new)>(c: Config, nil: V, s: State<V>, run: seq<Action<V>>, x: V)
    requires Ideal(c) && NilInitial(c, nil, s) && Schedule(|s.threads|, run) && NoNil(nil, run) && x != nil
    ensures var r := NilRun(c, nil, s, run);
            Occurs(r.trace.handed, x)
            == Occurs(r.trace.refused, x) + Occurs(r.trace.taken, x) + Occurs(r.elements, x)
               + CountUntaken(r.threads, x) + CountInFlight(c, r.threads, r.elements, x)
  {
    NilInvInit(c, nil, s);
    NothingHeld(c, s.threads, s.elements, x);
    NoneIn(s.elements, x);
    NilBooksRun(c, nil, s, run, x);
  }

  // ---------------------------------------------------------------- bounds and progress

  lemma NilBoundsStep<V>(c: Config, nil: V, s: State<V>, a: Action<V>)
    requires BoundsInv(c, s) && a.tid < |s.threads| && TryEvent(a.event)
    ensures BoundsInv(c, NilStep(c, nil, s, a))
  {
    var s' := NilStep(c, nil, s, a);
    assert PcBounded(c, s, s.threads[a.tid]);
    assert s.head <= s'.head && s.tail <= s'.tail;
    forall k | 0 <= k < |s'.threads| ensures PcBounded(c, s', s'.threads[k]) {
      if k != a.tid {
        assert s'.threads[k] == s.threads[k] && PcBounded(c, s, s.threads[k]);
      }
    }
  }

  lemma {:induction false} NilBoundsRun<V>(c: Config, nil: V, s: State<V>, run: seq<Action<V>>)
    requires BoundsInv(c, s) && Schedule(|s.threads|, run) && TryOnly(run)
    ensures BoundsInv(c, NilRun(c, nil, s, run))
    decreases |run|
  {
    if run != [] {
      assert TryEvent(run[0].event);
      NilBoundsStep(c, nil, s, run[0]);
      NilBoundsRun(c, nil, NilStep(c, nil, s, run[0]), run[1..]);
    }
  }

  /** The next access of thread `k` is not a wait for its cell. */
  ghost predicate NilCanAdvance<V>(c: Config, nil: V, s: State<V>, k: nat)
    requires Shape(c, s)
  {
    && k < |s.threads| && !s.threads[k].Idle?
    && (s.threads[k].PushSlot? ==> s.elements[Slot(c, s.threads[k].head)] == nil)
    && (s.threads[k].PopSlot? ==> s.elements[Slot(c, s.threads[k].tail)] != nil)
  }

  lemma NilSomeoneCanAdvance<V>(c: Config, nil: V, s: State<V>, j: nat) returns (k: nat)
    requires NilInv(c, nil, s) && BoundsInv(c, s) && j < |s.threads| && !s.threads[j].Idle?
    ensures NilCanAdvance(c, nil, s, k)
  {
    if NilCanAdvance(c, nil, s, j) { return j; }
    var i := Slot(c, if s.threads[j].PushSlot? then s.threads[j].head else s.threads[j].tail);
    assert CellBalances(c, nil, s, i);
    IssuedWithin(c, s.tail, s.head, i);
    if s.elements[i] == nil {
      CountAtLeastOne(c, s.threads, j, AwaitsPop, i);
      k := CountWitness(c, s.threads, AwaitsPush, i);
    } else {
      CountAtLeastOne(c, s.threads, j, AwaitsPush, i);
      k := CountWitness(c, s.threads, AwaitsPop, i);
    }
  }

  /** In every run of try_push and try_pop the sentinel queue keeps its counters within one capacity, holds a
      value in a cell exactly as long as one more push than pop has passed it, and is never deadlocked. */
  lemma NilNeverDeadlocked<V>(c: Config, nil: V, s: State<V>, run: seq<Action<V>>)
    requires Ideal(c) && NilInitial(c, nil, s) && Schedule(|s.threads|, run) && NoNil(nil, run) && TryOnly(run)
    ensures var r := NilRun(c, nil, s, run);
            && r.tail <= r.head <= r.tail + c.Size()
            && (forall i: nat | i < c.Size() :: CellBalances(c, nil, r, i))
            && ((forall k | 0 <= k < |r.threads| :: r.threads[k] == Idle) || exists k :: NilCanAdvance(c, nil, r, k))
  {
    NilInvInit(c, nil, s);
    NilInvRun(c, nil, s, run);
    NilBoundsRun(c, nil, s, run);
    var r := NilRun(c, nil, s, run);
    if j: nat :| j < |r.threads| && r.threads[j] != Idle {
      var k := NilSomeoneCanAdvance(c, nil, r, j);
    }
  }
}
