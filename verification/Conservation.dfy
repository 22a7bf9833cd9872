/** No value is lost, invented or duplicated by the lock-free ring, whatever mixture of operations runs. */
module Conservation {
  import opened AtomicQueue
  import opened Ledger

  /** How often `x` occurs in `s`. */
  ghost function Occurs<V(!new)>(s: seq<V>, x: V): nat { multiset(s)[x] }

  /** Whether a thread at `pc` carries `x` towards a ticket it has not got yet. */
  ghost predicate Untaken<V(!new)>(pc: Pc<V>, x: V) { TakesPush(pc) && pc.value == x }

  /** Whether a thread at `pc` is in charge of `x` on behalf of its ticket: a push that has not published it
      yet, a pop that has claimed the slot holding it, or a pop about to return it. */
  ghost predicate InFlight<V(!new)>(c: Config, pc: Pc<V>, elements: seq<V>, x: V)
    requires WfConfig(c) && |elements| == c.Size()
  {
    match pc
    case PushSlot(v, _) => v == x
    case PushWrite(v, _) => v == x
    case PushPublish(v, _) => v == x
    case PopRead(t) => elements[Slot(c, t)] == x
    case PopRelease(_, v) => v == x
    case _ => false
  }

  ghost function CountUntaken<V(!new)>(ts: seq<Pc<V>>, x: V): nat {
    if ts == [] then 0 else One(Untaken(ts[0], x)) + CountUntaken(ts[1..], x)
  }

  ghost function CountInFlight<V(!new)>(c: Config, ts: seq<Pc<V>>, elements: seq<V>, x: V): nat
    requires WfConfig(c) && |elements| == c.Size()
  {
    if ts == [] then 0 else One(InFlight(c, ts[0], elements, x)) + CountInFlight(c, ts[1..], elements, x)
  }

  /** How many slots are STORED and hold `x`. */
  ghost function CountStored<V(!new)>(states: seq<SlotState>, elements: seq<V>, x: V): nat
    requires |states| == |elements|
  {
    if states == [] then 0
    else One(states[0] == STORED && elements[0] == x) + CountStored(states[1..], elements[1..], x)
  }

  lemma {:induction false} UntakenUpdate<V(!new)>(ts: seq<Pc<V>>, k: nat, pc: Pc<V>, x: V)
    requires k < |ts|
    ensures CountUntaken(ts[k := pc], x) + One(Untaken(ts[k], x)) == CountUntaken(ts, x) + One(Untaken(pc, x))
  {
    if k == 0 {
      assert ts[0 := pc][1..] == ts[1..];
    } else {
      assert ts[k := pc][1..] == ts[1..][k - 1 := pc];
      UntakenUpdate(ts[1..], k - 1, pc, x);
    }
  }

  lemma {:induction false} InFlightFrame<V(!new)>(c: Config, ts: seq<Pc<V>>, el: seq<V>, el': seq<V>, x: V)
    requires WfConfig(c) && |el| == |el'| == c.Size()
    requires forall j | 0 <= j < |ts| :: InFlight(c, ts[j], el', x) == InFlight(c, ts[j], el, x)
    ensures CountInFlight(c, ts, el', x) == CountInFlight(c, ts, el, x)
  {
    if ts != [] { InFlightFrame(c, ts[1..], el, el', x); }
  }

  lemma {:induction false} InFlightUpdate<V(!new)>(c: Config, ts: seq<Pc<V>>, el: seq<V>, el': seq<V>, k: nat, pc: Pc<V>, x: V)
    requires WfConfig(c) && |el| == |el'| == c.Size() && k < |ts|
    requires forall j | 0 <= j < |ts| && j != k :: InFlight(c, ts[j], el', x) == InFlight(c, ts[j], el, x)
    ensures CountInFlight(c, ts[k := pc], el', x) + One(InFlight(c, ts[k], el, x))
         == CountInFlight(c, ts, el, x) + One(InFlight(c, pc, el', x))
  {
    if k == 0 {
      assert ts[0 := pc][1..] == ts[1..];
      InFlightFrame(c, ts[1..], el, el', x);
    } else {
      assert ts[k := pc][1..] == ts[1..][k - 1 := pc];
      InFlightUpdate(c, ts[1..], el, el', k - 1, pc, x);
    }
  }

  lemma {:induction false} StoredUpdate<V(!new)>(states: seq<SlotState>, el: seq<V>, i: nat, st: SlotState, v: V, x: V)
    requires |states| == |el| && i < |states|
    ensures CountStored(states[i := st], el[i := v], x) + One(states[i] == STORED && el[i] == x)
         == CountStored(states, el, x) + One(st == STORED && v == x)
  {
    if i == 0 {
      assert states[0 := st][1..] == states[1..] && el[0 := v][1..] == el[1..];
    } else {
      assert states[i := st][1..] == states[1..][i - 1 := st] && el[i := v][1..] == el[1..][i - 1 := v];
      StoredUpdate(states[1..], el[1..], i - 1, st, v, x);
    }
  }

  lemma {:induction false} NothingHeld<V(!new)>(c: Config, ts: seq<Pc<V>>, el: seq<V>, x: V)
    requires WfConfig(c) && |el| == c.Size() && forall k | 0 <= k < |ts| :: ts[k] == Idle
    ensures CountUntaken(ts, x) == 0 && CountInFlight(c, ts, el, x) == 0
  {
    if ts != [] { NothingHeld(c, ts[1..], el, x); }
  }

  lemma {:induction false} NothingStored<V(!new)>(states: seq<SlotState>, el: seq<V>, x: V)
    requires |states| == |el| && forall i | 0 <= i < |states| :: states[i] == EMPTY
    ensures CountStored(states, el, x) == 0
  {
    if states != [] { NothingStored(states[1..], el[1..], x); }
  }

  // ---------------------------------------------------------------- the invariant

  /** The books of value `x`. */
  ghost predicate Books<V(!new)>(c: Config, s: State<V>, x: V)
    requires Shape(c, s)
  {
    && Occurs(s.trace.handed, x)
       == Occurs(s.trace.refused, x) + Occurs(s.trace.issued, x) + CountUntaken(s.threads, x)
    && Occurs(s.trace.issued, x)
       == Occurs(s.trace.taken, x) + CountStored(s.states, s.elements, x) + CountInFlight(c, s.threads, s.elements, x)
  }

  /** A push that has written its element still finds it there. */
  ghost predicate Written<V(!new)>(c: Config, s: State<V>)
    requires Shape(c, s)
  {
    forall k | 0 <= k < |s.threads| && s.threads[k].PushPublish? ::
      s.elements[Slot(c, s.threads[k].head)] == s.threads[k].value
  }

  /** The element at slot `i` may only change under a thread no one shares the slot with. */
  lemma OthersDoNotSee<V(!new)>(c: Config, s: State<V>, tid: nat, i: nat, el: seq<V>, x: V)
    requires LedgerInv(c, s) && tid < |s.threads| && i < c.Size() && Owns(c, s.threads[tid], i)
    requires |el| == c.Size() && forall j | 0 <= j < c.Size() && j != i :: el[j] == s.elements[j]
    ensures forall j | 0 <= j < |s.threads| && j != tid ::
              InFlight(c, s.threads[j], el, x) == InFlight(c, s.threads[j], s.elements, x)
    ensures forall j | 0 <= j < |s.threads| && j != tid && s.threads[j].PushPublish? ::
              el[Slot(c, s.threads[j].head)] == s.elements[Slot(c, s.threads[j].head)]
  {
    forall j | 0 <= j < |s.threads| && j != tid
      ensures InFlight(c, s.threads[j], el, x) == InFlight(c, s.threads[j], s.elements, x)
      ensures s.threads[j].PushPublish? ==>
                el[Slot(c, s.threads[j].head)] == s.elements[Slot(c, s.threads[j].head)]
    {
      OwnersDiffer(c, s, tid, j, i);
    }
  }

  lemma WrittenStep<V(!new)>(c: Config, s: State<V>, a: Action<V>, x: V)
    requires LedgerInv(c, s) && Written(c, s) && a.tid < |s.threads|
    ensures Written(c, Step(c, s, a))
  {
    var s' := Step(c, s, a);
    var pc := s.threads[a.tid];
    if pc.PushWrite? { OthersDoNotSee(c, s, a.tid, Slot(c, pc.head), s'.elements, x); }
    if pc.PopRead? { OthersDoNotSee(c, s, a.tid, Slot(c, pc.tail), s'.elements, x); }
  }

  /** The step of `tid` touches no slot, and moves `x` between the places where it is counted. */
  ghost predicate MovesBooks<V(!new)>(c: Config, s: State<V>, s': State<V>, tid: nat, x: V)
    requires Shape(c, s) && Shape(c, s') && tid < |s.threads| == |s'.threads|
  {
    var pc, pc', t, t' := s.threads[tid], s'.threads[tid], s.trace, s'.trace;
    && s'.states == s.states && s'.elements == s.elements && t'.taken == t.taken
    && Occurs(t'.handed, x) - Occurs(t'.refused, x) - Occurs(t'.issued, x) - One(Untaken(pc', x))
       == Occurs(t.handed, x) - Occurs(t.refused, x) - Occurs(t.issued, x) - One(Untaken(pc, x))
    && Occurs(t'.issued, x) - One(InFlight(c, pc', s.elements, x))
       == Occurs(t.issued, x) - One(InFlight(c, pc, s.elements, x))
  }

  lemma BooksMoved<V(!new)>(c: Config, s: State<V>, s': State<V>, tid: nat, x: V)
    requires Shape(c, s) && Shape(c, s') && Books(c, s, x) && tid < |s.threads| == |s'.threads|
    requires s'.threads == s.threads[tid := s'.threads[tid]] && MovesBooks(c, s, s', tid, x)
    ensures Books(c, s', x)
  {
    UntakenUpdate(s.threads, tid, s'.threads[tid], x);
    InFlightUpdate(c, s.threads, s.elements, s.elements, tid, s'.threads[tid], x);
  }

  lemma CallMovesBooks<V(!new)>(c: Config, s: State<V>, tid: nat, op: Op<V>, x: V)
    requires Shape(c, s) && tid < |s.threads|
    ensures var s' := StepCall(s, tid, op); Shape(c, s') && MovesBooks(c, s, s', tid, x)
  {
  }

  lemma TryPushMovesBooks<V(!new)>(c: Config, s: State<V>, tid: nat, e: Event<V>, x: V)
    requires Shape(c, s) && tid < |s.threads| && TakesPush(s.threads[tid])
    ensures var s' := StepTryPush(c, s, tid, e); Shape(c, s') && MovesBooks(c, s, s', tid, x)
  {
    var s', v := StepTryPush(c, s, tid, e), s.threads[tid].value;
    var pc', t, t' := s'.threads[tid], s.trace, s'.trace;
    assert s'.states == s.states && s'.elements == s.elements;
    assert || (TakesPush(pc') && pc'.value == v && t' == t)
           || (pc'.Idle? && t' == t.(refused := t.refused + [v]))
           || (pc'.PushSlot? && pc'.value == v && t' == t.(issued := t.issued + [v]));
  }

  lemma TryPopMovesBooks<V(!new)>(c: Config, s: State<V>, tid: nat, e: Event<V>, x: V)
    requires Shape(c, s) && tid < |s.threads| && TakesPop(s.threads[tid])
    ensures var s' := StepTryPop(c, s, tid, e); Shape(c, s') && MovesBooks(c, s, s', tid, x)
  {
    var s' := StepTryPop(c, s, tid, e);
    var pc' := s'.threads[tid];
    assert s'.states == s.states && s'.elements == s.elements && s'.trace == s.trace;
    assert TakesPop(pc') || pc'.Idle? || pc'.PopSlot?;
  }

  /** The same for a step that does touch a slot, its own. */
  lemma SlotBooksMoved<V(!new)>(c: Config, s: State<V>, s': State<V>, tid: nat, i: nat, x: V)
    requires Shape(c, s) && Shape(c, s') && Books(c, s, x) && tid < |s.threads| == |s'.threads| && i < c.Size()
    requires s'.threads == s.threads[tid := s'.threads[tid]]
    requires s'.states == s.states[i := s'.states[i]] && s'.elements == s.elements[i := s'.elements[i]]
    requires forall j | 0 <= j < |s.threads| && j != tid ::
               InFlight(c, s.threads[j], s'.elements, x) == InFlight(c, s.threads[j], s.elements, x)
    requires s'.trace.(taken := s.trace.taken) == s.trace
    requires !Untaken(s.threads[tid], x) && !Untaken(s'.threads[tid], x)
    requires Occurs(s'.trace.taken, x) - Occurs(s.trace.taken, x)
             + One(s'.states[i] == STORED && s'.elements[i] == x) - One(s.states[i] == STORED && s.elements[i] == x)
             + One(InFlight(c, s'.threads[tid], s'.elements, x)) - One(InFlight(c, s.threads[tid], s.elements, x)) == 0
    ensures Books(c, s', x)
  {
    UntakenUpdate(s.threads, tid, s'.threads[tid], x);
    InFlightUpdate(c, s.threads, s.elements, s'.elements, tid, s'.threads[tid], x);
    StoredUpdate(s.states, s.elements, i, s'.states[i], s'.elements[i], x);
  }

  lemma DoPushKeepsBooks<V(!new)>(c: Config, s: State<V>, tid: nat, e: Event<V>, x: V)
    requires LedgerInv(c, s) && Written(c, s) && Books(c, s, x) && tid < |s.threads| && DoesPush(s.threads[tid])
    ensures var s' := StepDoPush(c, s, tid, e); Shape(c, s') && Books(c, s', x)
  {
    var s', i := StepDoPush(c, s, tid, e), Slot(c, s.threads[tid].head);
    assert s'.threads == s.threads[tid := s'.threads[tid]];
    OwnerSees(c, s, tid, i);
    if s.threads[tid].PushWrite? {
      OthersDoNotSee(c, s, tid, i, s'.elements, x);
    }
    assert s'.states == s.states[i := s'.states[i]] && s'.elements == s.elements[i := s'.elements[i]];
    SlotBooksMoved(c, s, s', tid, i, x);
  }

  lemma DoPopKeepsBooks<V(!new)>(c: Config, s: State<V>, tid: nat, e: Event<V>, x: V)
    requires LedgerInv(c, s) && Books(c, s, x) && tid < |s.threads| && DoesPop(s.threads[tid])
    ensures var s' := StepDoPop(c, s, tid, e); Shape(c, s') && Books(c, s', x)
  {
    var s', i := StepDoPop(c, s, tid, e), Slot(c, s.threads[tid].tail);
    assert s'.threads == s.threads[tid := s'.threads[tid]];
    OwnerSees(c, s, tid, i);
    if s.threads[tid].PopRead? {
      OthersDoNotSee(c, s, tid, i, s'.elements, x);
    }
    assert s'.states == s.states[i := s'.states[i]] && s'.elements == s.elements[i := s'.elements[i]];
    SlotBooksMoved(c, s, s', tid, i, x);
  }

  lemma BooksStep<V(!new)>(c: Config, s: State<V>, a: Action<V>, x: V)
    requires LedgerInv(c, s) && Written(c, s) && Books(c, s, x) && a.tid < |s.threads|
    ensures Books(c, Step(c, s, a), x)
  {
    var s', pc := Step(c, s, a), s.threads[a.tid];
    if !a.event.Call? && DoesPush(pc) {
      DoPushKeepsBooks(c, s, a.tid, a.event, x);
    } else if !a.event.Call? && DoesPop(pc) {
      DoPopKeepsBooks(c, s, a.tid, a.event, x);
    } else {
      StepMovesBooks(c, s, a, x);
      BooksMoved(c, s, s', a.tid, x);
    }
  }

  lemma StepMovesBooks<V(!new)>(c: Config, s: State<V>, a: Action<V>, x: V)
    requires Shape(c, s) && a.tid < |s.threads|
    requires a.event.Call? || !(DoesPush(s.threads[a.tid]) || DoesPop(s.threads[a.tid]))
    ensures MovesBooks(c, s, Step(c, s, a), a.tid, x)
  {
    if a.event.Call? {
      CallMovesBooks(c, s, a.tid, a.event.op, x);
    } else if TakesPush(s.threads[a.tid]) {
      TryPushMovesBooks(c, s, a.tid, a.event, x);
    } else if TakesPop(s.threads[a.tid]) {
      TryPopMovesBooks(c, s, a.tid, a.event, x);
    }
  }

  lemma {:induction false} BooksRun<V(!new)>(c: Config, s: State<V>, run: seq<Action<V>>, x: V)
    requires LedgerInv(c, s) && Written(c, s) && Books(c, s, x) && Schedule(|s.threads|, run)
    ensures Books(c, Run(c, s, run), x)
    decreases |run|
  {
    if run != [] {
      LedgerStep(c, s, run[0]);
      WrittenStep(c, s, run[0], x);
      BooksStep(c, s, run[0], x);
      BooksRun(c, Step(c, s, run[0]), run[1..], x);
    }
  }

  /** After any run, blocking operations included: each value was handed to pushes as often as it was refused,
      returned, sits in a STORED slot, or is carried by an operation still in progress. */
  lemma ValuesAreConserved<V(!new)>(c: Config, s: State<V>, run: seq<Action<V>>, x: V)
    requires Ideal(c) && Initial(c, s) && Schedule(|s.threads|, run)
    ensures var r := Run(c, s, run);
            Occurs(r.trace.handed, x)
            == Occurs(r.trace.refused, x) + Occurs(r.trace.taken, x) + CountStored(r.states, r.elements, x)
               + CountUntaken(r.threads, x) + CountInFlight(c, r.threads, r.elements, x)
  {
    LedgerInit(c, s);
    NothingHeld(c, s.threads, s.elements, x);
    NothingStored(s.states, s.elements, x);
    BooksRun(c, s, run, x);
  }
}
